/** The signup page: genre buttons that toggle a selection, and the submit button's guard. */
module SignupPage {
  import opened SignupForms
  import SignupModal

  /**
   * `handleMultiSelectChange(field, value)`: toggles `value` in the named list; nothing else in the
   * form changes.
   */
  function HandleMultiSelectChange(f: PageForm, field: ListField, value: string): (r: PageForm)
    ensures value in r.Selected(field) <==> value !in f.Selected(field)
    ensures forall x | x != value :: x in r.Selected(field) <==> x in f.Selected(field)
    ensures Without(r.Selected(field), value) == Without(f.Selected(field), value)
    ensures value !in f.Selected(field) ==> r.Selected(field) == f.Selected(field) + [value]
    ensures value in f.Selected(field) ==> r.Selected(field) == Without(f.Selected(field), value)
    ensures forall g: ListField | g != field :: r.Selected(g) == f.Selected(g)
    ensures r.name == f.name && r.email == f.email && r.experienceLevel == f.experienceLevel
  {
    f.WithSelected(field, Toggle(f.Selected(field), value))
  }

  /** The submit button's `disabled` attribute. */
  function SubmitDisabled(isSubmitting: bool, f: PageForm): bool {
    isSubmitting || |f.genres| == 0 || f.experienceLevel == ""
  }

  /** The page form seen as a signup modal form with an empty feature request. */
  function AsModalForm(f: PageForm): SignupForm {
    SignupForm(f.name, f.email, f.genres, f.experienceLevel, f.favoriteArtists, "")
  }

  /**
   * Outside a submission, the button is enabled exactly when the modal's genre and level checks
   * would both pass; the name and address are left to the browser's `required` inputs.
   */
  lemma SubmitGuardMatchesChecks(isSubmitting: bool, f: PageForm)
    ensures !SubmitDisabled(isSubmitting, f) <==>
      && !isSubmitting
      && SignupModal.GenresMessage !in SignupModal.ValidationErrors(AsModalForm(f))
      && SignupModal.LevelMessage !in SignupModal.ValidationErrors(AsModalForm(f))
  {
  }

  /**
   * With a level chosen and no submission running, a genre click leaves the button disabled exactly
   * when it deselected the only genre selected.
   */
  lemma GenreClickGuard(f: PageForm, genre: string)
    requires f.experienceLevel != ""
    ensures SubmitDisabled(false, HandleMultiSelectChange(f, Genres, genre)) <==>
      genre in f.genres && forall i | 0 <= i < |f.genres| :: f.genres[i] == genre
  {
    var r := HandleMultiSelectChange(f, Genres, genre);
    if |r.genres| == 0 {
      assert forall i | 0 <= i < |f.genres| :: f.genres[i] == genre by {
        forall i | 0 <= i < |f.genres| ensures f.genres[i] == genre {
          assert f.genres[i] in f.genres;
        }
      }
    }
  }
}
