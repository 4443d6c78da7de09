/** The draft signup screen: the same toggle as the signup page, on a form with a feature request. */
module SignupDraft {
  import opened SignupForms

  /** `handleMultiSelectChange(field, value)` of the draft screen. */
  function HandleMultiSelectChange(f: SignupForm, field: ListField, value: string): (r: SignupForm)
    ensures value in r.Selected(field) <==> value !in f.Selected(field)
    ensures forall x | x != value :: x in r.Selected(field) <==> x in f.Selected(field)
    ensures Without(r.Selected(field), value) == Without(f.Selected(field), value)
    ensures value !in f.Selected(field) ==> r.Selected(field) == f.Selected(field) + [value]
    ensures value in f.Selected(field) ==> r.Selected(field) == Without(f.Selected(field), value)
    ensures forall g: ListField | g != field :: r.Selected(g) == f.Selected(g)
    ensures r.name == f.name && r.email == f.email && r.experienceLevel == f.experienceLevel
    ensures r.featuresRequest == f.featuresRequest
  {
    f.WithSelected(field, Toggle(f.Selected(field), value))
  }

  /** Two clicks on a button that was not selected leave the whole form as it was. */
  lemma ClickTwice(f: SignupForm, field: ListField, value: string)
    requires value !in f.Selected(field)
    ensures HandleMultiSelectChange(HandleMultiSelectChange(f, field, value), field, value) == f
  {
    ToggleTwice(f.Selected(field), value);
  }
}
