/**
 * The signup form records of the three signup screens, and the multi-select toggle that the
 * signup page and the draft signup screen share.
 */
module SignupForms {
  import opened Seqs

  /** The two list-valued fields of a signup form. */
  datatype ListField = Genres | FavoriteArtists

  /** The state of the signup modal and of the draft signup screen. */
  datatype SignupForm = SignupForm(
    name: string,
    email: string,
    genres: seq<string>,
    experienceLevel: string,
    favoriteArtists: seq<string>,
    featuresRequest: string)
  {
    function Selected(field: ListField): seq<string> {
      match field
      case Genres => genres
      case FavoriteArtists => favoriteArtists
    }

    /** `{ ...prev, [field]: xs }`. */
    function WithSelected(field: ListField, xs: seq<string>): (r: SignupForm)
      ensures r.Selected(field) == xs
      ensures forall g: ListField | g != field :: r.Selected(g) == Selected(g)
      ensures r.name == name && r.email == email && r.experienceLevel == experienceLevel
      ensures r.featuresRequest == featuresRequest
    {
      match field
      case Genres => this.(genres := xs)
      case FavoriteArtists => this.(favoriteArtists := xs)
    }
  }

  /** The state of the signup page, which has no feature-request field. */
  datatype PageForm = PageForm(
    name: string,
    email: string,
    genres: seq<string>,
    experienceLevel: string,
    favoriteArtists: seq<string>)
  {
    function Selected(field: ListField): seq<string> {
      match field
      case Genres => genres
      case FavoriteArtists => favoriteArtists
    }

    /** `{ ...prev, [field]: xs }`. */
    function WithSelected(field: ListField, xs: seq<string>): (r: PageForm)
      ensures r.Selected(field) == xs
      ensures forall g: ListField | g != field :: r.Selected(g) == Selected(g)
      ensures r.name == name && r.email == email && r.experienceLevel == experienceLevel
    {
      match field
      case Genres => this.(genres := xs)
      case FavoriteArtists => this.(favoriteArtists := xs)
    }
  }

  function Differs(v: string): string -> bool {
    x => x != v
  }

  /** `xs.filter(item => item !== v)`: every copy of `v` removed, everything else in order. */
  function Without(xs: seq<string>, v: string): (r: seq<string>)
    ensures v !in r
    ensures forall x | x != v :: x in r <==> x in xs
    ensures |r| == |xs| - multiset(xs)[v]
    ensures IsSubsequence(r, xs)
  {
    FilterCount(Differs(v), xs, v);
    FilterIsSubsequence(Differs(v), xs);
    assert |xs| == multiset(xs)[v] + |Filter(Differs(v), xs)| by {
      FilterCountsRest(xs, v);
    }
    Filter(Differs(v), xs)
  }

  /** Removing every copy of `v` shortens the list by the number of copies. */
  lemma {:induction false} FilterCountsRest(xs: seq<string>, v: string)
    ensures |xs| == multiset(xs)[v] + |Filter(Differs(v), xs)|
  {
    if |xs| > 0 {
      FilterCountsRest(xs[1..], v);
      assert xs == [xs[0]] + xs[1..];
    }
  }

  /**
   * `handleMultiSelectChange`'s list update: a selected value is deselected (every copy removed),
   * an unselected one is appended.
   */
  function Toggle(xs: seq<string>, v: string): (r: seq<string>)
    ensures v in r <==> v !in xs
    ensures forall x | x != v :: x in r <==> x in xs
    ensures v !in xs ==> r == xs + [v] && |r| == |xs| + 1
    ensures v in xs ==> IsSubsequence(r, xs) && |r| == |xs| - multiset(xs)[v]
    ensures Without(r, v) == Without(xs, v)
  {
    if v in xs then
      FilterIdempotent(Differs(v), xs);
      Without(xs, v)
    else
      FilterAppend(Differs(v), xs, [v]);
      assert Filter(Differs(v), [v]) == [];
      xs + [v]
  }

  /** Selecting an unselected value and then deselecting it restores the list exactly. */
  lemma ToggleTwice(xs: seq<string>, v: string)
    requires v !in xs
    ensures Toggle(Toggle(xs, v), v) == xs
  {
    FilterAppend(Differs(v), xs, [v]);
    FilterKeepsAll(Differs(v), xs);
    assert Filter(Differs(v), [v]) == [];
  }

  /** Deselecting and reselecting a selected value moves its single copy to the end. */
  lemma ToggleSelectedTwice(xs: seq<string>, v: string)
    requires v in xs
    ensures Toggle(Toggle(xs, v), v) == Without(xs, v) + [v]
  {
  }
}
