/** The add-song dialog: single-field edits of its form, and the song payload built on submit. */
module AddSong {
  import opened Outcomes
  import opened Text
  import opened IntParse

  /**
   * The `chord_progression` entry of the form. It starts as an empty array; typing into its text
   * input replaces it with the typed string.
   */
  datatype ChordField = Items(items: seq<string>) | Typed(text: string) {

    /** `.length`: items of an array, characters of a string. */
    function Length(): nat {
      match this
      case Items(xs) => |xs|
      case Typed(t) => |t|
    }

    /** `.toString()`: an array joins its items with commas, a string is itself. */
    function AsText(): string {
      match this
      case Items(xs) => Join(xs, ",")
      case Typed(t) => t
    }
  }

  /** The names of the dialog's inputs. */
  datatype SongField = Title | Artist | YoutubeUrl | Key | Tempo | Difficulty | ChordProgression | Tabs | Notes

  /** A field's current content. */
  datatype FieldValue = Str(s: string) | Chords(c: ChordField)

  datatype SongForm = SongForm(
    title: string,
    artist: string,
    youtubeUrl: string,
    key: string,
    tempo: string,
    difficulty: string,
    chordProgression: ChordField,
    tabs: string,
    notes: string)
  {
    function Get(field: SongField): FieldValue {
      match field
      case Title => Str(title)
      case Artist => Str(artist)
      case YoutubeUrl => Str(youtubeUrl)
      case Key => Str(key)
      case Tempo => Str(tempo)
      case Difficulty => Str(difficulty)
      case ChordProgression => Chords(chordProgression)
      case Tabs => Str(tabs)
      case Notes => Str(notes)
    }
  }

  /** The form as the dialog opens. */
  const InitialForm := SongForm("", "", "", "", "", "Easy", Items([]), "", "")

  /** `handleChange`: the input named `name` now holds `value`; every other field keeps its content. */
  function HandleChange(f: SongForm, name: SongField, value: string): (r: SongForm)
    ensures r.Get(name) == if name == ChordProgression then Chords(Typed(value)) else Str(value)
    ensures forall g: SongField | g != name :: r.Get(g) == f.Get(g)
  {
    match name
    case Title => f.(title := value)
    case Artist => f.(artist := value)
    case YoutubeUrl => f.(youtubeUrl := value)
    case Key => f.(key := value)
    case Tempo => f.(tempo := value)
    case Difficulty => f.(difficulty := value)
    case ChordProgression => f.(chordProgression := Typed(value))
    case Tabs => f.(tabs := value)
    case Notes => f.(notes := value)
  }

  /** The object passed to `onSubmit`. */
  datatype SongPayload = SongPayload(
    title: string,
    artist: string,
    youtubeUrl: string,
    key: string,
    tempo: int,
    difficulty: string,
    chordProgression: ChordField,
    tabs: string,
    notes: string)

  const Placeholder := "To be analyzed"

  /** The link branch is taken with manual entry off and a non-empty link; otherwise the manual branch is. */
  predicate UsesLink(manualEntry: bool, f: SongForm) {
    !manualEntry && f.youtubeUrl != ""
  }

  /** `parseInt(tempo) || 0`: `NaN` and `0` both become `0`. */
  function TempoValue(tempo: string): int {
    match ParseInt(tempo)
    case None => 0
    case Some(v) => v
  }

  /** `chord_progression.toString().split(',').map(c => c.trim())`: empty pieces are kept. */
  function ManualChords(c: ChordField): (r: seq<string>)
    ensures |r| == multiset(c.AsText())[','] + 1
    ensures forall k | 0 <= k < |r| :: IsTrimmed(r[k]) && ',' !in r[k]
  {
    SplitCount(c.AsText(), ',');
    TrimAll(Split(c.AsText(), ','))
  }

  /** `handleSubmit`'s payload. */
  function BuildPayload(manualEntry: bool, f: SongForm): (p: SongPayload)
    ensures p.title == f.title && p.artist == f.artist && p.youtubeUrl == f.youtubeUrl
    ensures p.key == f.key && p.difficulty == f.difficulty && p.tabs == f.tabs && p.notes == f.notes
    ensures p.tempo == TempoValue(f.tempo)
    ensures UsesLink(manualEntry, f) && f.chordProgression.Length() > 0 ==> p.chordProgression == f.chordProgression
    ensures UsesLink(manualEntry, f) && f.chordProgression.Length() == 0 ==> p.chordProgression == Items([Placeholder])
    ensures !UsesLink(manualEntry, f) ==> p.chordProgression == Items(ManualChords(f.chordProgression))
  {
    var chords :=
      if UsesLink(manualEntry, f) then
        if f.chordProgression.Length() > 0 then f.chordProgression else Items([Placeholder])
      else
        Items(ManualChords(f.chordProgression));
    SongPayload(f.title, f.artist, f.youtubeUrl, f.key, TempoValue(f.tempo), f.difficulty,
                chords, f.tabs, f.notes)
  }

  /** The tempo read back from a field holding `n` in decimal, possibly padded or followed by a unit, is `n`. */
  lemma TempoOfDecimal(pre: string, n: int, rest: string)
    requires AllSpace(pre)
    requires |rest| == 0 || !IsDigit(rest[0])
    ensures TempoValue(pre + Decimal(n) + rest) == n
  {
    ParseDecimal(pre, n, rest);
  }

  /** A tempo field without digits, the empty field included, gives tempo 0. */
  lemma TempoWithoutDigits(tempo: string)
    requires forall i | 0 <= i < |tempo| :: !IsDigit(tempo[i])
    ensures TempoValue(tempo) == 0
  {
    ParseNoDigits(tempo);
  }

  /** In the manual branch a non-empty array of trimmed, comma-free chords comes back unchanged. */
  lemma ManualChordsOfItems(xs: seq<string>)
    requires |xs| > 0
    requires forall k | 0 <= k < |xs| :: IsTrimmed(xs[k]) && ',' !in xs[k]
    ensures ManualChords(Items(xs)) == xs
  {
    SplitJoin(xs, ',');
    forall k | 0 <= k < |xs| ensures Trim(xs[k]) == xs[k] {
      TrimPadded("", xs[k], "");
      assert "" + xs[k] + "" == xs[k];
    }
  }

  /**
   * In the manual branch chords typed as `Am, G, F` come back as the chords themselves: typed
   * text of non-empty lists of trimmed, comma-free chords joined by `, ` is split and trimmed
   * back into that list.
   */
  lemma ManualChordsOfTyped(xs: seq<string>)
    requires |xs| > 0
    requires forall k | 0 <= k < |xs| :: IsTrimmed(xs[k]) && ',' !in xs[k]
    ensures ManualChords(Typed(Join(xs, ", "))) == xs
  {
    TrimSplitJoin("", xs);
    assert "" + Join(xs, ", ") == Join(xs, ", ");
  }

  /** Chords typed into the dialog's input reach a manual-branch payload as the typed list. */
  lemma TypedChordsSubmitted(manualEntry: bool, f: SongForm, xs: seq<string>)
    requires |xs| > 0
    requires forall k | 0 <= k < |xs| :: IsTrimmed(xs[k]) && ',' !in xs[k]
    requires !UsesLink(manualEntry, f)
    ensures BuildPayload(manualEntry, HandleChange(f, ChordProgression, Join(xs, ", "))).chordProgression == Items(xs)
  {
    ManualChordsOfTyped(xs);
  }

  /** In the manual branch an empty entry, array or string, becomes one empty chord. */
  lemma ManualChordsOfNothing(c: ChordField)
    requires c.Length() == 0
    ensures ManualChords(c) == [""]
  {
    assert c.AsText() == "";
    assert Split("", ',') == [""];
    assert Trim("") == "";
  }

  /** Submitting a link from the freshly opened dialog sends the placeholder progression and tempo 0. */
  lemma LinkFromInitialForm(url: string)
    requires url != ""
    ensures var p := BuildPayload(false, HandleChange(InitialForm, YoutubeUrl, url));
      p.chordProgression == Items([Placeholder]) && p.tempo == 0 && p.youtubeUrl == url
  {
    TempoWithoutDigits("");
  }
}
