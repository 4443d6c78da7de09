/** The song catalogue's search box: case-insensitive substring search over titles and artists. */
module SongSearch {
  import opened Outcomes
  import opened Text
  import opened Seqs

  datatype Difficulty = Easy | Medium | Hard

  /** A row of the `songs` table. */
  datatype Song = Song(
    id: nat,
    title: string,
    artist: string,
    key: string,
    tempo: int,
    difficulty: Difficulty,
    chordProgression: seq<string>,
    youtubeUrl: Option<string>,
    tabs: Option<string>,
    notes: Option<string>)

  /** The test applied to each song. */
  predicate Matches(query: string, song: Song) {
    Contains(Lower(song.title), Lower(query)) || Contains(Lower(song.artist), Lower(query))
  }

  function MatchesQuery(query: string): Song -> bool {
    song => Matches(query, song)
  }

  /** `filteredSongs`: the songs the query matches, in catalogue order. */
  function FilterSongs(query: string, songs: seq<Song>): (r: seq<Song>)
    ensures forall s :: s in r <==> s in songs && Matches(query, s)
    ensures IsSubsequence(r, songs)
    ensures forall s :: multiset(r)[s] == if Matches(query, s) then multiset(songs)[s] else 0
  {
    FilterIsSubsequence(MatchesQuery(query), songs);
    forall s ensures multiset(Filter(MatchesQuery(query), songs))[s] == if Matches(query, s) then multiset(songs)[s] else 0 {
      FilterCount(MatchesQuery(query), songs, s);
    }
    Filter(MatchesQuery(query), songs)
  }

  /** An empty search box shows the whole catalogue. */
  lemma EmptyQueryKeepsAll(songs: seq<Song>)
    ensures FilterSongs("", songs) == songs
  {
    forall i | 0 <= i < |songs| ensures MatchesQuery("")(songs[i]) {
      ContainsTrivial(Lower(songs[i].title));
      assert Lower("") == "";
    }
    FilterKeepsAll(MatchesQuery(""), songs);
  }

  /** Queries that agree after lower-casing select the same songs. */
  lemma CaseInsensitive(q1: string, q2: string, songs: seq<Song>)
    requires Lower(q1) == Lower(q2)
    ensures FilterSongs(q1, songs) == FilterSongs(q2, songs)
  {
    FilterAgree(MatchesQuery(q1), MatchesQuery(q2), songs);
  }

  /** Searching the search result again with the same query changes nothing. */
  lemma FilterIdempotentSongs(query: string, songs: seq<Song>)
    ensures FilterSongs(query, FilterSongs(query, songs)) == FilterSongs(query, songs)
  {
    FilterIdempotent(MatchesQuery(query), songs);
  }

  /** Extending a query can only narrow the result: if `shorter` occurs in `longer`, `longer`'s hits are among `shorter`'s, in order. */
  lemma LongerQueryNarrows(shorter: string, longer: string, songs: seq<Song>)
    requires Contains(longer, shorter)
    ensures IsSubsequence(FilterSongs(longer, songs), FilterSongs(shorter, songs))
  {
    ContainsLower(longer, shorter);
    forall i | 0 <= i < |songs| ensures MatchesQuery(longer)(songs[i]) ==> MatchesQuery(shorter)(songs[i]) {
      var s := songs[i];
      if Contains(Lower(s.title), Lower(longer)) {
        ContainsTransitive(Lower(s.title), Lower(longer), Lower(shorter));
      }
      if Contains(Lower(s.artist), Lower(longer)) {
        ContainsTransitive(Lower(s.artist), Lower(longer), Lower(shorter));
      }
    }
    FilterMonotone(MatchesQuery(longer), MatchesQuery(shorter), songs);
  }
}
