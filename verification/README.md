# modern-guitar: signup, song search and song entry logic in Dafny

modern-guitar is a guitar-practice web site built with Next.js. Most of it is presentation. Its
logic sits in a few event handlers, and this project models those as pure functions over
strings and sequences:

- **Signup modal.** `handleSubmit` collects validation messages and, when there are none, tries
  to insert the form into `beta_signups`. As written, that insert always fails before anything
  is sent (see "## Findings"). `handleMultiSelectChange` parses a comma-separated list input.
- **Signup service.** `addUserSignup` does the following:
  - re-validates the name and the address;
  - builds the sanitised row (trimmed name, trimmed lower-case address, defaults for absent
    fields);
  - maps the store's SQLSTATE codes to messages: `23505` (unique_violation) and `23502`
    (not_null_violation), from Appendix A of the PostgreSQL manual;
  - rethrows every failure as an `Error`.
- **Signup page and draft signup screen.** Their genre and artist buttons toggle a value in a
  list. The page also has the submit button's `disabled` guard.
- **Song catalogue search.** `filteredSongs` keeps the songs whose lower-cased title or artist
  contains the lower-cased query.
- **Add-song dialog.** `handleChange` updates a single field. `handleSubmit` builds the payload:
  `parseInt(tempo) || 0`, the "To be analyzed" placeholder progression, and the split and trimmed
  manual chord list.

Modules, in dependency order:

- `Outcomes`: `Option` and `Result`.
- `Seqs`: order-preserving `Filter` and the subsequence relation, with their lemmas.
- `Text`: ASCII `trim`, `toLowerCase`, `includes`, `split` and `join`.
- `EmailPattern`: the unanchored pattern `\S+@\S+\.\S+`. It is stated as a predicate: there is a
  position of `@` and a later position of `.` with the visible characters the pattern needs
  around them. A single-pass scanning method is proved to decide it.
- `IntParse`: the decimal prefix reading of `parseInt`.
- `SignupForms`: the form records and the toggle.
- `SignupModal`, `SignupService`, `SignupPage`, `SignupDraft`, `SongSearch` and `AddSong`: one
  module per source component.

The store is not modelled. Its answer to the insert is an input of `AddUserSignup`: the inserted
rows, a coded error, or a thrown value. The result records which row, if any, was sent. The
timestamp `new Date().toISOString()` is an input too.

Two facts about the code shape the model:

- The modal has two address messages: one for a blank address and one for a malformed address.
- The add-song dialog's chord field starts as an empty array. Typing into its text input
  replaces it with a string, so the model gives it both shapes.

## Model

| member | source | states |
|---|---|---|
| EmailPattern.MatchesEmailPattern | src/SignupModal.tsx:65 | the one-pass scan answers true exactly when the address matches `\S+@\S+\.\S+` |
| EmailPattern.ShapedTrim | src/lib/supabase.ts:92-99 | trimming an address never changes whether it matches the pattern, so the trimmed address stored still matches |
| EmailPattern.ShapedLower | src/lib/supabase.ts:92-99 | lower-casing an address never changes whether it matches the pattern |
| EmailPattern.ShapedNotBlank | src/SignupModal.tsx:63-67 | an address that matches is not blank, so the blank branch never hides a well-formed address |
| EmailPattern.ShapedNeedsAtAndDot | src/SignupModal.tsx:65 | an address lacking `@` or lacking `.` never matches |
| SignupModal.ValidationErrors | src/SignupModal.tsx:57-75 | every check runs; at most 4 messages; each message is one of the five, in check order (name, email, genres, level), each at most once; each message appears exactly when its condition holds: blank name, blank address, non-blank malformed address, no genre, no level |
| SignupModal.HandleSubmit | src/SignupModal.tsx:77-81 | the submission gets past validation exactly when the name is not blank, the address matches, a genre and a level are chosen; otherwise the shown error is non-empty and is the messages joined by ". " |
| SignupService.MessageOf | src/SignupModal.tsx:102-107 | an Error gives its own message and any other thrown value the fallback text; the modal's catch uses it with "An unexpected error occurred. Please try again." and the service's rethrow (src/lib/supabase.ts:135-139) with its own generic message |
| SignupModal.SubmitAsWritten | src/SignupModal.tsx:83-107 | as written: nothing is ever sent and the submission never succeeds; an invalid form shows the joined messages, a valid one the message of the TypeError thrown by the missing `from` |
| SignupModal.SubmitIntended | src/SignupModal.tsx:83-107 | as intended: a record is sent exactly when validation passes, and it is the form unchanged; the submission succeeds exactly when validation passes and the store accepts; a store error shows the caught message |
| SignupModal.SubmitDiffersExactlyWhenValid | src/SignupModal.tsx:77-94 | the written and intended submissions differ exactly on forms with no validation message; on the others they agree whatever the store answers |
| SignupModal.ExampleNeverSignsUp | src/SignupModal.tsx:84 | the valid Alex / a@b.com / Rock / Beginner form shows the client's TypeError as written, but is sent and succeeds as intended |
| SignupModal.ValidExample | src/SignupModal.tsx:57-75 | Alex / a@b.com / Rock / Beginner yields no message |
| SignupModal.MissingAtOrDot | src/SignupModal.tsx:63-67 | a non-blank address lacking `@` or `.` gets the format message and never the blank message |
| SignupModal.ParseCommaList | src/SignupModal.tsx:48 | at most one item per comma-separated piece; every item is non-empty, trimmed and free of commas |
| SignupModal.ParseDisplayedList | src/SignupModal.tsx:48 | parsing a list displayed as `join(', ')` (line 206) gives the list back when its items are non-empty, trimmed and comma-free |
| SignupModal.HandleMultiSelectChange | src/SignupModal.tsx:44-49 | the named list field becomes the parse of the typed text, a list of non-empty, trimmed, comma-free items; every other field is unchanged |
| SignupModal.RetypeDisplayedList | src/SignupModal.tsx:44-49 | re-entering a list of clean items exactly as the input displays it (`join(', ')`, line 206) leaves the whole form unchanged |
| SignupService.Sanitize | src/lib/supabase.ts:97-105 | name is trim(name), address is lower(trim(address)), absent lists default to empty and absent strings to "", the timestamp is the given one; a request that passes both checks gives a clean row (trimmed non-empty name, trimmed lower-case matching address) |
| SignupService.SanitizeIdempotent | src/lib/supabase.ts:97-103 | sanitising a sanitised row again changes nothing |
| SignupService.ResubmitClean | src/lib/supabase.ts:88-105 | a clean row passes both defensive checks and is sent unchanged |
| SignupService.NormalisationExample | src/lib/supabase.ts:98-103 | " Alex " and " A@B.COM " become "Alex" and "a@b.com", with empty defaults |
| SignupService.StoreErrorMessage | src/lib/supabase.ts:119-126 | code 23505 gives the duplicate message, 23502 the missing-fields message, any other code "Database insertion failed: " followed by the store's message |
| SignupService.Classify | src/lib/supabase.ts:119-126 | definition, no contract: the `switch (error.code)`: 23505 is a duplicate address, 23502 a missing required field, any other code a persistence failure; StoreErrorMessage and ClassificationReadable state its properties |
| SignupService.ClassificationReadable | src/lib/supabase.ts:119-126 | the error kind can be recovered from the message alone, for every code and store message |
| SignupService.Rethrown | src/lib/supabase.ts:131-139 | an Error keeps its message; a thrown value that is neither an Error nor null/undefined becomes the generic signup message |
| SignupService.AddUserSignup | src/lib/supabase.ts:86-140 | the name failure takes precedence over the address failure, and neither sends a row; a row is sent exactly when both checks pass, and it is the sanitised, clean row; inserted rows come back unchanged, a coded error becomes its mapped message, a thrown value its rethrown message |
| SignupForms.Without | src/app/signup/page.tsx:30 | every copy of the value is removed; other values keep their membership and order; the length drops by the number of copies |
| SignupForms.Toggle | src/app/signup/page.tsx:29-31 | membership of the value flips; other values keep membership; an absent value is appended after the unchanged list; a present value has every copy removed, order kept; removing the value afterwards gives what removing it before gave |
| SignupForms.ToggleTwice | src/app/signup/page.tsx:29-31 | toggling an absent value twice restores the list |
| SignupForms.ToggleSelectedTwice | src/app/signup/page.tsx:29-31 | toggling a present value twice leaves one copy of it at the end, after the rest in order |
| SignupPage.HandleMultiSelectChange | src/app/signup/page.tsx:26-34 | the toggle contract for the named field; every other field of the page form is unchanged |
| SignupPage.SubmitGuardMatchesChecks | src/app/signup/page.tsx:152 | outside a submission the button is enabled exactly when the modal's genre and level checks both pass |
| SignupPage.GenreClickGuard | src/app/signup/page.tsx:152 | with a level chosen, a genre click leaves the button disabled exactly when it deselected the only genre selected |
| SignupPage.SubmitDisabled | src/app/signup/page.tsx:152 | definition, no contract: disabled exactly when a submission is running, no genre is selected or no level is chosen; SubmitGuardMatchesChecks and GenreClickGuard state its properties |
| SignupDraft.HandleMultiSelectChange | src/app/signup.tsx:15-23 | the toggle contract for the named field; every other field, the feature request included, is unchanged |
| SignupDraft.ClickTwice | src/app/signup.tsx:15-23 | two clicks on an unselected button leave the whole form as it was |
| SongSearch.FilterSongs | src/app/tabs/page.tsx:39-42 | a song is kept exactly when the lower-cased query occurs in its lower-cased title or artist; the result is a subsequence of the catalogue and keeps every copy of a kept song |
| SongSearch.EmptyQueryKeepsAll | src/app/tabs/page.tsx:39-42 | the empty query keeps the whole catalogue |
| SongSearch.CaseInsensitive | src/app/tabs/page.tsx:40-41 | queries equal after lower-casing select the same songs |
| SongSearch.FilterIdempotentSongs | src/app/tabs/page.tsx:39-42 | searching the result again with the same query changes nothing |
| SongSearch.LongerQueryNarrows | src/app/tabs/page.tsx:40-41 | when one query occurs in another, the longer query's hits are a subsequence of the shorter one's |
| AddSong.HandleChange | src/components/AddSongModal.tsx:28-31 | the named field takes the value (the chord field as a typed string); every other field is unchanged |
| AddSong.ManualChords | src/components/AddSongModal.tsx:54 | one chord per comma plus one, each trimmed and comma-free; empty pieces are kept |
| AddSong.ManualChordsOfItems | src/components/AddSongModal.tsx:54 | a non-empty array of trimmed, comma-free chords passes through the manual branch unchanged |
| AddSong.ManualChordsOfTyped | src/components/AddSongModal.tsx:54 | chords typed as a non-empty list of trimmed, comma-free items joined by `, ` come out of the manual branch as exactly that list |
| AddSong.TypedChordsSubmitted | src/components/AddSongModal.tsx:28-56 | chords typed into the input through `handleChange` reach a manual-branch payload as the typed list |
| AddSong.ManualChordsOfNothing | src/components/AddSongModal.tsx:54 | an empty chord entry, array or string, gives exactly [""] |
| AddSong.BuildPayload | src/components/AddSongModal.tsx:39-56 | text fields pass through; tempo is the parsed tempo or 0; the link branch (manual entry off, link non-empty) keeps a non-empty progression and otherwise sends ["To be analyzed"]; the manual branch sends the split and trimmed chords |
| AddSong.UsesLink | src/components/AddSongModal.tsx:39 | definition, no contract: the link branch is taken exactly when manual entry is off and the link is non-empty; BuildPayload states its consequences |
| AddSong.TempoValue | src/components/AddSongModal.tsx:44-53 | definition, no contract: `parseInt(tempo) \|\| 0`, the parsed integer, or 0 when the parse gives NaN; TempoOfDecimal and TempoWithoutDigits state its properties |
| AddSong.TempoOfDecimal | src/components/AddSongModal.tsx:44-53 | a tempo field holding the decimal form of n, after blanks and before any non-digit text, gives tempo n |
| AddSong.TempoWithoutDigits | src/components/AddSongModal.tsx:44-53 | a tempo field without digits, the empty one included, gives tempo 0 |
| AddSong.LinkFromInitialForm | src/components/AddSongModal.tsx:39-47 | a link typed into the freshly opened dialog sends ["To be analyzed"] and tempo 0 |
| IntParse.ParseDecimal | src/components/AddSongModal.tsx:44 | reading back the decimal form of any integer, after blanks and before non-digit text, gives that integer |
| IntParse.ParseInt | src/components/AddSongModal.tsx:44 | definition, no contract: `parseInt` skips leading blanks, reads an optional sign and the longest run of decimal digits, and gives NaN (None) when no digit follows; ParseDecimal and ParseNoDigits state its properties |
| IntParse.ParseNoDigits | src/components/AddSongModal.tsx:44 | text without digits reads as NaN |
| Text.Trim | src/lib/supabase.ts:98 | the result has no blank at either end, is empty exactly when the input is all blanks, and is no longer than the input |
| Text.TrimPadded | src/lib/supabase.ts:98 | blanks added around a trimmed string are removed again by trimming |
| Text.TrimIdempotent | src/lib/supabase.ts:98 | trimming twice equals trimming once |
| Text.Lower | src/lib/supabase.ts:99 | same length, no upper-case letter left, each character lower-cased in place |
| Text.LowerOfLower | src/lib/supabase.ts:99 | lower-casing twice equals lower-casing once |
| Text.SplitCount | src/components/AddSongModal.tsx:54 | splitting at a separator gives one more piece than there are separators |
| Text.JoinSplit | src/components/AddSongModal.tsx:54 | joining the pieces of a split with the separator gives the text back |
| Text.SplitJoin | src/components/AddSongModal.tsx:54 | splitting the join of separator-free pieces gives the pieces back |
| Text.ContainsTransitive | src/app/tabs/page.tsx:40-41 | substring containment is transitive |
| Text.ContainsLower | src/app/tabs/page.tsx:40-41 | containment survives lower-casing both sides |
| Seqs.FilterIsSubsequence | src/app/tabs/page.tsx:39 | `filter` keeps order and adds nothing |
| Seqs.FilterIdempotent | src/app/tabs/page.tsx:39 | filtering twice with the same test equals filtering once |
| Seqs.FilterCount | src/app/tabs/page.tsx:39 | `filter` keeps every copy of a kept element and no copy of a dropped one |

## Left out

- Rendering, animation, the modal open and close context, the navigation bar, layout and metadata: presentation only.
- The network calls to the hosted database, the document store and the language-model API. The insert's answer is an input; the catalogue CRUD wrappers and the stubbed song analysis have no logic of their own.
- `createBetaSignupsTable` (src/lib/supabase.ts:30-76) and the module-load environment check: schema side effects and environment I/O.
- `logError` and every `console` call: logging only.
- SignupService.Rethrown: a thrown `null` or `undefined` is not modelled. For such a value `logError` (src/lib/supabase.ts:21, called at :132) reads `.message` and throws a `TypeError` out of the `catch`, so the generic message is never produced; the `Thrown` type covers only `Error` objects and other non-null values.
- The `isSubmitting`, `isAnalyzing` and `isSuccess` flags and the `finally` blocks: UI state around asynchronous calls. `SignupPage.SubmitDisabled` takes the flag as a parameter.
- The browser's `required` attributes on the page's name and address inputs: the browser enforces them, not the code.
- The emoji trail on the landing page: randomness and mouse events.
- Text.Trim: only ASCII blanks (space, tab, line feed, carriage return, vertical tab, form feed) count; the Unicode white space JavaScript's `trim` and `\S` also treat as blank is not modelled.
- Text.Lower: only ASCII letters are lower-cased; Unicode case mapping is not modelled.
- IntParse.ParseDecimal: `parseInt` is modelled for ASCII decimal digits only; radix inference, `0x` prefixes and the loss of precision for very long digit runs are not modelled.
- SignupModal.SubmitIntended: the store's reply is an input, as in the service; the intended record is the form itself, with the field-to-column renaming of src/SignupModal.tsx:87-92 not modelled.

## Findings

| source | as written | input that shows it | evidently intended | confidence | as-written member | corrected member |
|---|---|---|---|---|---|---|
| src/SignupModal.tsx:84 | the modal's client is the default export of the signup service module (src/SignupModal.tsx:7), which is `{ supabase, addUserSignup }` (src/lib/supabase.ts:148) and has no `from`; line 84 throws a `TypeError`, which the `catch` at lines 102-104 shows; next.config.ts:5 lets the type error through the build | the valid form Alex / a@b.com / Rock / Beginner: it ends with the TypeError's message and no record is sent | insert the validated form into `beta_signups` and show success when the store accepts it | not executed; high, from reading the import and the export | SignupModal.SubmitAsWritten (SignupModal.ExampleNeverSignsUp) | SignupModal.SubmitIntended (SignupModal.SubmitDiffersExactlyWhenValid) |
