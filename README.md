# Journal app core, modelled in Dafny

This project models the client-side logic of a personal journaling web app and proves properties about it. The app lets a signed-in user write entries, each with an optional title, free-text content, an optional mood and a list of tags. It lists the entries with a search panel and guards its pages with a request middleware.

The model covers these parts:

- **Entry filter** (`FilterableEntries.dfy`): an entry is kept when it passes every active criterion. The criteria are a case-insensitive text search over title and content, an exact mood, and all of the selected tags.
- **Tag toggle** (`TagList.dfy`): the expression both tag pickers share, `includes ? filter : append`.
- **Tag picker** (`TagSelector.dfy`): a stateless picker that emits new lists.
- **Search panel** (`SearchFilters.dfy`): a class with three state fields. Each handler updates one field and emits the full criteria.
- **Entry form** (`EntryForm.dfy`, `Draft.dfy`):
  - For a new entry, the form mirrors its fields into a local-storage draft under `journal-draft`. It also has an effect meant to restore that draft when it opens, but the save effect runs first and overwrites the draft (see Findings).
  - On submit it validates and normalises the fields, then deletes the draft.
  - The draft's stored text is modelled by an encoder and a decoder that are proved to be exact inverses. The text follows JSON's object syntax for the four members, but escapes only `"` and `\`; see Left out.
- **Display helpers** (`Utils.dfy`): relative time, truncation, and the mood-emoji and tag-colour tables.
- **Middleware** (`Middleware.dfy`):
  - the redirect rules between `/login` and `/journal`;
  - the `setAll` step that mirrors refreshed session cookies onto the request and onto a rebuilt response;
  - the path matcher that decides which requests reach the middleware.
- **JavaScript built-ins** (`Js.dfy`): `null`, truthiness, `toLowerCase`, `includes`, `trim`, `startsWith`/`endsWith` and `filter(t => t !== x)` as Dafny functions. `includes`, `trim` and `filter` are specified independently of how they are computed.

Component state that the source updates in place is a Dafny `class`. React effects are explicit steps, run in the order they are declared; for the entry form, that puts the save before the load. The classes are:

- the search panel;
- the entry form;
- `localStorage`;
- the middleware run;
- its `NextResponse`.

The auth client is an oracle. It supplies the cookie batches it would write and whether a user is signed in. The current time is a parameter.

## Model

| member | source | states |
|---|---|---|
| `Js.Lower` | app/journal/FilterableEntries.jsx:22-24 | Same length; every character is the ASCII lower-case of the input character at that position. |
| `Js.Includes` | app/journal/FilterableEntries.jsx:23-24 | True exactly when the needle occurs at some offset of the haystack. |
| `Js.Trim` | components/journal/EntryForm.jsx:64-71 | The result is a substring of the input, no longer than it, and starts and ends with non-whitespace. It is empty exactly when the input is all ECMAScript whitespace. |
| `Js.TrimStripsEnds` | components/journal/EntryForm.jsx:64-71 | The input is whitespace, then the trimmed string, then whitespace: only leading and trailing whitespace is removed. |
| `Js.TrimIdempotent` | components/journal/EntryForm.jsx:70-71 | Trimming a trimmed string changes nothing. |
| `Js.RemoveAll` | components/journal/SearchFilters.jsx:34 | Keeps exactly the elements different from `x`, in order. The multiset of the result is the input's with `x` removed. |
| `FilterableEntries.Filter` | app/journal/FilterableEntries.jsx:19-41 | An entry is in the result iff it is in the input and passes all active criteria. The result is an order-preserving subsequence, no longer than the input. Each kept entry occurs as often as in the input, and every other entry occurs zero times. |
| `FilterableEntries.FilterNoCriteriaIsIdentity` | app/journal/FilterableEntries.jsx:12-41 | With the initial empty criteria, the list comes back unchanged. |
| `FilterableEntries.FilterByMood` | app/journal/FilterableEntries.jsx:29-31 | With a mood set, kept entries have that mood and mood-less entries are dropped. With mood alone, exactly the entries with that mood are kept. |
| `FilterableEntries.FilterByTags` | app/journal/FilterableEntries.jsx:34-38 | AND semantics: a kept entry carries every selected tag, and an entry missing one is dropped. |
| `FilterableEntries.FilterMissingTags` | app/journal/FilterableEntries.jsx:35-37 | An entry with null tags is dropped by any non-empty tag selection. |
| `FilterableEntries.FilterSearchUntitled` | app/journal/FilterableEntries.jsx:21-26 | An untitled entry is kept by a search only if the lower-cased query occurs in its lower-cased content. |
| `FilterableEntries.FilterSameKeep` | app/journal/FilterableEntries.jsx:19-41 | Criteria that keep the same entries give the same result. |
| `FilterableEntries.SearchIsCaseInsensitive` | app/journal/FilterableEntries.jsx:21-25 | Queries that lower-case alike give the same result. |
| `FilterableEntries.SearchLoweredQuery` | app/journal/FilterableEntries.jsx:21-25 | Typing the query in lower case gives the same result. |
| `FilterableEntries.FilterNarrows` | app/journal/FilterableEntries.jsx:19-41 | A stricter criterion's result is a subsequence of the looser one's, and equals re-filtering it. |
| `FilterableEntries.AddingTagNarrows` | app/journal/FilterableEntries.jsx:34-38 | Selecting one more tag never enlarges the result. |
| `FilterableEntries.SettingMoodNarrows` | app/journal/FilterableEntries.jsx:29-31 | Setting a mood never enlarges the result. |
| `FilterableEntries.SearchExample` | app/journal/FilterableEntries.jsx:19-41 | Searching "ship" over two sample entries keeps only "We shipped v1". |
| `TagList.Toggle` | components/journal/SearchFilters.jsx:33-35 | The tag is in the result iff it was not in the list; every other tag keeps its membership. |
| `TagList.ToggleSelectedRemoves` | components/journal/SearchFilters.jsx:33-34 | Toggling a selected tag removes all its occurrences and keeps the other tags in order. |
| `TagList.ToggleUnselectedAppends` | components/journal/SearchFilters.jsx:33-35 | Toggling an unselected tag appends it at the end and keeps the prefix. |
| `TagList.ToggleKeepsNoDuplicates` | components/journal/SearchFilters.jsx:33-35 | A duplicate-free list stays duplicate-free. |
| `TagList.ToggleTwiceFromUnselected` | components/journal/SearchFilters.jsx:33-35 | Toggling an unselected tag twice restores the list exactly. |
| `TagList.ToggleTwiceFromSelected` | components/journal/SearchFilters.jsx:33-35 | Toggling a selected tag twice gives the list without it plus the tag at the end. The tag set is the same, and so is the multiset when there are no duplicates. |
| `TagList.ToggleTwiceReorders` | components/journal/SearchFilters.jsx:33-35 | Toggling "win" twice in ["win", "idea"] gives ["idea", "win"], so the order is not restored in general. |
| `TagSelector.ToggleTag` | components/journal/TagSelector.jsx:17-24 | A missing `value` acts as `[]`. Selected tag: all its occurrences removed, order kept. Unselected: appended. Other tags unchanged. |
| `TagSelector.ClearAll` | components/journal/TagSelector.jsx:52 | Emits a list with no tags, after which any toggle emits a one-tag list. |
| `TagSelector.ToggleTagProperties` | components/journal/TagSelector.jsx:18-24 | On a duplicate-free value, the emitted list is duplicate-free, and toggling an unselected tag on and off emits the original. |
| `SearchFilters.NextMood` | components/journal/SearchFilters.jsx:27 | Choosing the selected mood clears it; choosing another mood selects that one. |
| `SearchFilters.NextMoodTwice` | components/journal/SearchFilters.jsx:26-30 | From no mood, or from that mood, choosing it twice restores the selection. |
| `SearchFilters.ActiveDropsSomeEntry` | components/journal/SearchFilters.jsx:47 | Some criterion is set iff some entry fails the filter. |
| `SearchFilters.SearchFilters.constructor` | components/journal/SearchFilters.jsx:17-19 | Starts with empty text, no mood and no tags, i.e. the empty criteria. |
| `SearchFilters.SearchFilters.HandleSearchChange` | components/journal/SearchFilters.jsx:21-24 | Sets the text, leaves mood and tags, and emits the new criteria. |
| `SearchFilters.SearchFilters.HandleMoodChange` | components/journal/SearchFilters.jsx:26-30 | Toggles the mood, leaves the rest, and emits the new criteria. |
| `SearchFilters.SearchFilters.HandleTagToggle` | components/journal/SearchFilters.jsx:32-38 | Removes a selected tag (one element shorter) or appends an unselected one. Keeps the tags duplicate-free and emits the new criteria. |
| `SearchFilters.SearchFilters.ClearFilters` | components/journal/SearchFilters.jsx:40-45 | Resets all three fields and emits the empty criteria. |
| `SearchFilters.SearchFilters.HasActiveFilters` | components/journal/SearchFilters.jsx:47 | True iff text, a truthy mood or some tag is set, iff the current criteria drop some entry. When false, the filter is the identity. |
| `Draft.Text` | components/journal/EntryForm.jsx:29-30 | The text of an object with the four members starts with `{`. |
| `Draft.Encode` | components/journal/EntryForm.jsx:29-30 | The stored text is non-empty and starts with `{`. |
| `Draft.Decode` | components/journal/EntryForm.jsx:39-40 | Whatever text it accepts is exactly `Text` of the object it returns, so no other text parses. |
| `Draft.DecodeText` | components/journal/EntryForm.jsx:29-40 | Every text `Text` writes parses back to the same object. Together with `Decode`'s contract, the two are exact inverses. |
| `Draft.DecodeEncode` | components/journal/EntryForm.jsx:29-40 | Parsing the stored text gives back all four fields of the draft. |
| `EntryForm.InitialFields` | components/journal/EntryForm.jsx:20-23 | A new form starts empty. An edit takes a truthy title, the content, a truthy mood and the tags (`[]` when null); a falsy title or mood is replaced by the default. |
| `EntryForm.FromParsed` | components/journal/EntryForm.jsx:41-44 | Each parsed field is taken or replaced by its default (`''`, `null`, `[]`). |
| `EntryForm.SaveStep` | components/journal/EntryForm.jsx:27-32 | For a new entry, the draft key then holds a non-empty text that parses back to the fields. Other keys are untouched, and an edit leaves the store alone. |
| `EntryForm.LoadStep` | components/journal/EntryForm.jsx:35-50 | The fields are replaced only for a new entry whose stored draft is non-empty and parses. Missing, empty or unparsable drafts are ignored. |
| `EntryForm.Normalise` | components/journal/EntryForm.jsx:69-74 | Title: trimmed, or null when it is all whitespace. Content: trimmed. Mood: null when falsy. Tags: as they are. |
| `EntryForm.Submission` | components/journal/EntryForm.jsx:64-74 | Refused exactly when the content is all whitespace. Otherwise the payload is normalised, its content is non-empty and trimmed, and its title is trimmed. |
| `EntryForm.SaveThenLoad` | components/journal/EntryForm.jsx:27-50 | Loading what was just saved gives the saved fields back, provided the mood is not `''`. |
| `EntryForm.LoadAfterRemove` | components/journal/EntryForm.jsx:35-79 | After the draft is removed, a new form opens empty. |
| `EntryForm.MountAsWritten` | components/journal/EntryForm.jsx:27-50 | In the written effect order, the fields stay at their initial values. A new form stays empty and overwrites the stored draft with the empty fields; an edit leaves the store alone. |
| `EntryForm.MountLosesExampleDraft` | components/journal/EntryForm.jsx:27-50 | A concrete stored draft is not restored in the written order. |
| `EntryForm.MountIntended` | components/journal/EntryForm.jsx:34-50 | Loading before saving: an edit changes nothing, and with no stored draft the fields stay initial. For a new entry the stored draft then equals the fields, and no other key changes. |
| `EntryForm.Blank` | components/journal/EntryForm.jsx:64 | True exactly when the content is all whitespace. |
| `EntryForm.MountIntendedRestoresDraft` | components/journal/EntryForm.jsx:34-50 | Loading before saving restores a stored draft and leaves the store unchanged. |
| `EntryForm.Storage.GetItem` | components/journal/EntryForm.jsx:37 | `null` exactly for a missing key; otherwise the stored value. |
| `EntryForm.Storage.SetItem` | components/journal/EntryForm.jsx:30 | Only that key now maps to the value. |
| `EntryForm.Storage.RemoveItem` | components/journal/EntryForm.jsx:78 | Only that key is gone. |
| `EntryForm.EntryForm.constructor` | components/journal/EntryForm.jsx:19-23 | The fields are the initial values for the entry. |
| `EntryForm.EntryForm.SaveDraft` | components/journal/EntryForm.jsx:27-32 | The store becomes `SaveStep` of the current fields. |
| `EntryForm.EntryForm.LoadDraft` | components/journal/EntryForm.jsx:35-50 | The fields become `LoadStep` of the store. |
| `EntryForm.EntryForm.Mount` | components/journal/EntryForm.jsx:27-50 | Runs the save effect, then the load effect. The fields and store end as `MountAsWritten` says: the fields are unchanged, and the stored draft matches them. |
| `EntryForm.EntryForm.AfterRender` | components/journal/EntryForm.jsx:27-32 | The save runs exactly when some field changed since the last render. |
| `EntryForm.EntryForm.SetTitle` | components/journal/EntryForm.jsx:92 | Only the title changes; the draft is re-saved when it differs and keeps matching the fields. |
| `EntryForm.EntryForm.SetContent` | components/journal/EntryForm.jsx:108 | Only the content changes; the draft is re-saved when it differs and keeps matching the fields. |
| `EntryForm.EntryForm.SetMood` | components/journal/EntryForm.jsx:120 | Only the mood changes; the draft is re-saved when it differs and keeps matching the fields. |
| `EntryForm.EntryForm.SetTags` | components/journal/EntryForm.jsx:123 | Only the tags change; the draft is always re-saved (a new array) and keeps matching the fields. |
| `EntryForm.EntryForm.SubmitEnabled` | components/journal/EntryForm.jsx:139 | Enabled iff not submitting and the content is not all whitespace. When enabled, a submission is produced. |
| `EntryForm.EntryForm.HandleSubmit` | components/journal/EntryForm.jsx:61-80 | Returns the submission. The store is unchanged when refused or for an edit; otherwise the draft key is removed. |
| `EntryForm.TrimExamples` | components/journal/EntryForm.jsx:70-71 | `" A "` trims to `"A"` and `"B\n"` to `"B"`. |
| `EntryForm.NewEntrySession` | components/journal/EntryForm.jsx:19-80 | Mount, type, submit: whatever draft was stored, the payload is the trimmed title and content with no mood and no tags, and the draft key is gone afterwards. |
| `Utils.Decimal` | lib/utils.js:41 | Non-empty decimal digits with no leading zero for a positive number. |
| `Utils.DecimalRoundTrip` | lib/utils.js:41 | The digits denote the number. |
| `Utils.ElapsedSeconds` | lib/utils.js:31-33 | The whole seconds elapsed, rounded down: `r * 1000 <= now - date < r * 1000 + 1000`. |
| `Utils.Ago` | lib/utils.js:41 | The text starts with a digit. |
| `Utils.FormatRelativeTime` | lib/utils.js:30-61 | `"just now"` exactly when fewer than 60 whole seconds have elapsed, including future dates. |
| `Utils.RelativeTimeBuckets` | lib/utils.js:39-60 | Per elapsed-seconds range, the text is the count of minutes (1-59), hours (1-23), days (1-29), 30-day months (1-11) or 360-day years (1 and up), each a single division of the seconds. |
| `Utils.AgoWord` | lib/utils.js:41 | The unit word is singular exactly when the count is 1. |
| `Utils.Truncate` | lib/utils.js:67-70 | Falsy or short enough text is returned as is. Otherwise the result ends in `...` and is at most `length + 3` long (with `length` clamped at 0). Its body is a trimmed substring of the first `length` characters; exactly, it is `Trim` of those characters followed by `...`. |
| `Utils.GetMoodEmoji` | lib/utils.js:75-84 | Non-empty exactly for the five moods: the four-character literals as written. |
| `Utils.GetMoodEmojiIntended` | components/journal/MoodSelector.jsx:6-12 | Non-empty exactly for the five moods: the picker's one-character emoji. |
| `Utils.MoodEmojisDistinct` | lib/utils.js:76-82 | Different moods get different emoji in both tables. |
| `Utils.MoodEmojiDiffersFromPicker` | lib/utils.js:77-81 | For every mood, the helper's literal is not the picker's emoji. |
| `Utils.MoodEmojiIsMisreadPickerEmoji` | lib/utils.js:77-81 | Each literal is the picker emoji's UTF-8 bytes read as Windows-1252. |
| `Utils.GetTagColor` | lib/utils.js:89-98 | The grey default exactly for tags outside the five listed. |
| `Utils.TagColorsDistinct` | lib/utils.js:90-96 | The five tags have five different colours. |
| `Middleware.Decide` | middleware.js:44-53 | Redirect to `/login` iff signed out and the path starts with `/journal`. Redirect to `/journal` iff signed in on exactly `/login`. No other target. |
| `Middleware.DecideCases` | middleware.js:44-53 | The two rules never both apply, and the request passes through exactly when neither does. |
| `Middleware.NoRedirectLoop` | middleware.js:44-51 | The page a redirect names passes through for the same user. |
| `Middleware.DecideExamples` | middleware.js:44-53 | `/journalx` is guarded (a prefix test), `/login` is open when signed out, and the other cases behave as listed. |
| `Middleware.Assign` | middleware.js:26-34 | The keys after a batch are the old keys plus every name in the batch. |
| `Middleware.AssignLastWins` | middleware.js:26-34 | A name holds the value of its last occurrence in the batch. |
| `Middleware.AssignUntouched` | middleware.js:26-28 | A name the batch never sets keeps its old value, or stays absent. |
| `Middleware.Values` | middleware.js:26-28 | The batch as the request sees it: each name with its value, options dropped. |
| `Middleware.Full` | middleware.js:32-34 | The batch as the response sees it: each name with its value and options. |
| `Middleware.RequestAgreesWithResponse` | middleware.js:25-35 | After a batch, the request and the response hold the same value for every name it sets. |
| `Middleware.ResponseCookies` | middleware.js:29-34 | A pass-through response carries the names of the last batch only, or no cookies when there was none. |
| `Middleware.Response.Next` | middleware.js:11-15 | A pass-through response with no cookies. |
| `Middleware.Response.Redirect` | middleware.js:46-51 | A redirect to the given path with no cookies. |
| `Middleware.Response.Set` | middleware.js:33 | Only that name changes, to the value and options given. |
| `Middleware.Middleware.constructor` | middleware.js:11-15 | The initial response is a fresh pass-through response with no cookies. |
| `Middleware.Middleware.SetAll` | middleware.js:25-35 | The request cookies get the batch's values without options. The response is a fresh pass-through response holding exactly the batch's cookies with their options. |
| `Middleware.Middleware.SetOnRequest` | middleware.js:26-28 | The request cookies get each name's value, later entries winning; the response is untouched. |
| `Middleware.Middleware.ResponseWith` | middleware.js:29-34 | A fresh pass-through response whose cookies are the batch's names with their values and options. |
| `Middleware.Middleware.Finish` | middleware.js:43-53 | A redirect is a fresh response with no cookies; otherwise the current response is returned. |
| `Middleware.Run` | middleware.js:10-54 | The forwarded request cookies fold in every batch. A pass-through response carries the last batch's cookies, and a redirect carries none. |
| `Middleware.IsMatchedAsWritten` | middleware.js:65 | A matched path starts with `/` and has no line terminator. After the `/` it does not start with `_next/static`, `_next/image` or a `favicon?ico` (any middle character), and does not end in an image extension. |
| `Middleware.IsMatched` | middleware.js:58-65 | The same, with `favicon.ico` read literally. |
| `Middleware.MatchedPathnameAsWritten` | middleware.js:65 | On whole paths, iff: a path is matched by the written pattern exactly when it starts with `/`, has no line terminator, avoids both `_next` prefixes and the loose favicon alternative, and has no image extension. |
| `Middleware.MatchedPathname` | middleware.js:58-65 | On whole paths, iff: a path is matched exactly when it starts with `/`, has no line terminator, does not start with `/_next/static`, `/_next/image` or `/favicon.ico`, and does not end in an image extension. |
| `Middleware.MatcherDifference` | middleware.js:65 | The written pattern skips everything the literal one skips. They differ only on `favicon?ico` paths whose middle character is not a dot. |
| `Middleware.MatcherDotExample` | middleware.js:65 | `/faviconXico` is skipped by the written pattern but matched by the literal one. |
| `Middleware.MatcherExamples` | middleware.js:58-65 | `/journal` is matched; a static chunk, the favicon and a PNG are not. |

## Left out

- Auth and database calls (`createServerClient`, `auth.getUser`, sign-in, sign-up, table inserts and selects) are foreign network calls. `Middleware.Run` takes their effect as parameters: the cookie batches written and whether a user is present.
- The login page's owner-email gate and the home-page redirect are each a single comparison around auth calls. `Middleware.Decide` already covers the redirect rules.
- Rendering, layouts and the loading skeleton are presentation only; so are `formatDate` and `cn`.
- The textarea auto-grow effect and `alert` are DOM side effects.
- React scheduling beyond effect order (batching, StrictMode's double effects, re-renders) is not modelled.
- The second save after the load in the written order, caused by the new tag array, writes the same text. It is not a separate step.
- `Middleware.Response.Next`, `Middleware.Response.Redirect`: the URL is the path only. Resolving it against the request URL and forwarding request headers are left out.
- `Js.Lower` changes ASCII letters only; full Unicode case mapping is left out.
- `Draft.Decode` accepts exactly the text `Draft.Text` writes: fixed member order, only `"` and `\` escaped, no whitespace. Any other JSON the browser would accept, such as a hand-edited draft, decodes as a parse failure here.
- `Draft.Text`, `Draft.Encode`: `JSON.stringify` also writes control characters as escapes (`\n`, `\u0000`, ...). Here they are written as they are, so the text is not JSON for a draft holding one. The round trip is proved for this text only.
- `Utils.Truncate`: lengths count Unicode scalar values, whereas JavaScript counts UTF-16 code units. Text with characters outside the Basic Multilingual Plane is therefore cut elsewhere; cutting inside a surrogate pair cannot happen here.
- `Utils.GetMoodEmoji`, `Utils.GetTagColor`: object keys inherited from `Object.prototype` (such as `"toString"`) would return a non-string in JavaScript. Here they fall to the default.
- `Middleware.IsMatched`, `Middleware.IsMatchedAsWritten`: the pattern is read as a case-sensitive JavaScript regular expression anchored at both ends. The framework's path compilation (case folding, trailing slashes, data routes) is left out.
- Entry ids, timestamps and the detail page's lookups are left out; the filter and the form do not read them.
- `EntryForm.EntryForm.HandleSubmit`: the code removes the draft after `onSubmit` resolves, and the new-entry page's `onSubmit` catches every insert error. The draft is therefore removed even when the insert failed, and the model follows the code. The comment "after successful submit" promises otherwise.

## Findings

| source | as written | input that shows it | evidently intended | confidence | as-written member | corrected member |
|---|---|---|---|---|---|---|
| components/journal/EntryForm.jsx:27-50 | The save effect is declared before the load effect, so on mount it writes the empty fields over the stored draft before the load reads it. | A stored draft `{A, B, motivated, [win]}` and a new-entry form: it opens empty and the draft is overwritten. | The load restores the stored draft, and later saves write the restored fields. | high, not executed | `EntryForm.MountLosesExampleDraft` | `EntryForm.MountIntendedRestoresDraft` |
| lib/utils.js:77-81 | The emoji literals are four-character mojibake: UTF-8 bytes read as Windows-1252, e.g. U+00F0 U+0178 U+0161 U+20AC for motivated. | `getMoodEmoji("motivated")` returns those four characters, not the rocket the mood picker shows. | The picker's emoji, one per mood. | medium, not executed | `Utils.MoodEmojiIsMisreadPickerEmoji` | `Utils.GetMoodEmojiIntended` |
| middleware.js:65 | `favicon.ico` in the matcher pattern has an unescaped `.`, which matches any character. | `/faviconXico` never reaches the middleware. | Skip only `/favicon.ico`. | medium, not executed | `Middleware.MatcherDotExample` | `Middleware.MatchedPathname` |
