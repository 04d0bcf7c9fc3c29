# takarawalk, modelled in Dafny

takarawalk is a web app for treasure-hunt puzzles. A creator posts a photo puzzle with
accepted answers: keywords, or a QR token printed on a card. Players browse a feed of
recent puzzles, and an administrator can delete puzzles and users. This project models
the page logic around that, one Dafny module per source file:

- `CreatePage` (app/create/page.tsx) covers the create form:
  - the 32-character access token;
  - the answer-list editor, which keeps one to ten answers;
  - answer cleaning (trim each answer, drop the blank ones);
  - the guards of the submit handler and the document it writes;
  - the 5 MB image gate;
  - the QR URL `origin/puzzle/id?token=…`.
- `AdminPage` (app/admin/page.tsx) covers:
  - the admin predicate;
  - the three `forEach` loops of `fetchData`, which count puzzles per creator and merge the users collection with creators who have no user document;
  - the local list updates after a puzzle or a user is deleted.
- `HomePage` (app/page.tsx) covers:
  - the feed's page, cursor and `hasMore` state machine over pages of five;
  - the filter reset;
  - the elapsed-time label on each card.
- `TimeUtils` (lib/timeUtils.ts) covers `toDate`, `formatElapsed` and `formatDateTime`.
- `ImageUtils` (lib/imageUtils.ts) covers:
  - the `.ext` → `.jpg` rename;
  - the 2048-pixel gate;
  - the bounded quality loop;
  - the fallback to the original file.
- `QrImageUtils` (lib/qrImageUtils.ts) covers the layout integers and the title-shortening loop of the downloadable QR card.
- `Wrappers` (`Option`, `Result`) and `Seqs` are shared helpers. `Seqs` provides `filter`, duplicate-free sequences, and the first-insertion order of a JavaScript `Map`.

Where the source changes state step by step, the model is imperative:
- `CreatePage.CreateForm` holds the answer list, the image field, the QR token drawn once at mount, and the id of the puzzle just created.
- `AdminPage.AdminView` holds the two lists.
- `HomePage.Feed` holds the feed.
- The loops of `generateToken`, `fetchData`, `fetchPuzzles`, the quality loop and the title loop are methods with `while`/`for` loops.

Each of these methods is proved against a function and its lemmas: for example
`AdminPage.UserList` with `AdminPage.UserListSpec`, and `HomePage.AfterPage` with
`HomePage.AfterPageSpec`.

Everything outside the page logic becomes an input:
- Firestore reads are given as snapshots (`Option` when the request can fail).
- Writes and deletes are given as a success flag.
- The feed query is a function from the query to the page it returns.
- The encoder is a function from canvas size and quality step to a blob size.
- `measureText` is an arbitrary `width` function.
- JavaScript's whitespace test for `trim` is an arbitrary `isSpace` predicate.
- `Math.random` is a given sequence of indices in 0..61.
- The clock is a `now` parameter.
- The local calendar fields are given as integers.

Some observations the model states as proved contracts, not as findings:

- A failed `fetchPuzzles` after a filter change keeps the old list but has already cleared the cursor (`HomePage.Feed.Refresh`). A later "もっと見る" then appends the first page again.
- An oversized image leaves an earlier selected image in place (`CreatePage.SelectImage`).
- "もう1つ作る" does not clear the image error (`CreatePage.CreateForm.Reset`).

## Model

| member | source | states |
|---|---|---|
| CreatePage.TokenAlphabetShape | app/create/page.tsx:17 | the token alphabet has 62 characters, all ASCII letters or digits |
| CreatePage.GenerateToken | app/create/page.tsx:16-23 | the token has 32 characters; character i is the alphabet entry at the i-th random index, so every character is alphanumeric |
| CreatePage.UpdatedAnswers | app/create/page.tsx:91-93 | same length; the answer at `index` becomes `value`; every other answer is unchanged; an index out of range changes nothing |
| CreatePage.AddedAnswer | app/create/page.tsx:95-97 | the existing answers stay in front, unchanged; the list grows, by one `""`, exactly when it has fewer than ten; a list of at most ten stays within ten |
| CreatePage.WithoutIndexIsSlice | app/create/page.tsx:101 | filtering by index removes exactly the element at `index`, or nothing when the index is out of range |
| CreatePage.EditsKeepAnswerListBounded | app/create/page.tsx:91-102 | update, add and remove keep the list between one and ten answers; remove with more than one answer drops exactly the indexed one |
| CreatePage.LeadingSpace | app/create/page.tsx:108 | the leading run that `trim` drops is whitespace and stops at the first other character |
| CreatePage.TrailingSpaceStart | app/create/page.tsx:108 | the trailing run that `trim` drops is whitespace and starts after the last other character |
| CreatePage.TrimSpec | app/create/page.tsx:108 | `trim` is a contiguous slice with whitespace outside it; it neither starts nor ends with whitespace; it is empty exactly for all-whitespace text |
| CreatePage.TrimBounds | app/create/page.tsx:108 | gives the cut points of `trim`: all before and all after them is whitespace |
| CreatePage.TrimBlank | app/create/page.tsx:106 | `!text.trim()` holds exactly when every character is whitespace |
| CreatePage.TrimTwice | app/create/page.tsx:108 | trimming a trimmed text changes nothing |
| CreatePage.TrimAll | app/create/page.tsx:108 | `map(trim)`: same length, each answer trimmed in place |
| CreatePage.TrimAllConcat | app/create/page.tsx:108 | trimming works answer by answer over a concatenation |
| CreatePage.CleanAnswersByAnswer | app/create/page.tsx:108 | cleaning distributes over concatenation, keeps the original order, keeps a single answer exactly when its trim is non-blank, and never keeps a blank answer |
| CreatePage.CleanOne | app/create/page.tsx:108 | cleaning one answer gives its trim, or nothing when that is blank |
| CreatePage.CleanAnswersTrimmed | app/create/page.tsx:108 | every kept answer is non-blank and already trimmed |
| CreatePage.HasValidAnswersIffCleaned | app/create/page.tsx:178-179 | for a keyword puzzle, the button's `answers.some(a => a.trim().length > 0)` holds exactly when cleaning leaves an answer (the submit check at line 109) |
| CreatePage.CreatorName | app/create/page.tsx:131 | a non-empty display name is used; a missing or empty one gives exactly "匿名"; the result is never empty. The moderator screen's user names (app/admin/page.tsx:87) use the same rule |
| CreatePage.NewPuzzleDoc | app/create/page.tsx:104-137 | a document is written exactly when there is an image, a non-blank title, and (for keyword mode) a non-blank answer. It stores the trimmed title, description and location, the given image URL; the cleaned answers in keyword mode and exactly `[qrToken]` in QR mode; `answer == answers[0]`; unsolved, with solvedBy, solvedByUid and solvedAt null |
| CreatePage.StoredKeywordAnswersClean | app/create/page.tsx:108-129 | every answer stored for a keyword puzzle is non-blank and trimmed |
| CreatePage.SelectImage | app/create/page.tsx:74-89 | no file: nothing changes. The kept file is the earlier one or the chosen one, and it changes only to a chosen file of at most 5·1024·1024 bytes, which also clears the error. An oversize file sets the error and keeps the earlier file. A kept image within 5 MB stays within 5 MB |
| CreatePage.QrUrl | app/create/page.tsx:165 | the QR URL begins with the share URL, and for an origin and id without '?' its first '?' comes right after it, so the path is exactly `/puzzle/id`. For an origin and id also without '#' and an alphanumeric token, the `token` parameter read back from it is that token |
| CreatePage.QrCodeValue | app/create/page.tsx:174-176 | before the puzzle exists (no id, or an empty one) the QR code holds the bare token; afterwards it holds `QrUrl`, from which the token reads back |
| CreatePage.QueryOfJoined | app/create/page.tsx:174-176 | the query of `head?query` is `query` when the head has no '?' and the query no '#' |
| CreatePage.ParamValueSingle | app/create/page.tsx:174-176 | a single `name=value` query gives back its value |
| CreatePage.TokenReadBack | app/create/page.tsx:174-176 | the `token` parameter read back from `head?token=t` is `t`, for a head without '?' or '#' and an alphanumeric `t` |
| CreatePage.CreateForm.constructor | app/create/page.tsx:36-44 | the form starts with one empty answer, no image, no error and no created id; its token is `generateToken`'s, drawn once |
| CreatePage.CreateForm.UpdateAnswer | app/create/page.tsx:91-93 | the new list is `UpdatedAnswers` of the old one; the image, token and created id are unchanged; the bound is kept |
| CreatePage.CreateForm.AddAnswer | app/create/page.tsx:95-97 | the new list is `AddedAnswer` of the old one; nothing else changes; the bound is kept |
| CreatePage.CreateForm.RemoveAnswer | app/create/page.tsx:99-102 | the new list is `RemovedAnswer` of the old one; nothing else changes; the list never becomes empty |
| CreatePage.CreateForm.HandleImageSelect | app/create/page.tsx:74-89 | the image field becomes `SelectImage` of the old one; nothing else changes; the 5 MB bound is kept |
| CreatePage.CreateForm.SubmittedDoc | app/create/page.tsx:104-137 | the document submitted from this form needs a chosen image; a QR puzzle stores exactly the form's own token, a keyword puzzle the cleaned answers of the form |
| CreatePage.CreateForm.Created | app/create/page.tsx:140-141 | a successful submit records the new id and changes nothing else |
| CreatePage.CreateForm.QrValue | app/create/page.tsx:174-176 | the QR code shows the form's token before creation; after it, the token reads back from the QR URL |
| CreatePage.CreateForm.Reset | app/create/page.tsx:264-273 | back to one empty answer, no image and no created id; the image error stays; the token stays the one drawn at mount |
| AdminPage.AdminCannotDeleteSelf | app/admin/page.tsx:39-40 | the admin screen needs a signed-in user, a non-empty admin uid and equal uids; the admin's own row offers no delete (line 343) |
| AdminPage.CountOf | app/admin/page.tsx:62-78 | a creator's count is at most the number of puzzles |
| AdminPage.CountMapSpec | app/admin/page.tsx:62-78 | the count Map gives, for every uid, the number of fetched puzzles it created (absent means 0) |
| AdminPage.CountMapStep | app/admin/page.tsx:76-77 | one more puzzle adds one to its creator's count |
| AdminPage.CountOfSnoc | app/admin/page.tsx:76-77 | one more puzzle adds one to its creator's count and nothing to any other |
| AdminPage.CountByCreator | app/admin/page.tsx:59-78 | the first loop lists the puzzles in snapshot order and builds the count Map |
| AdminPage.DocEntriesSpec | app/admin/page.tsx:83-90 | one entry per user-document id, named by the last such document's displayName or "匿名", counted from the Map (0 if absent) |
| AdminPage.DocStep | app/admin/page.tsx:83-90 | one user document sets its entry; its id joins the insertion order only if new |
| AdminPage.EntriesFromDocs | app/admin/page.tsx:81-90 | the second loop builds `DocEntries` and the first-insertion order of the document ids |
| AdminPage.CreatorEntriesSpec | app/admin/page.tsx:93-101 | each creator with no entry gets one, named by its first puzzle and counted; existing entries are never overwritten |
| AdminPage.CreatorStep | app/admin/page.tsx:93-101 | one puzzle adds its creator only when absent, and at the end of the order |
| AdminPage.AddCreators | app/admin/page.tsx:93-101 | the third loop builds `CreatorEntries`; the order becomes the first occurrences of document ids followed by creator ids |
| AdminPage.EntryMapSpec | app/admin/page.tsx:81-101 | the Map's keys are exactly the document ids and creators; every entry's uid is its key, its count is `CountOf`, and its name comes from the last document or else the first puzzle |
| AdminPage.UserListSpec | app/admin/page.tsx:51-104 | the user list is in Map insertion order, has distinct uids, and includes every creator; each count equals the number of that uid's fetched puzzles; names as above; the counts add up to the number of puzzles |
| AdminPage.FetchData | app/admin/page.tsx:51-104 | the three loops return the puzzle list and exactly `UserList` of the snapshots |
| AdminPage.CreatorHasUser | app/admin/page.tsx:93-101 | every puzzle's creator has a row in the user list |
| AdminPage.FetchDataConsistent | app/admin/page.tsx:82-104 | a user list ordered by first occurrence and counted by `CountOf` is consistent: distinct uids, every creator listed, true counts |
| AdminPage.OccursOnce | app/admin/page.tsx:82 | in a duplicate-free uid list a listed uid occurs exactly once |
| AdminPage.NotOccurs | app/admin/page.tsx:82 | an unlisted uid occurs zero times |
| AdminPage.SumCountOfAddPuzzle | app/admin/page.tsx:76-77 | adding a puzzle adds one to the sum of counts over the uids holding its creator, once per occurrence |
| AdminPage.CountsAddUp | app/admin/page.tsx:93-104 | over distinct uids covering every creator, the counts add up to the number of puzzles |
| AdminPage.ZeroCounts | app/admin/page.tsx:60 | with no puzzles every count sums to 0 |
| AdminPage.SumCountsAsCountOf | app/admin/page.tsx:88-98 | the sum of `puzzleCount` fields equals the sum of `CountOf` over the listed uids |
| AdminPage.ConsistentCountsAddUp | app/admin/page.tsx:82-104 | in a consistent state the counts of all users add up to the number of puzzles |
| AdminPage.FindPuzzle | app/admin/page.tsx:134 | `find` returns the first listed puzzle with that id (no earlier puzzle has it), or nothing when no puzzle has it |
| AdminPage.DecrementCount | app/admin/page.tsx:136-142 | same users, uids and names; the matching uid's count drops by one but not below zero; all other counts unchanged |
| AdminPage.CountWithoutPuzzle | app/admin/page.tsx:131-134 | with distinct ids, removing the puzzle lowers its creator's count by exactly one and no other count |
| AdminPage.DeletePuzzleSpec | app/admin/page.tsx:131-143 | exactly the puzzles with that id are removed; every user stays with the same uid list and names; only the deleted puzzle's creator's count changes, and it does change: down by one, but not below zero |
| AdminPage.DeletePuzzleKeepsOrder | app/admin/page.tsx:131 | the kept puzzles keep their order (cutting the list anywhere cuts the result at the same place) and their multiplicity; the removed id occurs no more |
| AdminPage.DeletePuzzleCounts | app/admin/page.tsx:131-143 | from a consistent state with distinct ids, every count is still the true count after the delete |
| AdminPage.DeletePuzzleKeepsConsistent | app/admin/page.tsx:131-143 | deleting a puzzle keeps the state consistent (the creator stays listed) |
| AdminPage.CountWithoutCreator | app/admin/page.tsx:176 | removing one creator's puzzles leaves every other creator's count unchanged |
| AdminPage.FilterKeepsDistinctUids | app/admin/page.tsx:177 | removing a user keeps the uids distinct |
| AdminPage.DeleteUserSpec | app/admin/page.tsx:176-177 | exactly that creator's puzzles and that user's row are removed, nothing else; a consistent state stays consistent |
| AdminPage.DeleteUserKeepsOrder | app/admin/page.tsx:176-177 | the kept puzzles and users keep their order and their multiplicity; the removed creator and uid occur no more |
| AdminPage.AdminView.constructor | app/admin/page.tsx:42-43 | both lists start empty |
| AdminPage.AdminView.Load | app/admin/page.tsx:51-110 | with both snapshots, the lists become the puzzles and `UserList`; if either request fails, nothing changes |
| AdminPage.AdminView.DeletePuzzle | app/admin/page.tsx:115-150 | after a successful delete the lists are `AfterDeletePuzzle` of the old ones and consistency is kept; a failed delete changes nothing |
| AdminPage.AdminView.DeleteUser | app/admin/page.tsx:152-183 | after a successful delete the lists are `AfterDeleteUser` of the old ones and consistency is kept; a failed delete changes nothing |
| HomePage.QueryFor | app/page.tsx:56-89 | the query keeps the filter and the limit of 5, and starts after the cursor exactly when appending with a cursor set |
| HomePage.AfterPageSpec | app/page.tsx:108-118 | `hasMore` holds exactly when the page has at least 5 items; the cursor changes only for a non-empty page, to its last item; append keeps the old list in front of the page; otherwise the page replaces the list |
| HomePage.LoadMoreKeepsCursor | app/page.tsx:108-118 | if the cursor is the last shown puzzle, it still is after appending a page |
| HomePage.ResetSetsCursor | app/page.tsx:129-132 | after clearing the cursor and fetching without append, the cursor is the last shown puzzle |
| HomePage.ReplayShowsPages | app/page.tsx:108-118 | after a reset and any number of load-mores, the feed shows the pages concatenated in fetch order, and the cursor is the last shown puzzle |
| HomePage.ElapsedLabelEmpty | app/page.tsx:284-294 | the label is empty exactly when there is no creation date, or the puzzle is solved without a solve date |
| HomePage.SolvedLabelReadsBack | app/page.tsx:289-290 | a solved puzzle with both dates gets `formatElapsed(created, solved)` followed by "で解決". That text reads back as the days, hours and minutes it took |
| HomePage.UnsolvedLabelReadsBack | app/page.tsx:291-292 | an unsolved puzzle gets the time since creation followed by "経過" |
| HomePage.Feed.constructor | app/page.tsx:38-42 | empty list, no more, no cursor, no filter, not loading |
| HomePage.Feed.FetchPuzzles | app/page.tsx:45-126 | issues `QueryFor` the current filter and cursor; a returned page gives `AfterPage` of the old state; a failed request changes nothing but the loading flag |
| HomePage.Feed.Refresh | app/page.tsx:129-132 | clears the cursor and fetches the first page; on success the state is the reset `AfterPage` and the cursor is the last puzzle; on failure the old list stays with no cursor |
| HomePage.Feed.ToggleUnsolved | app/page.tsx:200 | flips the filter and refetches the first page under the new filter; on success the state is the reset `AfterPage` with the cursor on the last puzzle; on failure the old list and `hasMore` stay with no cursor |
| HomePage.Feed.LoadMore | app/page.tsx:229-232 | fetches after the cursor and appends; keeps the cursor-is-last property |
| TimeUtils.ToDate | lib/timeUtils.ts:6-13 | null exactly for falsy or unrecognised input; otherwise the instant, with a Date returned unchanged |
| TimeUtils.NatToString | lib/timeUtils.ts:31-33 | decimal text: at least one digit, all digits, no leading zero |
| TimeUtils.ParseNatToString | lib/timeUtils.ts:31-33 | the decimal text of a number reads back as that number |
| TimeUtils.ParseIntToString | lib/timeUtils.ts:42 | the decimal text of a (possibly negative) year reads back as that year |
| TimeUtils.Decompose | lib/timeUtils.ts:24-28 | minutes < 60 and hours < 24; days·1440 + hours·60 + minutes equals the whole minutes of the difference |
| TimeUtils.FormatElapsed | lib/timeUtils.ts:21-22 | "0分" whenever `to` is before `from` |
| TimeUtils.BuildElapsed | lib/timeUtils.ts:20-36 | pushing and joining gives `FormatElapsed`; for `from <= to` the text reads back as the decomposed difference |
| TimeUtils.ParseItemOf | lib/timeUtils.ts:31-33 | a number followed by its unit text reads back as that item |
| TimeUtils.ParseRenderItems | lib/timeUtils.ts:35 | items joined with no separator read back as the same items |
| TimeUtils.ElapsedTextItems | lib/timeUtils.ts:30-35 | the text holds a days item only when days > 0 and an hours item only when hours > 0, always a minutes item, in that order |
| TimeUtils.PadStart2 | lib/timeUtils.ts:43-46 | text of two or more characters is kept; shorter text gets zeros in front up to two characters |
| TimeUtils.TwoDigitField | lib/timeUtils.ts:43-46 | a value below 100 pads to exactly two digits that read back as the value |
| TimeUtils.DateTimeLayout | lib/timeUtils.ts:47 | where each field and separator of "Y/MM/DD HH:mm" sits when the last four fields are two characters wide |
| TimeUtils.FormatDateTimeRoundTrip | lib/timeUtils.ts:41-48 | the text is the year's length plus 12 characters and reads back as year, month index + 1, day, hours and minutes |
| ImageUtils.LastDot | lib/imageUtils.ts:57 | the position of the last '.', or nothing when there is none |
| ImageUtils.JpgName | lib/imageUtils.ts:57 | a trailing `.ext` (dot and at least one non-dot character) is replaced by ".jpg"; a name without one is unchanged |
| ImageUtils.JpgNameKeepsInnerDots | lib/imageUtils.ts:57 | "a.b.png" becomes "a.b.jpg"; "photo" and "photo." are unchanged |
| ImageUtils.JpgNameIdempotent | lib/imageUtils.ts:57 | renaming twice is renaming once |
| ImageUtils.Round | lib/imageUtils.ts:23-24 | `Math.round` gives the integer within one half of its argument, a half rounded up |
| ImageUtils.ScaleRatio | lib/imageUtils.ts:22 | for an image with a side over 2048 the ratio is between 0 and 1, neither scaled side exceeds 2048, and the longer side scales to exactly 2048 |
| ImageUtils.CanvasSize | lib/imageUtils.ts:20-25 | the image's own size when neither side exceeds 2048. Otherwise the longer side becomes exactly 2048. Neither side is ever over 2048, and the orientation is kept |
| ImageUtils.CanvasShortSide | lib/imageUtils.ts:22-24 | for an oversized image the shorter side is `2048 · short / long` rounded to the nearest integer, a half rounded up |
| ImageUtils.RoundedShortSide | lib/imageUtils.ts:22-24 | rounding `short · (2048 / long)` gives the nearest integer to `2048 · short / long` |
| ImageUtils.AttemptsFrom | lib/imageUtils.ts:41-47 | from a step there are at most 4 encodes in all; every encode before the last gave an oversized blob; when fewer than 4, the last gave null or a small-enough blob |
| ImageUtils.EncodeWithinTarget | lib/imageUtils.ts:38-47 | the loop makes between 1 and 4 encodes, exactly `Attempts`, and keeps the last blob |
| ImageUtils.ResizeImageToTarget | lib/imageUtils.ts:10-66 | a read or load error, or a missing canvas context, rejects. Otherwise the canvas is `CanvasSize` of the image, and the last blob becomes a ".jpg"-renamed JPEG, or the original file when that blob is null. The byte target defaults to 1 MB |
| QrImageUtils.LayoutConstants | lib/qrImageUtils.ts:86-99 | qrX = 100, titleY = 534 and maxTitleWidth = 500; the padded QR box fits the canvas and lies above the title |
| QrImageUtils.Shortened | lib/qrImageUtils.ts:101-102 | after k steps the title is k characters shorter |
| QrImageUtils.StepShortened | lib/qrImageUtils.ts:101-102 | one step (drop two characters, add "…") turns k steps into k + 1 |
| QrImageUtils.TruncateTitle | lib/qrImageUtils.ts:99-102 | a title of at most 5 characters, or one that fits, is unchanged. On exit the bracketed title fits or is at most 5 characters. A longer title is never cut below 5 characters. The result is the title after `steps` steps, and every shorter step count left a text too wide and over 5 characters, so the title is cut no further than the loop condition demands |
| Seqs.Filter | app/admin/page.tsx:131 | `filter` keeps only elements that pass, and every element that passes; a single element is kept exactly when it passes |
| Seqs.FilterConcat | app/admin/page.tsx:131 | filtering a concatenation filters each part: the result keeps the input's order |
| Seqs.FilterSplit | app/admin/page.tsx:131 | cutting the input at any point cuts the result at the same place |
| Seqs.FilterCount | app/admin/page.tsx:131 | a value that passes occurs as often as in the input; one that fails does not occur |
| Seqs.Dedup | app/admin/page.tsx:82-104 | the Map's key order: no duplicates, and exactly the values of the input |
| Seqs.DedupSnoc | app/admin/page.tsx:94-96 | a new key goes to the end of the order; a key already present does not move |

## Left out

- Solve arbitration is not part of this model: answer checking, the first-solver transaction, the cooldown, the honeypot and the token auto-solve. It lives in app/puzzle/[id]/page.tsx, which is outside the modelled core. The only part of it used here is how it reads `?token=`, in `CreatePage.TokenReadBack`.
- Firebase is not modelled: `addDoc`, `getDocs`, `deleteDoc`, `uploadBytes`, `getDownloadURL`, `deleteObject` and authentication are foreign calls. Their results are parameters: snapshots, success flags and the image URL. The `if (!db) return` guards are left out with them.
- Storage image deletes in both delete handlers are left out; their failures are ignored by the source and do not affect any list.
- Rendering, JSX, the copy, share and download buttons, the tab and confirm state, and the loading flags of the admin page are left out as UI.
- Canvas drawing, `QRCode.toDataURL`, `roundRect`, `toBlob` and `measureText` are left out. The encoder and the width are abstract functions.
- Floating-point arithmetic is left out. `CanvasSize` computes the ratio and `Math.round` in exact rational arithmetic, so a double rounding error that puts a side at 2047 or 2049 is not covered. The JPEG quality values (0.85 − 0.15·k, floored at 0.3) are left out; the quality step is an index.
- `Math.random` is an input sequence of indices in 0..61. `generateToken`'s `Math.floor(Math.random() * 62)` is assumed to give such indices.
- The clock (`new Date()`, `Date.now()`), the local time zone and `serverTimestamp()` are left out. The current time and the calendar fields are parameters, and `createdAt` is not a field of `CreatePage.PuzzleDoc`.
- The minute ticker of the home page, which re-renders the labels, is left out.
- `CreatePage.TokenReadBack`: `URLSearchParams` percent-decoding and `+`-decoding are not modelled. The property is stated for an origin and id without '?' or '#' and an alphanumeric token, which needs no decoding.
- `TimeUtils.NatToString`: JavaScript numbers are doubles, and the model uses unbounded integers. Counts and times above 2^53 are not covered.
- Strings are sequences of Unicode characters, not UTF-16 code units. `slice(0, -2)` in the title loop and `padStart` count code units in the source.
- React state batching and closures are left out. Each handler is modelled as one atomic update of the current state. `handleDeletePuzzle` looks up the puzzle in the rendered list and filters the pending one; the model uses one state for both.
- `CreatePage.CreateForm` keeps the answers, the image, the token and the created id as fields. The title, description, location and answer type are parameters of `SubmittedDoc`, as the submit reads them; their `useState` setters and the preview and submitting flags are not modelled.
- `HomePage.Feed.LoadMore`: the `disabled={loadingMore}` gating and overlapping requests are not modelled. Each call runs to completion.

