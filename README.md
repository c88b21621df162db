# OpenGov civic-issue client — a Dafny model

OpenGov is a React client in which citizens file reports about civic problems (potholes, broken
lights, pollution) and authorities work through them. All state lives in the browser's local
storage under two keys, a list of users and a list of reports. The handlers that change reports
(status update, internal note, vote, comment, edit) read the whole report list, rewrite every
record carrying the target id and write the list back; creating a report appends one record;
the remaining handlers (comment toggles, opening a report, starting an edit, text boxes) only
change the component's own state. Every screen is a filter, count or sort over the report list.

This project models that core:

- `Types` — users, roles, report statuses and categories, notes, comments and the `Report`
  record with every optional field as an `Option`.
- `Store` — the stored collections as a `ReportStore` class with `seq` fields, the
  "rewrite every record with this id" map, the `find` by id, and the status counters.
- `AuthorityDashboard` — status updates (assignment on `in_progress`, `resolvedAt` on
  `resolved`), internal notes, the status/category/text filter and the counters.
- `CommunityPage` — the public feed, its in-place sort by upvotes, and the vote toggle with its
  counter and voter-list bookkeeping.
- `CommentsSection` — appending a comment.
- `ReportForm` — creating a report, saving an edit, and the edit-mode form initialisation.
- `CitizenDashboard` — the owner filter, the Edit gate, status badges, the photo preview and
  the comment toggles.
- `Leaderboard` — citizen impact points, stable ranking, and the top-five-plus-you table.
- `AuthorityLeaderboard` — per-authority resolved counts, average resolution time, score,
  stable ranking and rounding.
- `ReportsMap` — the India bounding-box filter, the centre, and the marker list rebuilt on
  every run of the map effect.
- `Seqs`, `Text`, `Sorting` — the JavaScript library behaviour the handlers rely on: `filter`,
  `includes`-based toggles, `trim`, `toLowerCase`, substring search, and the stable
  `Array.prototype.sort` as an in-place insertion sort on an `array` proved equal to a
  functional stable sort.

Clock readings, generated ids and the logged-in user are parameters of the handlers.
Timestamps are integer milliseconds. The store is an object shared by the components, and each
component's React state is a class whose methods are its handlers.

Where the source's comments or natural expectations differ from its code, the model follows
the code:

- No handler checks the acting user's role or the report's owner.
- Any status can be set from any status.
- Moving to `in_progress` always reassigns the report to the acting user.
- `resolvedAt` is stamped on every resolve and kept when a report leaves `resolved`.
- The edit save path accepts a report in any status.
- In edit mode the public flag is always initialised to true, because of `|| true`.
- The citizen leaderboard gives 10 points per resolved report, although its comment says 1.
- Ranks are positions, so tied users get different ranks.

## Model

| member | source | states |
|---|---|---|
| Types.ParseRole | src/types/index.ts:1 | the spellings of the role union type are exactly `citizen` and `authority`, and reading a spelling inverts `RoleName` |
| Types.RoleRoundTrip | src/types/index.ts:1 | every role's spelling reads back as that role |
| Types.ParseStatus | src/types/index.ts:11 | the spellings of the status union type are exactly the four listed, and reading a spelling inverts `StatusName` |
| Types.StatusRoundTrip | src/types/index.ts:11 | every status's spelling reads back as that status |
| Types.ParseCategory | src/types/index.ts:12 | the spellings of the category union type are exactly the five listed, and reading a spelling inverts `CategoryName` |
| Types.CategoryRoundTrip | src/types/index.ts:12 | every category's spelling reads back as that category |
| Types.IdOf | src/components/AuthorityDashboard.tsx:65 | `user?.id` is present exactly when a user is logged in, and is then that user's id |
| Types.NameOf | src/components/AuthorityDashboard.tsx:66 | `user?.name` is present exactly when a user is logged in, and is then that user's name |
| Store.UpdateById | src/components/AuthorityDashboard.tsx:60-71 | the rewrite keeps length and order, replaces each record with the id by the update of itself, and leaves every other record as it was |
| Store.UpdateByIdAbsent | src/pages/CommunityPage.tsx:79-83 | with no record carrying the id, the rewrite writes back exactly what it read |
| Store.FindById | src/pages/CommunityPage.tsx:41 | `find` gives nothing exactly when no record has the id, and otherwise the first record with it |
| Store.StatusCountsPartition | src/components/AuthorityDashboard.tsx:125-130 | the four per-status counts add up to the number of reports |
| Store.StatsOf | src/components/AuthorityDashboard.tsx:125-130 | total is the collection length; pending, in-progress and resolved are the number of reports with that status; with the uncounted rejected they make up the total, so their sum is at most the total |
| AuthorityDashboard.StatusUpdateEffect | src/components/AuthorityDashboard.tsx:58-71 | any target status is taken from any status; `in_progress` assigns the acting user even over an existing assignment; `resolved` stamps resolvedAt with now; other statuses keep assignment and resolvedAt; updatedAt is refreshed; nothing else changes |
| AuthorityDashboard.ResolvedAtHistory | src/components/AuthorityDashboard.tsx:68 | after resolving, a later update keeps the old resolvedAt unless it resolves again, which overwrites it |
| AuthorityDashboard.NoteEffect | src/components/AuthorityDashboard.tsx:100-112 | the old notes (none when absent) stay as a prefix, the new note is last, updatedAt is refreshed, nothing else changes |
| AuthorityDashboard.FilteredReportsSpec | src/components/AuthorityDashboard.tsx:81-89 | the three chained filters equal one filter by all three selectors; the result is an order-preserving subsequence holding exactly the matching reports |
| AuthorityDashboard.UnfilteredShowsAll | src/components/AuthorityDashboard.tsx:81-89 | with both selectors on 'all' and an empty query every report is shown, in order |
| AuthorityDashboard.Dashboard.LoadReports | src/components/AuthorityDashboard.tsx:53-56 | the view holds the whole stored collection |
| AuthorityDashboard.Dashboard.UpdateReportStatus | src/components/AuthorityDashboard.tsx:58-73 | the store keeps its length; records with the id become their status update, every other record is unchanged; the view is reloaded |
| AuthorityDashboard.Dashboard.OpenReportDetail | src/components/AuthorityDashboard.tsx:91-94 | the chosen report becomes the selected one |
| AuthorityDashboard.Dashboard.EditNote | src/components/AuthorityDashboard.tsx:493 | typing sets the note text box to the typed text |
| AuthorityDashboard.Dashboard.AddInternalNote | src/components/AuthorityDashboard.tsx:96-117 | no change without a selected report or with a blank note; otherwise a note with the untrimmed text and the acting user's id and name is appended to the records with the selected id, others unchanged, view reloaded, text box cleared |
| CommunityPage.WriteBackRoundTrip | src/pages/CommunityPage.tsx:79-83 | writing the vote fields back changes only those four fields, and reading them again gives the written values |
| CommunityPage.CastVote | src/pages/CommunityPage.tsx:45-77 | the step-by-step counter and list updates compute the vote function `Voted` |
| CommunityPage.VoteExclusive | src/pages/CommunityPage.tsx:53-77 | after any vote the voter is in at most one of upvotedBy and downvotedBy |
| CommunityPage.VoteMembership | src/pages/CommunityPage.tsx:53-77 | for a voter not in both lists: the voter ends in the cast kind's list exactly when not already in it, leaves the other list, and every other voter keeps their membership of both lists |
| CommunityPage.VoteCounts | src/pages/CommunityPage.tsx:53-77 | a repeat vote takes one off its own counter and leaves the other side alone; a new vote adds one to its counter and takes one off the other counter when it replaces an opposite vote |
| CommunityPage.VotePreservesConsistency | src/pages/CommunityPage.tsx:45-77 | counts equal to list lengths, duplicate-free lists and disjoint lists all survive every vote |
| CommunityPage.VoteTwiceRestores | src/pages/CommunityPage.tsx:53-77 | for a voter in neither list, the same vote cast twice restores the counts and lists exactly |
| CommunityPage.RetractRecastRestores | src/pages/CommunityPage.tsx:53-77 | for a voter already in the cast kind's list of a consistent tally, casting twice restores both counts and the voters of both lists |
| CommunityPage.FeedSpec | src/pages/CommunityPage.tsx:25 | the feed is a permutation of the public reports, holds every report with isPublic true and no other, is ordered by upvotes (absent as 0) from high to low, and keeps store order among equal upvotes |
| CommunityPage.Page.LoadReports | src/pages/CommunityPage.tsx:23-27 | the state array holds exactly the public reports, in store order |
| CommunityPage.Page.HandleVote | src/pages/CommunityPage.tsx:37-87 | no change without a logged-in user or a report with the id; otherwise the vote computed from the first such report is written to the four vote fields of the records with the id, others unchanged, feed reloaded |
| CommunityPage.Page.SortFeed | src/pages/CommunityPage.tsx:93 | the state array is sorted in place into the stable descending order by upvotes |
| CommunityPage.Page.ToggleComments | src/pages/CommunityPage.tsx:29-35 | the report id is removed when present and appended when absent |
| Seqs.Toggled | src/components/CitizenDashboard.tsx:47-53 | the id is in the result exactly when it was not in the list, and every other element keeps its membership |
| Seqs.ToggleTwice | src/components/CitizenDashboard.tsx:47-53 | toggling the same id twice restores membership, and restores the list when the id was absent |
| Seqs.Without | src/pages/CommunityPage.tsx:56 | filtering out a value removes it and keeps every other element |
| CommentsSection.CommentCount | src/components/CommentsSection.tsx:47 | the heading shows the list length, 0 when absent |
| CommentsSection.CommentEffect | src/components/CommentsSection.tsx:33-37 | the earlier comments stay in front, the new one is last, the count grows by one, updatedAt and every other field are unchanged |
| CommentsSection.Section.EditComment | src/components/CommentsSection.tsx:82 | typing sets the comment text box to the typed text |
| CommentsSection.Section.HandleSubmitComment | src/components/CommentsSection.tsx:19-43 | no change for a blank text or without a user; otherwise a comment with the untrimmed text and the user's id and name is appended to the records with the report's id, others unchanged, text cleared, loading off |
| ReportForm.NewReportSpec | src/components/ReportForm.tsx:79-94 | a new report is pending, bound to the logged-in author, carries the form's content, has no images field when none were chosen and exactly the chosen list otherwise, and has no assignment, notes, comments, votes or resolution |
| ReportForm.EditedSpec | src/components/ReportForm.tsx:68-71 | an edit replaces content fields, isPublic and updatedAt and keeps id, status, author, creation time, assignment, resolution, notes, comments and votes |
| ReportForm.SaveUnchangedMakesPublic | src/components/ReportForm.tsx:41-52 | opening a report for editing and saving it unchanged makes it public and gives it an images list; only updatedAt changes besides |
| ReportForm.Form.constructor | src/components/ReportForm.tsx:29-37 | the form starts empty, category infrastructure, public, not loading |
| ReportForm.Form.LoadReportToEdit | src/components/ReportForm.tsx:41-52 | in edit mode the fields are loaded from the report and the public flag is true; otherwise nothing changes |
| ReportForm.Form.SelectLocation | src/components/ReportForm.tsx:54-58 | the picker sets the coordinates and the address |
| ReportForm.Form.HandleSubmit | src/components/ReportForm.tsx:60-113 | edit mode rewrites the records with the edited id from the form and nothing else, with no status check; create mode appends one pending report by the user at the end; without a user the create path fails and the store is unchanged; loading ends false |
| CitizenDashboard.OwnReportsSpec | src/components/CitizenDashboard.tsx:36-40 | the list is the order-preserving subsequence of exactly the reports authored by the logged-in user, empty when nobody is logged in |
| CitizenDashboard.EditableReports | src/components/CitizenDashboard.tsx:217 | the cards with an Edit button are the order-preserving subsequence of exactly the pending reports |
| CitizenDashboard.EditableAreOwnPending | src/components/CitizenDashboard.tsx:217 | on the dashboard, the reports offered for editing are exactly the logged-in user's own pending reports |
| CitizenDashboard.BadgesDistinguishStatuses | src/components/CitizenDashboard.tsx:55-79 | the icon and colour mappings are total and tell the four statuses apart |
| CitizenDashboard.PreviewOf | src/components/CitizenDashboard.tsx:238-265 | no strip without images; otherwise the first three images (all, if fewer) and a "+k" tile exactly when more than three, k the number not shown |
| CitizenDashboard.Dashboard.LoadReports | src/components/CitizenDashboard.tsx:36-40 | the view holds the user's own reports |
| CitizenDashboard.Dashboard.HandleEdit | src/components/CitizenDashboard.tsx:42-45 | the chosen report is put in the form and the form is shown, with no status check in the handler |
| CitizenDashboard.Dashboard.CloseForm | src/components/CitizenDashboard.tsx:96-100 | the form is hidden, the edited report cleared and the view reloaded |
| CitizenDashboard.Dashboard.ToggleComments | src/components/CitizenDashboard.tsx:47-53 | the report id is removed when present and appended when absent |
| CitizenDashboard.Dashboard.Counters | src/components/CitizenDashboard.tsx:119-149 | the total is the number of own reports, each status card counts the own reports with that status, and the three sum to at most the total |
| Leaderboard.PointsBounds | src/components/Leaderboard.tsx:33-38 | points lie between the number of authored reports and eleven times it, and are 0 for a user who authored nothing |
| Leaderboard.PointsExample | src/components/Leaderboard.tsx:36 | three authored reports of which two resolved give 23 points |
| Leaderboard.PointsTable | src/components/Leaderboard.tsx:33-38 | every stored user, of any role, gets one entry with their points, in store order |
| Leaderboard.ComputeLeaderboard | src/components/Leaderboard.tsx:29-51 | the map, in-place sort and ranking compute the leaderboard function |
| Leaderboard.SortedPointsSpec | src/components/Leaderboard.tsx:33-40 | the sorted table is a permutation of the per-user table, every entry with its user's own points, ordered from high to low with ties in store order |
| Leaderboard.RankingSpec | src/components/Leaderboard.tsx:42-48 | one row per user; rank is position plus one; each row has its user's name and own points; points never increase down the table; isCurrentUser marks exactly the logged-in user's rows |
| Leaderboard.FirstCurrent | src/components/Leaderboard.tsx:53 | `find` gives nothing exactly when no row is the current user's, and otherwise the first such row |
| Leaderboard.Displayed | src/components/Leaderboard.tsx:73-88 | the table shows the first five rows, plus the current user's first row exactly when it exists and is not among them |
| Leaderboard.CurrentUserShown | src/components/Leaderboard.tsx:73-88 | a stored logged-in user always sees a row of theirs, and a pinned sixth row carries its true rank, beyond 5 |
| AuthorityLeaderboard.CountedReports | src/components/AuthorityLeaderboard.tsx:35 | the counted reports are exactly the stored reports assigned to the authority, resolved and stamped with a resolution time |
| AuthorityLeaderboard.TotalNonNegative | src/components/AuthorityLeaderboard.tsx:37-41 | with no report resolved before its creation, the summed resolution time is not negative |
| AuthorityLeaderboard.AverageHours | src/components/AuthorityLeaderboard.tsx:43-44 | with no reports the average is 0; otherwise the average in hours times 3,600,000 times the count is the total; a non-negative total gives a non-negative average |
| AuthorityLeaderboard.StatSpec | src/components/AuthorityLeaderboard.tsx:34-55 | the count is the number of counted reports; the average is that of their total resolution time; the score is ten per report less the average; nothing counted gives average and score 0 |
| AuthorityLeaderboard.ScoreAtMostTenPerReport | src/components/AuthorityLeaderboard.tsx:43-47 | with no report resolved before its creation, the average is not negative and the score is at most ten per counted report |
| AuthorityLeaderboard.ScoreExample | src/components/AuthorityLeaderboard.tsx:43-47 | two reports resolved in 10 and 30 hours average 20 hours and score 0 |
| AuthorityLeaderboard.StatsTable | src/components/AuthorityLeaderboard.tsx:32-55 | one entry per stored authority, in store order, with its statistics |
| AuthorityLeaderboard.Round | src/components/AuthorityLeaderboard.tsx:62 | `Math.round` gives the nearest integer, halves rounded up |
| AuthorityLeaderboard.RoundMonotonic | src/components/AuthorityLeaderboard.tsx:62 | rounding never reverses the order of two scores |
| AuthorityLeaderboard.ComputeAuthorityLeaderboard | src/components/AuthorityLeaderboard.tsx:28-69 | the map, in-place sort and ranking compute the leaderboard function |
| AuthorityLeaderboard.SortedStatsOrder | src/components/AuthorityLeaderboard.tsx:57 | the sorted statistics are a permutation of the per-authority ones, one per authority, from the highest unrounded score down, ties in store order |
| AuthorityLeaderboard.SortedStatsMembers | src/components/AuthorityLeaderboard.tsx:32-55 | every sorted entry is a stored user with role authority, carrying that authority's own statistics |
| AuthorityLeaderboard.RankedSpec | src/components/AuthorityLeaderboard.tsx:59-66 | from score-ordered statistics, ranks are positions plus one, rows carry name, rounded score, count and average hours, and rounded scores never increase |
| AuthorityLeaderboard.RankingSpec | src/components/AuthorityLeaderboard.tsx:32-66 | one row per stored authority, each an authority; rank is position plus one; the row's rounded score, count and average hours are that authority's; shown scores never increase down the table |
| ReportsMap.MappableSpec | src/components/ReportsMap.tsx:35-39 | kept reports form an order-preserving subsequence of exactly the reports with non-zero latitude and longitude inside [6.5, 35.5] × [68.1, 97.4] |
| ReportsMap.Centre | src/components/ReportsMap.tsx:42-44 | the centre is the first kept report's position, or (20.5937, 78.9629) when none is kept, and lies in the box either way |
| ReportsMap.MarkerFor | src/components/ReportsMap.tsx:89-92 | a marker sits at its report's coordinates, inside the box, and carries its id and status |
| ReportsMap.MapView.RunEffect | src/components/ReportsMap.tsx:31-115 | nothing happens without a container; the map is created and centred only on the first run; the marker list is cleared and then holds one marker per kept report, in order; bounds are fitted exactly when something is kept |
| ReportsMap.MapView.Cleanup | src/components/ReportsMap.tsx:117-120 | the effect's cleanup empties the marker list and keeps the map |
| ReportsMap.MapView.Unmount | src/components/ReportsMap.tsx:123-130 | unmounting drops the map, so the next run creates it again |
| ReportsMap.MarkersInIndia | src/components/ReportsMap.tsx:89-107 | every placed marker lies in the box and stands for a stored report with the same id and status |
| Sorting.SortedDescSpec | src/components/Leaderboard.tsx:40 | the functional stable sort is a permutation, ordered from high to low key, and keeps the input order among equal keys |
| Sorting.SortDescending | src/components/Leaderboard.tsx:40 | the in-place sort leaves the array equal to the functional stable sort of its old contents |
| Text.TrimEmptyIffBlank | src/components/CommentsSection.tsx:20 | a text trims to empty exactly when every character is JavaScript white space |
| Text.Contains | src/components/AuthorityDashboard.tsx:86-88 | `includes` holds exactly when the query occurs at some position of the text |
| Text.Lower | src/components/AuthorityDashboard.tsx:86-88 | lower-casing keeps the length and maps each character on its own |

## Left out

- Local storage and JSON: the stored lists are in-memory sequences. Unparsable stored text, which makes `JSON.parse` throw, and quota errors from `setItem` are not modelled.
- Clock and ids: `new Date()` and `Math.random()` ids are parameters. A handler that reads the clock twice gets one `now`.
- Dates: ISO date strings are integer milliseconds. String date parsing and invalid dates (NaN) are not modelled.
- Numbers: JavaScript numbers are doubles; the model uses exact `int` and `real`. Rounding error in the averages and comparator overflow are not modelled.
- AuthorityLeaderboard.TotalResolutionMs: sums right to left, where `reduce` sums left to right; the results agree because the arithmetic is exact.
- AuthorityLeaderboard.Counted: a present but empty `resolvedAt` string is falsy in JavaScript and not counted; the model treats any present stamp as counted.
- AuthorityLeaderboard.StatSpec: the average is kept as a number; the `toFixed(2) + ' hours'` display string is not modelled.
- Text.Lower: lower-cases ASCII letters only; full Unicode case mapping is not modelled.
- Stored values are never validated: the client casts parsed JSON to its types without checking, so a stored role, status or category outside the union types is not rejected by the code. The `Parse*` functions only state which spellings the union types allow.
- Leaderboard refresh: both leaderboards are computed when they mount, and the citizen one again when the logged-in user changes. While mounted they are not recomputed when reports change; the model's `Ranking` functions describe the value at the time of computation only.
- Avatars: the constant placeholder avatar of the leaderboard rows is not modelled.
- ReportsMap: Leaflet map creation, tile layer, max bounds, zoom, icons, popups and click callbacks are not modelled. A NaN coordinate, which is falsy in JavaScript, has no counterpart in the model.
- Location picking: src/components/LocationPicker.tsx is not part of this model. It does geolocation and reverse geocoding over the network; its India bounds check is the predicate `ReportsMap.InIndia`.
- Image upload: the component that enforces the five-image limit is not part of this model, so no bound on the number of images is claimed.
- React, toasts and JSX: render scheduling, toasts, dialogs, list/grid view mode and the `onSuccess` and `onCommentAdded` callbacks are left out. `CloseForm` stands for the dashboard's handling of `onSuccess`.
- CommunityPage.Page.HandleVote: `push` mutates the voter list shared with the report that was read; that report is replaced anyway, so the model computes on values.
- UI-only files: the landing page, navigation bars, the sign-in form (its login and signup live in an authentication context that is not part of this model) and the translation tables are not modelled.
- `Activity` type: declared but used by no core operation.
- Absent rules: role checks, ownership checks, terminal states, assignment claims and set-once `resolvedAt` are not in the code and are not added.
