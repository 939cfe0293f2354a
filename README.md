# Eurovision scoreboard — a Dafny model of its ranking core

The Eurovision scoreboard lets signed-in users rank the songs of a contest group (a final, a
semi-final, ...) by dragging them into order, and turns everybody's rankings into a points
table: the first ten places of each ranking are worth 12, 10, 8, 7, 6, 5, 4, 3, 2 and 1
points, and each country collects the points of its songs. Administrators add years,
countries (one at a time or from a CSV text), songs and the songs of each group.

This project models that core:
- the scoring curve (`Scoring`);
- the server procedures that compute the points table and set a group's songs
  (`GroupRouter`);
- the query that returns a user's ranking of a group together with the songs still unranked
  (`RankingQuery`), and its older copy `getForRankedYearGroup`;
- saving a ranking and the input rules for adding a song (`SongsRouter`);
- the ranking page's choice of list and its drag-and-drop reordering (`RankingView`);
- the country and year procedures (`CountryRouter`, `YearRouter`);
- the client-side form checks: the profile name, the year form, the song dialog and the
  country form (`UpdateNameButton`, `AdminYearPage`, `AddSongDialog`, `AdminCountriesPage`);
- the navigation bar's active-link rule (`NavigationBar`);
- the profile avatar (`ProfileAvatar`).

Helper modules:
- `Results`: option and result values, and the errors the procedures raise.
- `Seqs`: filtering, a stable sort, taking a prefix, subsequences.
- `Strings`: JavaScript's `trim`, `split(" ")`, `startsWith` and upper-casing.
- `Schema`: the stored records as values, and the store's `findFirst` lookups.

How the store is modelled:
- Each table is a sequence of rows, in the order the store returns them.
- Procedures that write are methods of a class holding the tables they write.
- A `$transaction` is a batch that applies in full or not at all.
- Ids the store generates are passed in as parameters.

Two behaviours of the code worth knowing:
- `saveRanking` does not upsert. On the update path, an item whose song has no row in the
  existing ranking makes the whole batch fail. The model gives this failure as
  `RecordNotFound`; Prisma would reject `where: { id: undefined }` with a validation error,
  and in both cases nothing is written.
- `rankToPoints` does not treat rank 0 as a first place worth 12. Rank 0 is worth 14, and
  lower ranks are worth more still.

## Model

| member | source | states |
|---|---|---|
| Scoring.RankToPoints | src/utils/rankToPoints.ts:1-7 | points are never negative; they are 0 exactly for ranks past 10, and between 1 and 12 exactly for ranks 1 to 10 |
| Scoring.EurovisionScale | src/utils/rankToPoints.ts:2-6 | ranks 1 to 10 give exactly 12, 10, 8, 7, 6, 5, 4, 3, 2, 1 |
| Scoring.StrictlyDecreasing | src/utils/rankToPoints.ts:2-6 | among ranks 1 to 10, a better place is worth strictly more |
| Scoring.BelowFirstPlace | src/utils/rankToPoints.ts:2-3 | unguarded ranks 0 and below are worth 14 - 2·rank, i.e. at least 14 |
| Scoring.TopTenTotal | src/utils/rankToPoints.ts:1-7 | one complete top ten hands out 58 points |
| GroupRouter.GroupRankings | src/server/api/routers/groupRouter.ts:70-84 | `group.rankings` holds exactly the stored rankings of the group |
| GroupRouter.Counted | src/server/api/routers/groupRouter.ts:76-80 | the rows of one ranking that are counted; what they are is stated by CountedIsTopTen |
| GroupRouter.CountedIsTopTen | src/server/api/routers/groupRouter.ts:77-80 | the counted rows are min(10, n) rows of the ranking, in rank order; none of its uncounted rows has a better rank than a counted one |
| GroupRouter.GetFinds | src/server/api/routers/groupRouter.ts:100-103 | `Map.get` finds a key's value exactly when the key has an entry |
| GroupRouter.SetStores | src/server/api/routers/groupRouter.ts:105-108 | `Map.set` makes the key hold the new value and adds the key if it was missing |
| GroupRouter.SetLeavesOthers | src/server/api/routers/groupRouter.ts:105-108 | `Map.set` leaves every other key's value alone |
| GroupRouter.AddVote | src/server/api/routers/groupRouter.ts:96-108 | one counted row added to the country map; its effect on each country is stated by AddVoteLookup |
| GroupRouter.AddVoteLookup | src/server/api/routers/groupRouter.ts:96-108 | a row worth points adds them to its country's entry, a row worth nothing changes nothing, and every other country keeps its value |
| GroupRouter.Tally | src/server/api/routers/groupRouter.ts:95-110 | the country map after all counted rows; what it holds is stated by TallyShape and TallyCountry |
| GroupRouter.TallyShape | src/server/api/routers/groupRouter.ts:93-110 | the country map never holds a key twice, and every value it holds is positive |
| GroupRouter.TallyCountry | src/server/api/routers/groupRouter.ts:95-110 | a country's entry holds the sum of the points of the counted rows whose song is from that country; it has an entry exactly when that sum is positive |
| GroupRouter.TallyRankings | src/server/api/routers/groupRouter.ts:93-110 | the nested loops produce the tally of all counted rows, skipping rows worth 0; keys are distinct and values positive |
| GroupRouter.FirstSongOf | src/server/api/routers/groupRouter.ts:115 | the attached song is the group's first song from the country, or nothing when the group has none |
| GroupRouter.ToRows | src/server/api/routers/groupRouter.ts:112-117 | one row per map entry, in the map's order, with the entry's country and points and the group's first song from that country |
| GroupRouter.ToRowsSum | src/server/api/routers/groupRouter.ts:112-117 | mapping the entries to rows keeps the total of the points |
| GroupRouter.SortKeepsRows | src/server/api/routers/groupRouter.ts:119 | sorting by points keeps the rows (same multiset), their total and their distinct countries |
| GroupRouter.TallyGivesPointsTable | src/server/api/routers/groupRouter.ts:92-119 | mapping and sorting the tally gives the points table: one row per country owed points, each with exactly its points and first song, most points first, the total conserved |
| GroupRouter.TotalPoints | src/server/api/routers/groupRouter.ts:67-120 | NOT_FOUND exactly when no group has this year and id, and success exactly when one has; a success is the points table of the counted rows of the group's rankings |
| GroupRouter.GroupTable.SetSongs | src/server/api/routers/groupRouter.ts:54-65 | the group's songs become exactly the stored songs with the given ids, and nothing else about the group or other groups changes; a missing group or unknown song id changes nothing |
| GroupRouter.IndexOfGroup | src/server/api/routers/groupRouter.ts:57-58 | the update addresses the first group with this id, or fails when there is none |
| GroupRouter.MissingSong | src/server/api/routers/groupRouter.ts:59-62 | finds an id that names no stored song when there is one; nothing means every id names a stored song |
| Schema.FindGroup | src/utils/ranking/getUserRanking.ts:23-30 | the group found has this year and this id; nothing is found exactly when no group has both |
| Schema.OrderedByRank | src/utils/ranking/getUserRanking.ts:38-50 | a ranking's rows come back in non-decreasing rank order, the same rows as stored |
| Schema.FindRanking | src/utils/ranking/getUserRanking.ts:36-52 | `findFirst` returns the first ranking the filter accepts, with its rows in rank order; nothing exactly when the filter accepts none |
| Schema.FindRow | src/utils/ranking/getUserRanking.ts:55 | `find` returns the first row the predicate accepts; nothing exactly when it accepts none |
| RankingQuery.FindUserRanking | src/utils/ranking/getUserRanking.ts:36-52 | the ranking returned belongs to this user and this group; nothing exactly when the user has no ranking of the group |
| RankingQuery.GetUserRanking | src/utils/ranking/getUserRanking.ts:16-66 | GROUP_404 exactly when no group matches year and id; otherwise the group's own id, name, type and year, the user's ranking of exactly this group (FindUserRanking), and as unranked songs exactly the group's songs that ranking does not place (Unranked) |
| RankingQuery.Unranked | src/utils/ranking/getUserRanking.ts:54-56 | the unranked filter; what it keeps is stated by UnrankedIff, UnrankedIsSubsequence and NoRankingAllUnranked |
| RankingQuery.UnrankedIff | src/utils/ranking/getUserRanking.ts:54-56 | a song is unranked exactly when it is one of the group's songs and no row of the user's ranking places it |
| RankingQuery.UnrankedIsSubsequence | src/utils/ranking/getUserRanking.ts:54 | the unranked songs are the group's songs with some left out, in the group's order |
| RankingQuery.NoRankingAllUnranked | src/utils/ranking/getUserRanking.ts:55 | without a ranking every song of the group is unranked |
| RankingQuery.RankedAndUnrankedSplitItems | src/utils/ranking/getUserRanking.ts:54-56 | no song is both placed by the ranking and unranked, and every song of the group is one or the other |
| SongsRouter.GetForRankedYearGroup | src/server/api/routers/songsRouter.ts:22-72 | NOT_FOUND exactly when no group matches year and id; the ranking returned is the user's first ranking in any group, missing exactly when the user has none at all, and the unranked songs are the group's songs that the row-id filter (UnrankedByRowId) keeps |
| SongsRouter.UnrankedByRowId | src/server/api/routers/songsRouter.ts:60-62 | the unranked filter as written; what it keeps is stated by UnrankedByRowIdIff |
| SongsRouter.UnrankedByRowIdIff | src/server/api/routers/songsRouter.ts:60-62 | as written, a song is unranked exactly when no row of the ranking has the song's id as its own row id |
| SongsRouter.RankedSongListedAsUnranked | src/server/api/routers/songsRouter.ts:60-62 | a song the user has ranked is returned as unranked, while the filter of `getUserRanking` leaves it out |
| SongsRouter.OtherGroupsRankingReturned | src/server/api/routers/songsRouter.ts:42-43 | asking for the final returns the user's semi-final ranking, while `getUserRanking` returns the final's |
| SongsRouter.RowOfSong | src/server/api/routers/songsRouter.ts:109-111 | the row an item updates is the first row of its song; none exactly when the ranking has no row of the song |
| SongsRouter.Rerank | src/server/api/routers/songsRouter.ts:105-120 | the update batch keeps every row's id and song in place |
| SongsRouter.RerankRank | src/server/api/routers/songsRouter.ts:105-120 | after the batch, the first row of each named song holds the rank of the last item naming it; every other row keeps its rank |
| SongsRouter.RerankIdempotent | src/server/api/routers/songsRouter.ts:105-120 | on a ranking that already exists, applying the same items twice stores the same ranks as applying them once |
| SongsRouter.CreateThenResend | src/server/api/routers/songsRouter.ts:105-133 | a ranking created from items without a repeated song keeps its ranks when the same items are sent again |
| SongsRouter.DuplicateSongResendChangesRanks | src/server/api/routers/songsRouter.ts:109-131 | items naming one song twice create rows ranked 1 and 2, and sending them again gives both rows rank 2, so saving is not idempotent for such items |
| SongsRouter.UpdateNeverInserts | src/server/api/routers/songsRouter.ts:105-120 | the update path never gives a ranking a row for a song it had no row for |
| SongsRouter.NewSongRefused | src/server/api/routers/songsRouter.ts:109-117 | resubmitting a ranking with a song it has no row for cannot update it |
| SongsRouter.CreatedRows | src/server/api/routers/songsRouter.ts:127-131 | one new row per item, in item order, with the item's song and rank; a song id naming no song makes the store refuse all rows |
| SongsRouter.FirstRankingOf | src/server/api/routers/songsRouter.ts:87-105 | the existing ranking is the first one of this user for this group; none exactly when there is none |
| SongsRouter.UpdateBatch | src/server/api/routers/songsRouter.ts:105-120 | the batch succeeds exactly when every item finds a row of its song; the rows become the reranked rows, and the result has one written row per item with the item's song and rank |
| SongsRouter.RankingTable.SaveRanking | src/server/api/routers/songsRouter.ts:74-135 | each error exactly on its path: invalid input exactly for a rank below 1; NOT_FOUND exactly for a missing group (looked up by id alone); RecordNotFound exactly when an existing ranking lacks a row for some item; a foreign-key failure exactly when there is no ranking and some item names no song. An existing ranking is updated as one all-or-nothing batch; otherwise exactly one new ranking with one row per item is added; a failure changes nothing |
| SongsRouter.Check | src/server/api/routers/songsRouter.ts:139-146 | one field's rule reports that field exactly when the rule rejects the input, and nothing else |
| SongsRouter.AddToYearItemIssues | src/server/api/routers/songsRouter.ts:139-146 | the fields the input schema rejects, in field order; their meaning is stated by AddToYearItemReports and AddToYearItemAccepts |
| SongsRouter.IssueMessages | src/server/api/routers/songsRouter.ts:140-145 | the error carries one message per reported field, in the same order, each the schema's text for that field |
| SongsRouter.MessageNamesField | src/server/api/routers/songsRouter.ts:140-145 | no two fields share a message, so each message identifies its field |
| SongsRouter.AddToYearItemReports | src/server/api/routers/songsRouter.ts:139-146 | every field is checked: a field is reported exactly when its rule rejects the input |
| SongsRouter.AddToYearItemAccepts | src/server/api/routers/songsRouter.ts:139-146 | the input is accepted exactly when the year is at least 1950, the group id, country, title and artist are non-empty and the link is a URL |
| RankingView.DisplayedSongs | src/components/Ranking/RankingView.tsx:34-42 | the local order wins when there is one; else the ranking's songs in row order (the query returns them in rank order) if it has rows; else the unranked songs; nothing only before any data |
| RankingView.SongsOf | src/components/Ranking/RankingView.tsx:37-38 | the songs of the rows, one per row, in row order |
| RankingView.SpliceStart | src/components/Ranking/RankingView.tsx:50-52 | `splice`'s start: negative counts from the end and stops at 0, past the end means the end |
| RankingView.RemoveAt | src/components/Ranking/RankingView.tsx:50 | removing at k drops exactly the element at k and shifts the rest down |
| RankingView.InsertAt | src/components/Ranking/RankingView.tsx:52 | inserting at k puts the element at k and shifts the rest up |
| RankingView.Moved | src/components/Ranking/RankingView.tsx:49-52 | the list after the drop; what it holds is stated by MovedIsPermutation and MovedPlacesElement |
| RankingView.MovedIsPermutation | src/components/Ranking/RankingView.tsx:49-52 | a move keeps the length and every element as often as before |
| RankingView.MovedPlacesElement | src/components/Ranking/RankingView.tsx:50-52 | the moved song lands at the destination, and the others keep their relative order |
| RankingView.RankedItems | src/components/Ranking/RankingView.tsx:59 | item i carries the i-th song's id and rank i + 1 |
| RankingView.RankedItemsAreContiguous | src/components/Ranking/RankingView.tsx:56-60 | the ranks sent are 1 to n, strictly increasing, and all pass the server's rank check; the ids sent are the listed songs' ids in list order, so a list without repeated songs sends no song id twice |
| RankingView.RankingPage.OnDragEnd | src/components/Ranking/RankingView.tsx:44-61 | a drop without destination, on its own place, without data or from past the end changes nothing and sends nothing; otherwise the list is the moved list and, for a non-empty group id, it is sent with ranks 1 to n |
| CountryRouter.CsvDefaults | src/server/api/routers/countryRouter.ts:34-36 | absent options mean a comma delimiter and the columns "id" and "fullname" |
| CountryRouter.MapRows | src/server/api/routers/countryRouter.ts:51-55 | each record becomes the values of its two chosen columns, a missing column giving nothing |
| CountryRouter.Complete | src/server/api/routers/countryRouter.ts:56 | a mapped row has both values, each non-blank after trimming |
| CountryRouter.Kept | src/server/api/routers/countryRouter.ts:56 | the complete rows; which ones and in what order is stated by KeptIff and KeptKeepsOrder |
| CountryRouter.KeptIff | src/server/api/routers/countryRouter.ts:56 | a mapped row is kept exactly when both values are present and non-blank after trimming; kept values are not trimmed |
| CountryRouter.KeptKeepsOrder | src/server/api/routers/countryRouter.ts:51-56 | the kept rows are the mapped rows with some left out, in input order |
| CountryRouter.Verified | src/server/api/routers/countryRouter.ts:47-58 | the schema refuses the list exactly when some row lacks a value; otherwise one country per row with its id and name |
| CountryRouter.KeptRowsVerify | src/server/api/routers/countryRouter.ts:56-58 | the kept rows always pass the schema, and every country has a non-blank id and name |
| CountryRouter.CountryTable.Create | src/server/api/routers/countryRouter.ts:22-28 | a full name shorter than 3 is refused; a taken id is refused; otherwise exactly the country with the abbreviation as id is added |
| CountryRouter.CountryTable.CreateFromCsv | src/server/api/routers/countryRouter.ts:30-66 | an empty delimiter is refused; otherwise the kept rows are added all at once, or nothing is added when an id clashes, and the kept rows are returned |
| YearRouter.YearTable.Create | src/server/api/routers/yearRouter.ts:27-46 | years before 1950 are refused; an existing year gives CONFLICT "That year already exists." and changes nothing; a new year is added, and only it; a table of distinct years from 1950 on stays so |
| YearRouter.YearTable.CreateTwice | src/server/api/routers/yearRouter.ts:30-45 | the second create of the same year always fails, so `create` is not idempotent |
| UpdateNameButton.ButtonLabel | src/components/User/UpdateNameButton.tsx:28-30 | a session name that is present and non-empty gives the update text (default "Update name"), otherwise the create text (default "Set name") |
| UpdateNameButton.NameError | src/components/User/UpdateNameButton.tsx:64-72 | each message exactly when its condition on the trimmed name holds: empty, 1 or 2 characters, 32 or more; accepted exactly for 3 to 31 characters |
| UpdateNameButton.NameErrorIgnoresPadding | src/components/User/UpdateNameButton.tsx:65 | whitespace around the name never changes the verdict |
| UpdateNameButton.NameLengthBounds | src/components/User/UpdateNameButton.tsx:67-71 | 2 and 32 visible characters are refused, 3 and 31 pass |
| AdminYearPage.YearError | src/pages/admin/year/index.tsx:85-86 | accepted exactly for a year of at least 1950; "Can't be empty." exactly for an empty or 0 year; "Minimum of 1950" exactly for any other year below 1950 |
| AdminYearPage.SubmitYear | src/pages/admin/year/index.tsx:100-107 | the year sent by a submit, if any; what it sends is stated by SubmitYearSendsValid |
| AdminYearPage.SubmitYearSendsValid | src/pages/admin/year/index.tsx:100-107 | a create request is sent exactly when the year passes the check, and then it carries that year; an empty or 0 year sends nothing |
| AddSongDialog.BaseValidation | src/components/Songs/AddSongDialog.tsx:35-36 | a value is refused with "This can't be empty." exactly when it is empty or whitespace only |
| AddSongDialog.OnSubmit | src/components/Songs/AddSongDialog.tsx:46-54 | a request is sent exactly when all four fields pass, and it carries the year and group id with the form values |
| AddSongDialog.InitialValuesRefused | src/components/Songs/AddSongDialog.tsx:28-33 | the empty initial form sends nothing |
| AddSongDialog.SentRequestHasTexts | src/components/Songs/AddSongDialog.tsx:74-82 | a request the dialog sends never fails the server's country, title or artist rule |
| AdminCountriesPage.AbbreviationError | src/pages/admin/countries.tsx:28 | the abbreviation is refused with "Can't be empty" exactly when it is blank after trimming |
| AdminCountriesPage.FullnameError | src/pages/admin/countries.tsx:29 | the full name is refused with "Can't be empty" exactly when it is blank after trimming |
| AdminCountriesPage.OnSubmit | src/pages/admin/countries.tsx:33-35 | the form is sent exactly when both fields pass, each judged on its own, and unchanged |
| AdminCountriesPage.InitialValuesRefused | src/pages/admin/countries.tsx:13 | the empty initial form fails both checks and sends nothing |
| AdminCountriesPage.ShortNameSent | src/pages/admin/countries.tsx:27-35 | a two-letter full name passes the form yet is shorter than the server's minimum of 3 |
| NavigationBar.IsCurrentLink | src/components/Navigation/NavigationBar.tsx:163-167 | the active-link rule; what it means is stated by HomeOnlyOnHome, ExtensionActive, ActiveOnlyOnExtensions and NotSegmentAware |
| NavigationBar.HomeOnlyOnHome | src/components/Navigation/NavigationBar.tsx:164 | the root link is current exactly on the path "/" |
| NavigationBar.ExtensionActive | src/components/Navigation/NavigationBar.tsx:165 | any other link is current on its own path and on every path extending it |
| NavigationBar.ActiveOnlyOnExtensions | src/components/Navigation/NavigationBar.tsx:163-167 | a link is current only on a path that starts with it |
| NavigationBar.NotSegmentAware | src/components/Navigation/NavigationBar.tsx:165 | "/year" is current on "/yearly", and an empty link on every path |
| ProfileAvatar.Initials | src/components/ProfileAvatar.tsx:7-10 | no name gives no initials, any name gives some |
| ProfileAvatar.InitialsAreWordStarts | src/components/ProfileAvatar.tsx:8-10 | the initials are the upper-cased first characters of the space-separated words, empty words giving nothing |
| ProfileAvatar.InitialsEmptyIffSpaces | src/components/ProfileAvatar.tsx:8-10 | the initials are empty exactly when the name is spaces only |
| ProfileAvatar.TwoWordName | src/components/ProfileAvatar.tsx:7-10 | the name "jo li" has the initials "JL" |
| ProfileAvatar.AvatarChoice | src/components/ProfileAvatar.tsx:12-24 | the picture exactly when the image is a non-empty text, with the name (or "A user") in its alt text; else the initials when non-empty; else the blank avatar exactly when there is no session or name, or the name is spaces only |
| Strings.Trim | src/components/User/UpdateNameButton.tsx:65 | the trimmed text is no longer than the text and neither starts nor ends with whitespace; TrimIsSlice states what it keeps |
| Strings.TrimIsSlice | src/components/User/UpdateNameButton.tsx:65 | the trimmed text is a slice of the text, with only whitespace cut off at either end |
| Strings.TrimEmptyIffAllWhitespace | src/components/User/UpdateNameButton.tsx:65 | `trim` gives the empty text exactly when the text is whitespace only |
| Strings.TrimIgnoresPadding | src/components/User/UpdateNameButton.tsx:65 | `trim` ignores whitespace added at either end |
| Strings.Split | src/components/ProfileAvatar.tsx:8 | splitting always gives at least one piece; SplitJoin states what the pieces are |
| Strings.SplitJoin | src/components/ProfileAvatar.tsx:8 | `split(" ")` cuts the text into pieces without spaces that join back into it |

## Left out

- JavaScript numbers are modelled as unbounded integers. Ranks, years and points never come
  near the limits of exact integers.
- String lengths are counted in characters, not in UTF-16 code units. For a name with
  characters outside the Basic Multilingual Plane, the 3-to-32 bounds can differ.
- Upper-casing is modelled for ASCII letters only. `split("")[0]` on a character outside the
  Basic Multilingual Plane would yield half a surrogate pair, which is not modelled.
- The CSV parser is the `csv-string` library. It is a parameter of `CreateFromCsv`.
- Whether a link is a URL is decided by the validator library. It is a boolean field of the
  input.
- The artificial delay in `createFromCSV` is left out.
- Concurrency is left out: transaction isolation, and two `saveRanking` calls for the same
  user racing each other.
- The admin year form's initial value (the current year from the clock) is left out.
- The NumberInput's empty value is modelled as `None`.
- Rendering, notifications, form reset, cache invalidation and authentication are left out.
- `addToYearItem`: only its input rules are modelled. The song it creates and links to the
  group is plain store writing, and is not part of this model.
- SongsRouter.AddToYearItemIssues: the issues come in field order, one per failing field,
  with their messages given by `IssueMessages`. The zod error object's shape (paths, codes) is
  not modelled.
- Whether the store enforces a unique song per ranking is not known. The update path
  therefore addresses the first row of the song.
- GroupRouter.TotalPoints: a result row carries the country's id, not the joined country
  record that the source keeps with the points (`country: ranked.song.country`); the record is
  the stored country with that id, so it adds no information the model needs.
- GroupRouter.TotalPoints: ties in points keep the tally's order, which is a stable sort of
  the map's insertion order. The store's order of equal ranks inside a ranking is taken to be
  its stored order.
- The pass-through queries are left out (`getAll` and the plain `findMany` / `findFirst`
  getters), and so are the other routers.

## Findings

| source | as written | input that shows it | evidently intended | confidence | as-written member | corrected member |
|---|---|---|---|---|---|---|
| src/server/api/routers/songsRouter.ts:60-62 | a group song counts as ranked when some ranking row's own id equals the song's id | group "final" with song A; the user's ranking of it has one row, with id "row-a", for song A | compare with the row's song id, as `getUserRanking` does, so song A is not listed as unranked | not executed | SongsRouter.RankedSongListedAsUnranked | RankingQuery.Unranked, RankingQuery.UnrankedIff |
| src/server/api/routers/songsRouter.ts:42-43 | the user's ranking is looked up by user id only | the user ranked the semi-final first, then the final; ask for the final | look up the ranking by user and group, so the final's ranking is returned | not executed | SongsRouter.OtherGroupsRankingReturned | RankingQuery.FindUserRanking |
