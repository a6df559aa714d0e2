# open-source-content: entry pipeline and pagination, in Dafny

This project models the core of a small Go service. The service reads a
Notion workspace and serves its content entries (title, URL and creation
time), page by page. The model covers three parts:

- **Entry post-processing** (`utils/utils.go`):
  - the newest-first exchange sort;
  - the split of entries into video links and web links;
  - the parsing of the `pageSize` and `cursor` query values;
  - the slicing of the entry list into pages with a decimal `nextCursor`.
- **The handler's copies of the pagination helpers**
  (`internal/api/handlers/notion_handler.go`).
- **The fetch pipeline** (`services/notion/client.go`):
  - the cursor loop over the root page's children;
  - the child-database discovery;
  - the extraction of one entry per database row;
  - the merge of concurrent results;
  - `FetchAllEntries`, which chains the three steps.

Modules, one file each:

- `Models` (`models.dfy`): the records of `models/entry.go`. It also defines
  `Option` and `Result`. A timestamp is an integer, and `Before` is `<`.
- `Strconv` (`strconv.dfy`): Go's `strconv.Atoi` and `strconv.Itoa` on
  unbounded integers. `Atoi` takes an optional sign and one or more decimal
  digits.
- `Seqs` (`seqs.dfy`): `Concat` and `Map`, and the lemmas that both respect
  reordering.
- `Aggregator` (`aggregator.dfy`): the fan-in of goroutines that append
  their results under a mutex.
  - Completion order is a parameter `arrival`, a permutation of the task
    indices.
  - The merged list is the tasks' contributions laid end to end in that
    order.
- `EntrySort` (`entry_sort.dfy`): the nested-loop exchange sort, in place
  on an `array`, with loop invariants.
- `Classifier` (`classifier.dfy`): `strings.Contains` and the two URL
  filters.
- `Pagination` (`pagination.dfy`): `ParsePaginationParams`,
  `ApplyPagination` and `min` of `utils/utils.go`, over the two raw query
  strings.
  - `FollowCursors` is what a client reads by following `nextCursor`
    until `hasMore` is false.
  - It is proved to read every entry exactly once, in order.
- `NotionHandler` (`notion_handler.dfy`): the handler's copies of the
  three pagination helpers. They are defined by the `Pagination` versions
  and state the handler's own contracts.
- `NotionService` (`notion_service.dfy`): `client.go`. The remote store is
  an oracle:
  - the root listing is a sequence of responses consumed in order;
  - per-page listings and database queries are functions.

## Model

| member | source | states |
|---|---|---|
| EntrySort.Swap | utils/utils.go:16 | the array afterwards is the old one with positions i and j exchanged, the same multiset of entries |
| EntrySort.SwapIfNewer | utils/utils.go:15-17 | one inner step: afterwards entries[i] is at least as new as every entry scanned up to j, positions before i are untouched, the entries from i on are reordered only, entries[i] and entries[j] are exchanged when entries[i] was created before entries[j], and nothing changes otherwise |
| EntrySort.MoveNewestTo | utils/utils.go:14-18 | after the inner loop for i, every position up to i holds an entry at least as new as every later entry; positions before i are untouched and the entries from i on are a reordering of the old ones; the array is left alone when entries[i] was already the newest |
| EntrySort.SortEntriesByCreationTime | utils/utils.go:12-20 | afterwards creation times are non-increasing along the array, the array is a permutation of the old one, and an already newest-first array is left unchanged |
| Classifier.ContainsIffOccurs | utils/utils.go:27 | strings.Contains holds exactly when the needle occurs at some position of the string |
| Classifier.FilterYoutubeEntries | utils/utils.go:22-34 | every kept entry has a URL containing "youtube.com" or "youtu.be", and no more entries than the input |
| Classifier.FilterWebEntries | utils/utils.go:36-47 | every kept entry has a URL containing neither "youtube.com" nor "youtu.be", and no more entries than the input |
| Classifier.InFilterYoutube | utils/utils.go:25-30 | an entry is in the video result exactly when it is in the input and its URL is a video link |
| Classifier.InFilterWeb | utils/utils.go:39-44 | an entry is in the web result exactly when it is in the input and its URL is not a video link |
| Classifier.FiltersSelectByURL | utils/utils.go:22-47 | the two filters select exactly the video links and exactly the other links of the input |
| Classifier.FiltersInterleave | utils/utils.go:25-44 | the input is an interleaving of the two results, so each result keeps input order |
| Classifier.FiltersSplitMultiset | utils/utils.go:22-47 | every entry lands in exactly one result: the two multisets add up to the input's, and the lengths add up to its length |
| Classifier.NotContainedWithoutFirstChar | utils/utils.go:27 | a needle whose first character never occurs in the string is not contained in it |
| Classifier.ClassifyExamples | utils/utils.go:27 | a youtu.be link is a video link and a plain site is not |
| Strconv.NatToDecimal | utils/utils.go:97 | the cursor text of a natural number is one or more digits, with no leading zero, whose decimal value is that number |
| Strconv.Itoa | utils/utils.go:97 | the decimal text of any integer is non-empty |
| Strconv.AtoiItoa | utils/utils.go:97 | Atoi reads what Itoa writes back as the same integer |
| Pagination.Min | utils/utils.go:104-109 | the result is at most both arguments and equal to one of them |
| Pagination.ParsePaginationParams | utils/utils.go:50-76 | a non-empty positive-integer pageSize gives min(size, 100), anything else gives the default unchanged; the offset is the cursor's value when it is a non-negative integer and 0 otherwise; the cursor is kept verbatim |
| Pagination.ApplyPagination | utils/utils.go:79-101 | hasMore iff offset + pageSize < total; the page is entries[offset..min(offset + pageSize, total)] when offset < total and empty otherwise; the page is no longer than pageSize; nextCursor is non-empty iff hasMore, and is then the decimal of offset + pageSize |
| Pagination.PageSizeOfInteger | utils/utils.go:57-64 | a page size written as an integer is capped at 100 when larger, taken as is when positive, and replaced by the default otherwise |
| Pagination.CursorRoundTrip | utils/utils.go:68-73 | the decimal of a non-negative offset is parsed back as that offset |
| Pagination.NextPageFollowsOn | utils/utils.go:90-97 | when hasMore, the cursor handed out is parsed as offset + pageSize, which is offset plus the page's length: no gap and no overlap |
| Pagination.FollowCursorsFrom | utils/utils.go:79-101 | following nextCursor from any cursor with a fixed page size reads entries[offset..], each entry once and in order |
| Pagination.FollowingCursorsReadsEveryEntry | utils/utils.go:79-101 | starting without a cursor and following nextCursor reads the whole list exactly |
| Pagination.PagingExample | utils/utils.go:79-101 | five entries with pageSize "2" give pages [e1, e2], [e3, e4] with cursors "2", "4", then [e5] with no more pages |
| NotionHandler.ParsePaginationParams | internal/api/handlers/notion_handler.go:68-94 | the page size is the default or in [1, 100], and is min(size, 100) for a positive integer; offset is at least 0, the cursor's value when that is a non-negative integer and 0 otherwise; the cursor is kept |
| NotionHandler.ApplyPagination | internal/api/handlers/notion_handler.go:97-119 | hasMore iff offset + pageSize < total; the page is the slice [offset, min(offset + pageSize, total)) or empty past the end, and no longer than pageSize; nextCursor is Itoa(offset + pageSize) when hasMore and "" otherwise |
| NotionHandler.Min | internal/api/handlers/notion_handler.go:122-127 | the result is at most both arguments and equal to one of them |
| NotionHandler.ParsedParamsAreSliceable | internal/api/handlers/notion_handler.go:68-111 | with the default page size 20, the parsed page size lies in [1, 100], so the page slice can always be taken |
| NotionService.SortEntriesByCreationTime | services/notion/client.go:51-59 | creation times are non-increasing afterwards, the array is a permutation of the old one, and an already sorted array is untouched |
| NotionService.IdsOfType | services/notion/client.go:83-89 | an id is kept exactly when some listed block of the requested type has it, and no more ids than blocks |
| NotionService.IdsOfTypeAppend | services/notion/client.go:83-89 | filtering two listings laid end to end is filtering each and laying the results end to end |
| NotionService.StopIndex | services/notion/client.go:68-97 | the loop stops at the first response that fails or reports no more pages |
| NotionService.ChildPageIdsUpTo | services/notion/client.go:83-89 | an id is collected exactly when a child_page block with that id is in one of the first n listings |
| NotionService.GetAllChildPages | services/notion/client.go:62-101 | the first request has no start cursor and each later one carries the previous page's nextCursor; the loop issues requests up to the first stopping response; it fails exactly when that response failed, with its error and no partial list, and otherwise returns the child_page ids of all pages read, in page order |
| NotionService.DatabaseIdsOf | services/notion/client.go:114-128 | a failed listing contributes nothing; a successful one contributes its child_database ids |
| NotionService.GetAllDatabaseIDs | services/notion/client.go:104-143 | never fails; the ids are, up to order, the contributions of every child page |
| NotionService.ExtractEntry | services/notion/client.go:170-186 | the title is the first segment of a non-empty "Name" title and "" otherwise, the URL is the "Link" URL and "" otherwise, and the creation time is copied |
| NotionService.ExtractEntries | services/notion/client.go:168-192 | exactly one entry per row, the k-th built from the k-th row: nothing is filtered out |
| NotionService.EntriesOf | services/notion/client.go:161-192 | a failed query contributes nothing; a successful one contributes exactly the entries extracted from its rows, one per row |
| NotionService.GetAllDatabaseEntries | services/notion/client.go:146-207 | never fails; the entries are, up to order, the contributions of every database |
| NotionService.FetchAllEntries | services/notion/client.go:28-48 | fails exactly when the child-page step fails, with the child-page error behind the prefix "failed to get child pages: "; otherwise the entries are, up to order, those of the pipeline run in launch order |
| NotionService.OneOfThreeQueriesFails | services/notion/client.go:161-166 | when one of three database queries fails, the collection succeeds and holds exactly the other two databases' entries |
| Aggregator.ContributionsInLaunchOrder | services/notion/client.go:194-199 | the contributions of the first n tasks, taken in launch order, are the first n parts |
| Aggregator.MergeIsUnion | services/notion/client.go:130-135 | whatever the order in which the tasks reach the lock, the merged list holds every contribution's elements, each as often as it occurs |
| Aggregator.MergeInLaunchOrder | services/notion/client.go:194-199 | when the tasks finish in launch order, the merge is the parts laid end to end |

## Left out

- NotionService.GetAllChildPages: requires that some root listing response fails or reports no more pages. The source loop has no bound and keeps requesting for as long as the store answers HasMore = true, so against a store that never stops it runs forever; the model does not capture that run.
- Goroutines, `sync.WaitGroup` and `sync.Mutex` are not modelled. The fan-out of `getAllDatabaseIDs` and `getAllDatabaseEntries` is captured by its sequential effect: each task's append happens atomically, in an arbitrary completion order given as a parameter.
- NotionService.GetAllDatabaseIDs and NotionService.GetAllDatabaseEntries state their result only up to order, because the source's order depends on scheduling.
- The remote `notionapi` calls are not modelled. They are oracles passed as parameters:
  - `Block.GetChildren` for the root is a sequence of responses;
  - `Block.GetChildren` for a child page is a function;
  - `Database.Query` is a function.
- The requested page size 100 of those calls is not modelled.
- A database query reads only its first page of rows, as in the source, which never follows the query's cursor.
- The child listing in step 2 likewise reads only the first page of a page's children.
- The type assertion after `GetType()` (the cast to a child-page or child-database block) is taken to succeed whenever the type string matches.
- The `fmt.Printf` logging of failed listings and queries is not modelled.
- The wrapping of errors with `fmt.Errorf` is kept only as the message prefix "failed to get child pages: ".
- The HTTP layer is not modelled: `echo.Context`, JSON responses, routing and the handler methods that call the helpers.
- The response type mismatch between the handlers and `models/entry.go` is not modelled.
- `NewNotionHandler` is declared twice in the source; the duplicate declaration is not modelled.
- `GetIntroduction` returns constant text and is not modelled.
- Configuration loading and the rate limiter are not modelled. Only the default page size 20 is kept.
- `time.Time` is not modelled. A timestamp is an integer, and `Before` is `<`.
- Strconv.Atoi: Go's 64-bit range error is not modelled; integers are unbounded.
- Pagination.ParsePaginationParams: a `pageSize` that exceeds the 64-bit range makes Go's `Atoi` fail, so the source keeps the default page size. The model caps it at 100 instead, because integers are unbounded. Likewise a `cursor` beyond the 64-bit range makes Go's `Atoi` fail, so the source keeps offset 0 and serves the first page (utils/utils.go:69-73); the model takes the huge offset and serves an empty page.
- NotionHandler.ParsePaginationParams: the handler's copy of the parser differs from the source at the 64-bit range in the same way as Pagination.ParsePaginationParams, for both `pageSize` and `cursor`.
- Pagination.ApplyPagination: the model does not wrap `offset + pageSize` at 64 bits.
- Strconv.Itoa: the model does not wrap Go's `int` at 64 bits.
