// services/notion/client.go: the pipeline that walks the workspace. The
// root page's children are listed page by page following the cursor;
// every child page is listed once for databases; every database is
// queried once for its rows; each row becomes an entry. The remote store
// is an oracle given as parameters, and the goroutine fan-out of the two
// middle stages is replaced by the sequential effect of its appends in an
// arbitrary arrival order (see Aggregator).

module NotionService {
  import opened Models
  import opened Seqs
  import opened Aggregator
  import EntrySort

  /** Block types the walk looks for. */
  const ChildPageType: string := "child_page"
  const ChildDatabaseType: string := "child_database"

  /** A child block as the store lists it: its id and its reported type. */
  datatype Block = Block(id: string, blockType: string)

  /** One page of a child listing. */
  datatype BlockPage = BlockPage(results: seq<Block>, hasMore: bool, nextCursor: string)

  /** The remote answer to one listing request. */
  type ListResponse = Result<BlockPage>

  /** A property value of a database row: a title made of rich-text
      segments, a URL, or any other kind. */
  datatype RichText = RichText(plainText: string)
  datatype Property = TitleProperty(title: seq<RichText>) | URLProperty(url: string) | OtherProperty

  /** A database row: its named properties and its server creation time. */
  datatype Row = Row(properties: map<string, Property>, createdTime: Timestamp)

  /** The remote answer to one database query (its first page of rows). */
  type QueryResponse = Result<seq<Row>>

  method SortEntriesByCreationTime(entries: array<EntryResult>)
    modifies entries
    ensures EntrySort.NewestFirst(entries[..])
    ensures multiset(entries[..]) == multiset(old(entries[..]))
    ensures EntrySort.NewestFirst(old(entries[..])) ==> entries[..] == old(entries[..])
  {
    EntrySort.SortEntriesByCreationTime(entries);
  }

  // ----- Block filtering -----

  /** The ids of the blocks of the given type, in listing order. */
  function IdsOfType(blocks: seq<Block>, blockType: string): (ids: seq<string>)
    ensures |ids| <= |blocks|
    ensures forall id :: id in ids <==> exists k :: 0 <= k < |blocks| && blocks[k].blockType == blockType && blocks[k].id == id
  {
    if blocks == [] then []
    else
      var rest := IdsOfType(blocks[1..], blockType);
      assert forall k :: 1 <= k < |blocks| ==> blocks[k] == blocks[1..][k - 1];
      if blocks[0].blockType == blockType then [blocks[0].id] + rest else rest
  }

  lemma {:induction false} IdsOfTypeAppend(a: seq<Block>, b: seq<Block>, blockType: string)
    ensures IdsOfType(a + b, blockType) == IdsOfType(a, blockType) + IdsOfType(b, blockType)
  {
    if a == [] {
      assert a + b == b;
    } else {
      assert (a + b)[1..] == a[1..] + b;
      IdsOfTypeAppend(a[1..], b, blockType);
    }
  }

  // ----- Step 1: the cursor loop over the root page's children -----

  /** The loop stops at this response: it failed or reported no more pages. */
  predicate Stops(response: ListResponse)
  {
    response.Err? || !response.value.hasMore
  }

  /** Some response of the sequence stops the loop. */
  predicate ListingEnds(responses: seq<ListResponse>)
  {
    exists k :: 0 <= k < |responses| && Stops(responses[k])
  }

  /** The position of the response at which the loop stops: the first one
      that fails or reports no more pages. */
  function StopIndex(responses: seq<ListResponse>): (k: nat)
    requires ListingEnds(responses)
    ensures k < |responses| && Stops(responses[k])
    ensures forall j :: 0 <= j < k ==> !Stops(responses[j])
  {
    if Stops(responses[0]) then 0
    else
      var rest := responses[1..];
      assert ListingEnds(rest) by {
        var k :| 0 <= k < |responses| && Stops(responses[k]);
        assert rest[k - 1] == responses[k];
      }
      1 + StopIndex(rest)
  }

  /** The child-page ids of the first n responses, in order. */
  function ChildPageIdsUpTo(responses: seq<ListResponse>, n: nat): (ids: seq<string>)
    requires n <= |responses|
    requires forall j :: 0 <= j < n ==> responses[j].Ok?
    ensures forall id :: id in ids <==>
      exists j, k :: 0 <= j < n && 0 <= k < |responses[j].value.results|
        && responses[j].value.results[k].blockType == ChildPageType && responses[j].value.results[k].id == id
  {
    if n == 0 then []
    else ChildPageIdsUpTo(responses, n - 1) + IdsOfType(responses[n - 1].value.results, ChildPageType)
  }

  /** getAllChildPages. The k-th listing request receives responses[k];
      requests records the start cursor sent with each request. */
  method GetAllChildPages(responses: seq<ListResponse>) returns (r: Result<seq<string>>, requests: seq<Option<string>>)
    requires ListingEnds(responses)
    ensures |requests| == StopIndex(responses) + 1
    ensures requests[0] == None
    ensures forall k :: 0 < k < |requests| ==> responses[k - 1].Ok? && requests[k] == Some(responses[k - 1].value.nextCursor)
    ensures r.Err? <==> responses[StopIndex(responses)].Err?
    ensures r.Err? ==> r.error == responses[StopIndex(responses)].error
    ensures r.Ok? ==> r.value == ChildPageIdsUpTo(responses, StopIndex(responses) + 1)
  {
    var allChildPages: seq<string> := [];
    var startCursorStr := "";
    var hasMorePages := true;
    var hasStartCursor := false;
    var k := 0;
    requests := [];
    while hasMorePages
      invariant 0 <= k <= StopIndex(responses) + 1
      invariant hasMorePages <==> k <= StopIndex(responses)
      invariant forall j :: 0 <= j < k ==> responses[j].Ok?
      invariant allChildPages == ChildPageIdsUpTo(responses, k)
      invariant hasMorePages ==> (hasStartCursor <==> k > 0)
      invariant hasMorePages && hasStartCursor ==> startCursorStr == responses[k - 1].value.nextCursor
      invariant |requests| == k
      invariant k > 0 ==> requests[0] == None
      invariant forall j :: 0 < j < k ==> requests[j] == Some(responses[j - 1].value.nextCursor)
      decreases |responses| - k
    {
      var request := if hasStartCursor then Some(startCursorStr) else None;
      requests := requests + [request];
      var pageBlocks := responses[k];
      if pageBlocks.Err? {
        return Err(pageBlocks.error), requests;
      }
      allChildPages := allChildPages + IdsOfType(pageBlocks.value.results, ChildPageType);
      if pageBlocks.value.hasMore {
        startCursorStr := pageBlocks.value.nextCursor;
        hasStartCursor := true;
      } else {
        hasMorePages := false;
      }
      k := k + 1;
    }
    r := Ok(allChildPages);
  }

  // ----- Step 2: database discovery, one task per child page -----

  /** What one discovery task contributes: the child databases it lists,
      or nothing when its listing failed. */
  function DatabaseIdsOf(listing: ListResponse): (ids: seq<string>)
    ensures listing.Err? ==> ids == []
    ensures listing.Ok? ==> ids == IdsOfType(listing.value.results, ChildDatabaseType)
  {
    match listing
    case Err(_) => []
    case Ok(page) => IdsOfType(page.results, ChildDatabaseType)
  }

  /** The discovery task for one child page, given the store's listing. */
  function DiscoveryTask(listChildren: string -> ListResponse): string -> seq<string>
  {
    pageID => DatabaseIdsOf(listChildren(pageID))
  }

  /** getAllDatabaseIDs. Never fails; the ids are those of every task's
      contribution, in the order the tasks reached the lock. */
  function GetAllDatabaseIDs(childPageIDs: seq<string>, listChildren: string -> ListResponse, arrival: seq<nat>): (r: Result<seq<string>>)
    requires IsArrivalOrder(arrival, |childPageIDs|)
    ensures r.Ok?
    ensures multiset(r.value) == multiset(Concat(Map(DiscoveryTask(listChildren), childPageIDs)))
  {
    var parts := Map(DiscoveryTask(listChildren), childPageIDs);
    MergeIsUnion(parts, arrival);
    Ok(Merge(parts, arrival))
  }

  // ----- Step 3: entry collection, one task per database -----

  /** The entry built from one row: the first title segment of "Name", the
      URL of "Link", the creation time; missing fields stay empty. */
  function ExtractEntry(row: Row): (e: EntryResult)
    ensures e.createdAt == row.createdTime
    ensures "Name" in row.properties && row.properties["Name"].TitleProperty? && |row.properties["Name"].title| > 0
      ==> e.title == row.properties["Name"].title[0].plainText
    ensures e.title != "" ==> "Name" in row.properties && row.properties["Name"].TitleProperty? && |row.properties["Name"].title| > 0
    ensures "Link" in row.properties && row.properties["Link"].URLProperty? ==> e.url == row.properties["Link"].url
    ensures e.url != "" ==> "Link" in row.properties && row.properties["Link"].URLProperty?
  {
    var title :=
      if "Name" in row.properties then
        match row.properties["Name"]
        case TitleProperty(segments) => if |segments| > 0 then segments[0].plainText else ""
        case _ => ""
      else "";
    var url :=
      if "Link" in row.properties then
        match row.properties["Link"]
        case URLProperty(u) => u
        case _ => ""
      else "";
    EntryResult(title, url, row.createdTime)
  }

  /** One entry per row, in row order: no row is filtered out. */
  function ExtractEntries(rows: seq<Row>): (entries: seq<EntryResult>)
    ensures |entries| == |rows|
    ensures forall k :: 0 <= k < |rows| ==> entries[k] == ExtractEntry(rows[k])
  {
    if rows == [] then [] else [ExtractEntry(rows[0])] + ExtractEntries(rows[1..])
  }

  /** What one collection task contributes: the entries of its rows, or
      nothing when its query failed. */
  function EntriesOf(query: QueryResponse): (entries: seq<EntryResult>)
    ensures query.Err? ==> entries == []
    ensures query.Ok? ==> entries == ExtractEntries(query.value)
    ensures query.Ok? ==> |entries| == |query.value|
  {
    match query
    case Err(_) => []
    case Ok(rows) => ExtractEntries(rows)
  }

  /** The collection task for one database, given the store's query. */
  function CollectionTask(queryDatabase: string -> QueryResponse): string -> seq<EntryResult>
  {
    databaseID => EntriesOf(queryDatabase(databaseID))
  }

  /** getAllDatabaseEntries. Never fails; the entries are those of every
      task's contribution, in the order the tasks reached the lock. */
  function GetAllDatabaseEntries(databaseIDs: seq<string>, queryDatabase: string -> QueryResponse, arrival: seq<nat>): (r: Result<seq<EntryResult>>)
    requires IsArrivalOrder(arrival, |databaseIDs|)
    ensures r.Ok?
    ensures multiset(r.value) == multiset(Concat(Map(CollectionTask(queryDatabase), databaseIDs)))
  {
    var parts := Map(CollectionTask(queryDatabase), databaseIDs);
    MergeIsUnion(parts, arrival);
    Ok(Merge(parts, arrival))
  }

  // ----- The whole pipeline -----

  /** The entries of the pipeline run with every task finishing in launch
      order: the reference the concurrent runs are compared with. */
  function PipelineEntries(childPageIDs: seq<string>, listChildren: string -> ListResponse, queryDatabase: string -> QueryResponse): seq<EntryResult>
  {
    Concat(Map(CollectionTask(queryDatabase), Concat(Map(DiscoveryTask(listChildren), childPageIDs))))
  }

  /** The child pages found by step 1, when it succeeds. */
  function ChildPagesFound(rootResponses: seq<ListResponse>): seq<string>
    requires ListingEnds(rootResponses)
    requires rootResponses[StopIndex(rootResponses)].Ok?
  {
    ChildPageIdsUpTo(rootResponses, StopIndex(rootResponses) + 1)
  }

  /** FetchAllEntries. pageArrival and databaseArrival are the orders in
      which the tasks of steps 2 and 3 finish. Only step 1 can fail; the
      entries are, up to order, those of the launch-order reference run. */
  method FetchAllEntries(rootResponses: seq<ListResponse>, listChildren: string -> ListResponse,
                         queryDatabase: string -> QueryResponse, pageArrival: seq<nat>, databaseArrival: seq<nat>)
    returns (r: Result<seq<EntryResult>>)
    requires ListingEnds(rootResponses)
    requires rootResponses[StopIndex(rootResponses)].Ok? ==>
      IsArrivalOrder(pageArrival, |ChildPagesFound(rootResponses)|)
    requires rootResponses[StopIndex(rootResponses)].Ok? ==>
      IsArrivalOrder(databaseArrival, |Concat(Map(DiscoveryTask(listChildren), ChildPagesFound(rootResponses)))|)
    ensures r.Err? <==> rootResponses[StopIndex(rootResponses)].Err?
    ensures r.Err? ==> r.error == "failed to get child pages: " + rootResponses[StopIndex(rootResponses)].error
    ensures r.Ok? ==> multiset(r.value) == multiset(PipelineEntries(ChildPagesFound(rootResponses), listChildren, queryDatabase))
  {
    var childPages, _ := GetAllChildPages(rootResponses);
    if childPages.Err? {
      return Err("failed to get child pages: " + childPages.error);
    }
    // Steps 2 and 3 never report an error (their contracts say r.Ok?), so
    // the error checks that follow them in the source are never taken.
    var ids := GetAllDatabaseIDs(childPages.value, listChildren, pageArrival).value;
    var launchOrder := Concat(Map(DiscoveryTask(listChildren), childPages.value));
    assert |ids| == |launchOrder| by {
      assert |multiset(ids)| == |multiset(launchOrder)|;
    }
    var entries := GetAllDatabaseEntries(ids, queryDatabase, databaseArrival).value;
    MapPermutation(CollectionTask(queryDatabase), ids, launchOrder);
    ConcatPermutation(Map(CollectionTask(queryDatabase), ids), Map(CollectionTask(queryDatabase), launchOrder));
    r := Ok(entries);
  }

  /** A partial failure: of three databases the
      second one's query fails; the collection holds exactly the entries
      of the other two and no error is reported. */
  lemma OneOfThreeQueriesFails(a: string, b: string, c: string, queryDatabase: string -> QueryResponse, arrival: seq<nat>)
    requires IsArrivalOrder(arrival, 3)
    requires queryDatabase(b).Err?
    ensures GetAllDatabaseEntries([a, b, c], queryDatabase, arrival).Ok?
    ensures multiset(GetAllDatabaseEntries([a, b, c], queryDatabase, arrival).value)
      == multiset(EntriesOf(queryDatabase(a))) + multiset(EntriesOf(queryDatabase(c)))
  {
    ThreeContributions(a, b, c, queryDatabase);
    var ea, ec := EntriesOf(queryDatabase(a)), EntriesOf(queryDatabase(c));
    assert multiset(ea + ec) == multiset(ea) + multiset(ec);
  }

  /** The contributions of three collection tasks, the second of which failed. */
  lemma ThreeContributions(a: string, b: string, c: string, queryDatabase: string -> QueryResponse)
    requires queryDatabase(b).Err?
    ensures Concat(Map(CollectionTask(queryDatabase), [a, b, c]))
      == EntriesOf(queryDatabase(a)) + EntriesOf(queryDatabase(c))
  {
    var task := CollectionTask(queryDatabase);
    var ea, ec := EntriesOf(queryDatabase(a)), EntriesOf(queryDatabase(c));
    calc {
      Concat(Map(task, [a, b, c]));
      { MapOfThree(task, a, b, c); }
      Concat([task(a), task(b), task(c)]);
      { TaskContribution(queryDatabase, a); TaskContribution(queryDatabase, b); TaskContribution(queryDatabase, c); }
      Concat([ea, [], ec]);
      { ConcatOfThree(ea, [], ec); }
      ea + [] + ec;
      { assert ea + [] == ea; }
      ea + ec;
    }
  }

  /** The collection task for a database contributes that database's entries. */
  lemma TaskContribution(queryDatabase: string -> QueryResponse, databaseID: string)
    ensures CollectionTask(queryDatabase)(databaseID) == EntriesOf(queryDatabase(databaseID))
  {
  }
}
