/** The Notion "Dev Tasks" database as both sync scripts see it: pages with a
    handful of task properties, the two query filters they send, and the
    create and update-page calls. Every call is recorded in a request log, and
    every call either succeeds or gets a non-success response (an explicit
    oracle), in which case it changes nothing. */
module NotionStore {
  import opened Common

  /** Page identifiers are opaque; the database hands them out. */
  type PageId = nat

  /** The task properties the sync scripts read or write; `None` when the page
      does not have the property (or, for a select, has no option name). */
  datatype Properties = Properties(
    name: Option<seq<string>>,   // "Name": the plain_text pieces of the title
    status: Option<string>,      // "Status": the name of the selected option
    issueId: Option<int>,        // "GitHub Issue ID"
    githubUrl: Option<string>,   // "GitHub URL"
    source: Option<string>,      // "Source": the name of the selected option
    lastSynced: Option<string>)  // "Last Synced": the start of the date

  /** A task page: its id, its own URL and its properties. */
  datatype Page = Page(id: PageId, url: string, props: Properties)

  /** The two database filters the scripts use. */
  datatype Filter = IssueIdEquals(n: int) | IssueIdIsEmpty

  /** The calls made to the database, in the request log. */
  datatype Request =
    | QueryDatabase(filter: Filter, pageSize: Option<nat>)
    | CreatePage(props: Properties)
    | UpdatePage(id: PageId, props: Properties)

  /** A non-success response; the scripts keep only that it happened. */
  datatype ApiError = RequestFailed

  predicate Matches(f: Filter, p: Page)
  {
    match f
    case IssueIdEquals(n) => p.props.issueId == Some(n)
    case IssueIdIsEmpty => p.props.issueId.None?
  }

  /** Page ids are unique. */
  ghost predicate DistinctIds(pages: seq<Page>)
  {
    forall i, j :: 0 <= i < j < |pages| ==> pages[i].id != pages[j].id
  }

  predicate HasId(pages: seq<Page>, id: PageId)
  {
    exists i :: 0 <= i < |pages| && pages[i].id == id
  }

  /** No two tasks carry the same GitHub Issue ID (the correlation key). */
  ghost predicate UniqueIssueIds(pages: seq<Page>)
  {
    forall i, j :: 0 <= i < j < |pages| && pages[i].props.issueId.Some? ==>
      pages[i].props.issueId != pages[j].props.issueId
  }

  /** No task carries GitHub Issue ID `n`. */
  predicate NoTaskFor(pages: seq<Page>, n: int)
  {
    forall j :: 0 <= j < |pages| ==> pages[j].props.issueId != Some(n)
  }

  /** Two page lists hold the same pages, in the same order, up to properties. */
  ghost predicate SameIds(a: seq<Page>, b: seq<Page>)
  {
    |a| == |b| && forall i :: 0 <= i < |a| ==> a[i].id == b[i].id && a[i].url == b[i].url
  }

  /** The pages matching a filter, in database order. */
  function Select(pages: seq<Page>, f: Filter): (r: seq<Page>)
    ensures |r| <= |pages|
    ensures forall q :: q in r ==> q in pages && Matches(f, q)
    ensures forall p :: p in pages && Matches(f, p) ==> p in r
  {
    if pages == [] then []
    else
      var rest := Select(pages[1..], f);
      assert forall q :: q in pages[1..] ==> q in pages;
      if Matches(f, pages[0]) then [pages[0]] + rest else rest
  }

  /** Selecting from pages with distinct ids gives pages with distinct ids. */
  lemma {:induction false} SelectKeepsDistinct(pages: seq<Page>, f: Filter)
    ensures DistinctIds(pages) ==> DistinctIds(Select(pages, f))
  {
    if pages != [] && DistinctIds(pages) {
      var rest := Select(pages[1..], f);
      SelectKeepsDistinct(pages[1..], f);
      if Matches(f, pages[0]) {
        var r := [pages[0]] + rest;
        forall a, b | 0 <= a < b < |r|
          ensures r[a].id != r[b].id
        {
          if a == 0 {
            assert r[b] in rest;
          } else {
            assert r[a] == rest[a - 1] && r[b] == rest[b - 1];
          }
        }
      }
    }
  }

  /** The index of the first page matching a filter. */
  function FirstIndex(pages: seq<Page>, f: Filter): (r: Option<nat>)
    ensures r.Some? ==> r.value < |pages| && Matches(f, pages[r.value])
    ensures r.Some? ==> forall j :: 0 <= j < r.value ==> !Matches(f, pages[j])
    ensures r.None? ==> forall j :: 0 <= j < |pages| ==> !Matches(f, pages[j])
  {
    if pages == [] then None
    else if Matches(f, pages[0]) then Some(0)
    else match FirstIndex(pages[1..], f)
      case None => None
      case Some(k) => Some(k + 1)
  }

  /** The head of a query result is the first matching page (what
      `results[0]` means), and the result is empty exactly when no page matches. */
  lemma {:induction false} SelectHeadIsFirst(pages: seq<Page>, f: Filter)
    ensures Select(pages, f) == [] <==> FirstIndex(pages, f).None?
    ensures Select(pages, f) != [] ==> Select(pages, f)[0] == pages[FirstIndex(pages, f).value]
  {
    if pages != [] && !Matches(f, pages[0]) {
      SelectHeadIsFirst(pages[1..], f);
    }
  }

  /** A database query: the matching pages in order, at most `pageSize` of them. */
  function QueryResults(pages: seq<Page>, f: Filter, pageSize: Option<nat>): (r: seq<Page>)
    ensures pageSize.Some? ==> |r| == if |Select(pages, f)| < pageSize.value then |Select(pages, f)| else pageSize.value
    ensures pageSize.None? ==> r == Select(pages, f)
    ensures r == Select(pages, f)[..|r|]
    ensures forall q :: q in r ==> q in pages && Matches(f, q)
    ensures DistinctIds(pages) ==> DistinctIds(r)
  {
    var all := Select(pages, f);
    SelectKeepsDistinct(pages, f);
    match pageSize
    case None => all
    case Some(k) => if |all| <= k then all else all[..k]
  }

  /** An update-page call's effect: the properties it writes replace the
      page's, the others stay. */
  function Merge(current: Properties, written: Properties): Properties
  {
    Properties(
      if written.name.Some? then written.name else current.name,
      if written.status.Some? then written.status else current.status,
      if written.issueId.Some? then written.issueId else current.issueId,
      if written.githubUrl.Some? then written.githubUrl else current.githubUrl,
      if written.source.Some? then written.source else current.source,
      if written.lastSynced.Some? then written.lastSynced else current.lastSynced)
  }

  /** The database after updating page `id` with `written`. */
  function PatchById(pages: seq<Page>, id: PageId, written: Properties): (r: seq<Page>)
    ensures SameIds(pages, r)
    ensures forall i :: 0 <= i < |pages| && pages[i].id != id ==> r[i] == pages[i]
    ensures forall i :: 0 <= i < |pages| && pages[i].id == id ==> r[i].props == Merge(pages[i].props, written)
  {
    seq(|pages|, i requires 0 <= i < |pages| =>
      if pages[i].id == id then pages[i].(props := Merge(pages[i].props, written)) else pages[i])
  }

  lemma SameIdsKeepsIds(a: seq<Page>, b: seq<Page>, id: PageId)
    requires SameIds(a, b)
    ensures HasId(a, id) <==> HasId(b, id)
    ensures DistinctIds(a) <==> DistinctIds(b)
  {
    if HasId(a, id) {
      var i :| 0 <= i < |a| && a[i].id == id;
      assert b[i].id == id;
    }
    if HasId(b, id) {
      var i :| 0 <= i < |b| && b[i].id == id;
      assert a[i].id == id;
    }
  }

  /** The task database. */
  class TaskTable {
    var pages: seq<Page>
    var nextId: PageId
    var requests: seq<Request>

    /** Page ids are unique and below the next id the database hands out. */
    ghost predicate Valid()
      reads this
    {
      DistinctIds(pages) && forall i :: 0 <= i < |pages| ==> pages[i].id < nextId
    }

    constructor (initial: seq<Page>, next: PageId)
      requires DistinctIds(initial) && forall i :: 0 <= i < |initial| ==> initial[i].id < next
      ensures Valid() && pages == initial && nextId == next && requests == []
    {
      pages, nextId, requests := initial, next, [];
    }

    /** POST /databases/{id}/query. */
    method Query(f: Filter, pageSize: Option<nat>, ok: bool) returns (r: Result<seq<Page>, ApiError>)
      modifies this`requests
      ensures requests == old(requests) + [QueryDatabase(f, pageSize)]
      ensures r == if ok then Ok(QueryResults(pages, f, pageSize)) else Err(RequestFailed)
    {
      requests := requests + [QueryDatabase(f, pageSize)];
      if ok {
        r := Ok(QueryResults(pages, f, pageSize));
      } else {
        r := Err(RequestFailed);
      }
    }

    /** POST /pages: a new page, with a fresh id, holding exactly `props`. */
    method Create(props: Properties, url: string, ok: bool) returns (r: Result<PageId, ApiError>)
      requires Valid()
      modifies this
      ensures Valid()
      ensures requests == old(requests) + [CreatePage(props)]
      ensures ok ==> r == Ok(old(nextId)) && nextId == old(nextId) + 1
                     && pages == old(pages) + [Page(old(nextId), url, props)]
      ensures !ok ==> r == Err(RequestFailed) && nextId == old(nextId) && pages == old(pages)
    {
      requests := requests + [CreatePage(props)];
      if ok {
        r := Ok(nextId);
        pages := pages + [Page(nextId, url, props)];
        nextId := nextId + 1;
      } else {
        r := Err(RequestFailed);
      }
    }

    /** PATCH /pages/{id}: fails when the response is not a success or there
        is no such page. */
    method Update(id: PageId, props: Properties, ok: bool) returns (r: Result<(), ApiError>)
      requires Valid()
      modifies this`pages, this`requests
      ensures Valid()
      ensures requests == old(requests) + [UpdatePage(id, props)]
      ensures r.Ok? <==> ok && HasId(old(pages), id)
      ensures pages == if r.Ok? then PatchById(old(pages), id, props) else old(pages)
    {
      requests := requests + [UpdatePage(id, props)];
      if ok && HasId(pages, id) {
        var patched := PatchById(pages, id, props);
        SameIdsKeepsIds(pages, patched, id);
        pages := patched;
        r := Ok(());
      } else {
        r := Err(RequestFailed);
      }
    }
  }
}
