/** scripts/notion-to-github.js: every task without a GitHub Issue ID (at most
    ten per run, in query order) gets a GitHub issue, and the task is then
    updated with that issue's number and URL. The first failing call ends the run. */
module NotionToGithub {
  import opened Common
  import opened NotionStore

  /** The four environment variables the script needs. */
  datatype Env = Env(notionToken: string, databaseId: string, githubToken: string, repository: string)

  predicate Configured(env: Env)
  {
    env.notionToken != "" && env.databaseId != "" && env.githubToken != "" && env.repository != ""
  }

  /** The query's page_size: the most tasks one run handles. */
  const PageSize: nat := 10

  /** `pieces.join("")`. */
  function Join(pieces: seq<string>): string
  {
    if pieces == [] then "" else pieces[0] + Join(pieces[1..])
  }

  /** Joining is in-order concatenation: it distributes over `+` ... */
  lemma {:induction false} JoinAppend(a: seq<string>, b: seq<string>)
    ensures Join(a + b) == Join(a) + Join(b)
  {
    if a == [] {
      assert a + b == b;
    } else {
      assert (a + b)[1..] == a[1..] + b;
      JoinAppend(a[1..], b);
    }
  }

  /** ... and a single piece joins to itself, so a task whose Name is one
      piece (as the issue-to-task script writes it) reads back that piece. */
  lemma TitleOfSinglePiece(p: Page, t: string)
    requires p.props.name == Some([t])
    ensures TitleFromPage(p) == t
  {
    calc {
      Join([t]);
      t + Join([t][1..]);
      { assert [t][1..] == []; }
      t;
    }
  }

  /** The task's title: its Name pieces joined, or "Untitled task" when the
      Name property is missing or has no pieces. */
  function TitleFromPage(p: Page): (r: string)
    ensures p.props.name.None? || p.props.name.value == [] ==> r == "Untitled task"
    ensures p.props.name.Some? && p.props.name.value != [] ==> r == Join(p.props.name.value)
  {
    match p.props.name
    case None => "Untitled task"
    case Some(pieces) => if pieces == [] then "Untitled task" else Join(pieces)
  }

  /** The task's status: the selected option's name, "Backlog" when there is none. */
  function StatusFromPage(p: Page): (r: string)
    ensures r != ""
    ensures p.props.status.Some? && p.props.status.value != "" ==> r == p.props.status.value
    ensures p.props.status.None? || p.props.status.value == "" ==> r == "Backlog"
  {
    match p.props.status
    case None => "Backlog"
    case Some(name) => if name == "" then "Backlog" else name
  }

  const BodyIntro := "Synced from Notion Dev Tasks.\n\nNotion task: "
  const BodyStatus := "\nStatus: "

  /** The issue's body: it names the task's page URL and its status. */
  function IssueBody(pageUrl: string, status: string): string
  {
    BodyIntro + pageUrl + BodyStatus + status
  }

  /** The body holds the page URL right after the introduction and ends with the status. */
  lemma IssueBodyEmbeds(pageUrl: string, status: string)
    ensures var b := IssueBody(pageUrl, status);
            && b[..|BodyIntro|] == BodyIntro
            && b[|BodyIntro|..|BodyIntro| + |pageUrl|] == pageUrl
            && b[|b| - |status|..] == status
  {
    var b := IssueBody(pageUrl, status);
    assert b == BodyIntro + pageUrl + (BodyStatus + status);
  }

  /** The tasks one run handles: those without a GitHub Issue ID, in query
      order, the first ten of them. */
  function TasksNeedingIssues(pages: seq<Page>): (r: seq<Page>)
    ensures |r| == if |Select(pages, IssueIdIsEmpty)| < PageSize then |Select(pages, IssueIdIsEmpty)| else PageSize
    ensures r == Select(pages, IssueIdIsEmpty)[..|r|]
    ensures |r| <= PageSize
    ensures forall q :: q in r ==> q in pages && q.props.issueId.None?
    ensures |Select(pages, IssueIdIsEmpty)| <= PageSize ==>
              forall p :: p in pages && p.props.issueId.None? ==> p in r
    ensures DistinctIds(pages) ==> DistinctIds(r)
  {
    QueryResults(pages, IssueIdIsEmpty, Some(PageSize))
  }

  /** A created GitHub issue. */
  datatype Issue = Issue(number: int, title: string, body: string, htmlUrl: string)

  /** The only GitHub call: create an issue with a title and a body; no state
      and no labels are sent. */
  datatype IssueRequest = CreateIssue(title: string, body: string)

  /** The GitHub repository's issues. Numbers come from a counter; the
      issue's html_url is whatever GitHub assigns to a number. */
  class IssueStore {
    var issues: seq<Issue>
    var nextNumber: int
    var requests: seq<IssueRequest>
    const htmlUrlOf: int -> string

    ghost predicate Valid()
      reads this
    {
      forall i :: 0 <= i < |issues| ==> issues[i].number < nextNumber
    }

    constructor (initial: seq<Issue>, next: int, urlOf: int -> string)
      requires forall i :: 0 <= i < |initial| ==> initial[i].number < next
      ensures Valid() && issues == initial && nextNumber == next && requests == [] && htmlUrlOf == urlOf
    {
      issues, nextNumber, requests, htmlUrlOf := initial, next, [], urlOf;
    }

    /** POST /repos/{repo}/issues; yields the new issue's number and html_url. */
    method CreateIssue(title: string, body: string, ok: bool) returns (r: Result<(int, string), ApiError>)
      requires Valid()
      modifies this
      ensures Valid()
      ensures requests == old(requests) + [IssueRequest.CreateIssue(title, body)]
      ensures ok ==> && r == Ok((old(nextNumber), htmlUrlOf(old(nextNumber))))
                     && issues == old(issues) + [Issue(old(nextNumber), title, body, htmlUrlOf(old(nextNumber)))]
                     && nextNumber == old(nextNumber) + 1
      ensures !ok ==> r == Err(RequestFailed) && issues == old(issues) && nextNumber == old(nextNumber)
    {
      requests := requests + [IssueRequest.CreateIssue(title, body)];
      if ok {
        r := Ok((nextNumber, htmlUrlOf(nextNumber)));
        issues := issues + [Issue(nextNumber, title, body, htmlUrlOf(nextNumber))];
        nextNumber := nextNumber + 1;
      } else {
        r := Err(RequestFailed);
      }
    }
  }

  /** What a processed task is updated with. */
  function LinkProperties(number: int, htmlUrl: string, syncedAt: string): Properties
  {
    Properties(
      name := None,
      status := None,
      issueId := Some(number),
      githubUrl := Some(htmlUrl),
      source := Some("GitHub"),
      lastSynced := Some(syncedAt))
  }

  /** The issue a task gets: its title and the body naming its URL and status. */
  function IssueRequestFor(p: Page): IssueRequest
  {
    IssueRequest.CreateIssue(TitleFromPage(p), IssueBody(p.url, StatusFromPage(p)))
  }

  /** A task paired with the issue made for it. */
  datatype Pairing = Pairing(page: PageId, number: int, htmlUrl: string)

  /** The pairings of a run that succeeds throughout: the j-th task gets issue
      number `first + j`. */
  function Pairings(tasks: seq<Page>, first: int, urlOf: int -> string): (r: seq<Pairing>)
    ensures |r| == |tasks|
    ensures forall j :: 0 <= j < |tasks| ==> r[j] == Pairing(tasks[j].id, first + j, urlOf(first + j))
  {
    seq(|tasks|, j requires 0 <= j < |tasks| => Pairing(tasks[j].id, first + j, urlOf(first + j)))
  }

  /** The database after the given pairings were written, in order. */
  function ApplyPairings(pages: seq<Page>, ps: seq<Pairing>, syncedAt: string): (r: seq<Page>)
    ensures SameIds(pages, r)
    decreases |ps|
  {
    if ps == [] then pages
    else
      var last := ps[|ps| - 1];
      PatchById(ApplyPairings(pages, ps[..|ps| - 1], syncedAt), last.page,
                LinkProperties(last.number, last.htmlUrl, syncedAt))
  }

  lemma ApplyPairingsStep(pages: seq<Page>, ps: seq<Pairing>, k: nat, syncedAt: string)
    requires k < |ps|
    ensures ApplyPairings(pages, ps[..k + 1], syncedAt)
            == PatchById(ApplyPairings(pages, ps[..k], syncedAt), ps[k].page,
                         LinkProperties(ps[k].number, ps[k].htmlUrl, syncedAt))
  {
    assert ps[..k + 1][..k] == ps[..k];
  }

  /** No two pairings are for the same task. */
  ghost predicate DistinctPages(ps: seq<Pairing>)
  {
    forall a, b :: 0 <= a < b < |ps| ==> ps[a].page != ps[b].page
  }

  /** A task that no pairing names keeps every property. */
  lemma {:induction false} UnpairedPageIsUntouched(pages: seq<Page>, ps: seq<Pairing>, syncedAt: string, i: nat)
    requires i < |pages| && forall j :: 0 <= j < |ps| ==> ps[j].page != pages[i].id
    ensures ApplyPairings(pages, ps, syncedAt)[i] == pages[i]
    decreases |ps|
  {
    if ps != [] {
      UnpairedPageIsUntouched(pages, ps[..|ps| - 1], syncedAt, i);
    }
  }

  /** A task that a pairing names gets that pairing's issue number, URL and
      Source, and keeps its other properties. */
  lemma {:induction false} PairedPageIsLinked(pages: seq<Page>, ps: seq<Pairing>, syncedAt: string, i: nat, j: nat)
    requires DistinctPages(ps) && i < |pages| && j < |ps| && pages[i].id == ps[j].page
    ensures ApplyPairings(pages, ps, syncedAt)[i].props
            == Merge(pages[i].props, LinkProperties(ps[j].number, ps[j].htmlUrl, syncedAt))
    decreases |ps|
  {
    var last := |ps| - 1;
    var prefix := ps[..last];
    if j == last {
      UnpairedPageIsUntouched(pages, prefix, syncedAt, i);
    } else {
      PairedPageIsLinked(pages, prefix, syncedAt, i, j);
      assert ps[last].page != pages[i].id;
    }
  }

  /** The same, property by property. */
  lemma PairedPageFields(pages: seq<Page>, ps: seq<Pairing>, syncedAt: string, i: nat, j: nat,
                         number: int, htmlUrl: string)
    requires DistinctPages(ps) && i < |pages| && j < |ps| && pages[i].id == ps[j].page
    requires ps[j].number == number && ps[j].htmlUrl == htmlUrl
    ensures var r := ApplyPairings(pages, ps, syncedAt);
            && r[i].id == pages[i].id
            && r[i].props.issueId == Some(number)
            && r[i].props.githubUrl == Some(htmlUrl)
            && r[i].props.source == Some("GitHub")
            && r[i].props.lastSynced == Some(syncedAt)
            && r[i].props.name == pages[i].props.name
            && r[i].props.status == pages[i].props.status
  {
    PairedPageIsLinked(pages, ps, syncedAt, i, j);
  }

  /** The pairings of the first k selected tasks name distinct tasks. */
  lemma PairingsAreDistinct(tasks: seq<Page>, first: int, urlOf: int -> string, k: nat)
    requires DistinctIds(tasks) && k <= |tasks|
    ensures DistinctPages(Pairings(tasks, first, urlOf)[..k])
  {
  }

  /** After the first k of the tasks (the selection of a run, or any list
      of distinct tasks) were processed, the j-th of them holds issue number
      first + j, that issue's URL and Source "GitHub"; its name and status
      are as before. */
  lemma ProcessedTaskIsPaired(pages: seq<Page>, tasks: seq<Page>, first: int, urlOf: int -> string,
                              syncedAt: string, k: nat, i: nat, j: nat)
    requires DistinctIds(tasks)
    requires k <= |tasks| && j < k && i < |pages| && pages[i].id == tasks[j].id
    ensures var r := ApplyPairings(pages, Pairings(tasks, first, urlOf)[..k], syncedAt);
            && r[i].id == pages[i].id
            && r[i].props.issueId == Some(first + j)
            && r[i].props.githubUrl == Some(urlOf(first + j))
            && r[i].props.source == Some("GitHub")
            && r[i].props.lastSynced == Some(syncedAt)
            && r[i].props.name == pages[i].props.name
            && r[i].props.status == pages[i].props.status
  {
    var ps := Pairings(tasks, first, urlOf)[..k];
    PairingsAreDistinct(tasks, first, urlOf, k);
    assert ps[j] == Pairing(tasks[j].id, first + j, urlOf(first + j));
    PairedPageFields(pages, ps, syncedAt, i, j, first + j, urlOf(first + j));
  }

  /** Tasks beyond the first k selected are left as they were. */
  lemma LaterTaskIsUntouched(pages: seq<Page>, first: int, urlOf: int -> string, syncedAt: string, k: nat, i: nat)
    requires k <= |TasksNeedingIssues(pages)| && i < |pages|
    requires forall j :: 0 <= j < k ==> TasksNeedingIssues(pages)[j].id != pages[i].id
    ensures ApplyPairings(pages, Pairings(TasksNeedingIssues(pages), first, urlOf)[..k], syncedAt)[i] == pages[i]
  {
    UnpairedPageIsUntouched(pages, Pairings(TasksNeedingIssues(pages), first, urlOf)[..k], syncedAt, i);
  }

  /** A processed task now has an issue id, so the next run does not select it again. */
  lemma RerunSkipsProcessedTask(pages: seq<Page>, first: int, urlOf: int -> string, syncedAt: string, k: nat, j: nat)
    requires DistinctIds(pages) && k <= |TasksNeedingIssues(pages)| && j < k
    ensures forall q :: q in TasksNeedingIssues(ApplyPairings(pages, Pairings(TasksNeedingIssues(pages), first, urlOf)[..k], syncedAt))
                        ==> q.id != TasksNeedingIssues(pages)[j].id
  {
    var tasks := TasksNeedingIssues(pages);
    var r := ApplyPairings(pages, Pairings(tasks, first, urlOf)[..k], syncedAt);
    assert tasks[j] in tasks;
    var i :| 0 <= i < |pages| && pages[i] == tasks[j];
    ProcessedTaskIsPaired(pages, tasks, first, urlOf, syncedAt, k, i, j);
    SameIdsKeepsIds(pages, r, 0);
    LinkedTaskNotSelected(r, i);
  }

  /** A task holding an issue id is not among the tasks a run selects, and
      neither is any other task with its page id. */
  lemma LinkedTaskNotSelected(pages: seq<Page>, i: nat)
    requires DistinctIds(pages) && i < |pages| && pages[i].props.issueId.Some?
    ensures forall q :: q in TasksNeedingIssues(pages) ==> q.id != pages[i].id
  {
    forall q | q in TasksNeedingIssues(pages)
      ensures q.id != pages[i].id
    {
      var i' :| 0 <= i' < |pages| && pages[i'] == q;
    }
  }

  /** Every GitHub Issue ID a task holds is below `bound`. */
  ghost predicate IssueIdsBelow(pages: seq<Page>, bound: int)
  {
    forall i :: 0 <= i < |pages| && pages[i].props.issueId.Some? ==> pages[i].props.issueId.value < bound
  }

  /** Every GitHub Issue ID a task holds is the number of an issue in the
      repository. */
  ghost predicate IssueIdsFromStore(pages: seq<Page>, issues: seq<Issue>)
  {
    forall i :: 0 <= i < |pages| && pages[i].props.issueId.Some? ==>
      exists j :: 0 <= j < |issues| && issues[j].number == pages[i].props.issueId.value
  }

  /** The store numbers every issue below its counter, so ids that name
      its issues are below the next number a run hands out. */
  lemma StoreBoundsIssueIds(pages: seq<Page>, store: IssueStore)
    requires store.Valid() && IssueIdsFromStore(pages, store.issues)
    ensures IssueIdsBelow(pages, store.nextNumber)
  {
    forall i | 0 <= i < |pages| && pages[i].props.issueId.Some?
      ensures pages[i].props.issueId.value < store.nextNumber
    {
      var j :| 0 <= j < |store.issues| && store.issues[j].number == pages[i].props.issueId.value;
    }
  }

  lemma LinkKeepsIssueIdsUnique(pages: seq<Page>, id: PageId, number: int, htmlUrl: string, syncedAt: string)
    requires DistinctIds(pages) && UniqueIssueIds(pages) && IssueIdsBelow(pages, number)
    ensures var r := PatchById(pages, id, LinkProperties(number, htmlUrl, syncedAt));
            UniqueIssueIds(r) && IssueIdsBelow(r, number + 1)
  {
    var r := PatchById(pages, id, LinkProperties(number, htmlUrl, syncedAt));
    forall a, b | 0 <= a < b < |r| && r[a].props.issueId.Some?
      ensures r[a].props.issueId != r[b].props.issueId
    {
      if pages[a].id == id {
        assert pages[b].id != id;
      } else if pages[b].id == id {
        assert pages[a].id != id;
      }
    }
  }

  /** Pairing issues numbered from the store's next number keeps the
      GitHub Issue ID unique across tasks, provided every id already held
      came from the store. */
  lemma PairingKeepsIssueIdsUnique(pages: seq<Page>, tasks: seq<Page>, first: int,
                                   urlOf: int -> string, syncedAt: string, k: nat)
    requires DistinctIds(pages) && UniqueIssueIds(pages) && IssueIdsBelow(pages, first) && k <= |tasks|
    ensures var r := ApplyPairings(pages, Pairings(tasks, first, urlOf)[..k], syncedAt);
            UniqueIssueIds(r) && IssueIdsBelow(r, first + k)
  {
    NumberedPairingsKeepIssueIdsUnique(pages, Pairings(tasks, first, urlOf)[..k], first, syncedAt);
  }

  /** The same for any pairings whose issue numbers count up from `first`. */
  lemma {:induction false} NumberedPairingsKeepIssueIdsUnique(pages: seq<Page>, ps: seq<Pairing>, first: int, syncedAt: string)
    requires DistinctIds(pages) && UniqueIssueIds(pages) && IssueIdsBelow(pages, first)
    requires forall j :: 0 <= j < |ps| ==> ps[j].number == first + j
    ensures var r := ApplyPairings(pages, ps, syncedAt);
            UniqueIssueIds(r) && IssueIdsBelow(r, first + |ps|)
    decreases |ps|
  {
    if ps != [] {
      var prefix := ps[..|ps| - 1];
      NumberedPairingsKeepIssueIdsUnique(pages, prefix, first, syncedAt);
      var before := ApplyPairings(pages, prefix, syncedAt);
      SameIdsKeepsIds(pages, before, 0);
      var last := ps[|ps| - 1];
      LinkKeepsIssueIdsUnique(before, last.page, last.number, last.htmlUrl, syncedAt);
    }
  }

  /** The update-page calls for the given pairings. */
  function UpdateRequests(ps: seq<Pairing>, syncedAt: string): (r: seq<Request>)
    ensures |r| == |ps|
    ensures forall j :: 0 <= j < |ps| ==>
              r[j] == UpdatePage(ps[j].page, LinkProperties(ps[j].number, ps[j].htmlUrl, syncedAt))
  {
    seq(|ps|, j requires 0 <= j < |ps| => UpdatePage(ps[j].page, LinkProperties(ps[j].number, ps[j].htmlUrl, syncedAt)))
  }

  /** The issue-create calls for the given tasks. */
  function IssueRequests(tasks: seq<Page>): (r: seq<IssueRequest>)
    ensures |r| == |tasks|
    ensures forall j :: 0 <= j < |tasks| ==> r[j] == IssueRequestFor(tasks[j])
  {
    seq(|tasks|, j requires 0 <= j < |tasks| => IssueRequestFor(tasks[j]))
  }

  /** The issues created for the given tasks, numbered from `first`. */
  function CreatedIssues(tasks: seq<Page>, first: int, urlOf: int -> string): (r: seq<Issue>)
    ensures |r| == |tasks|
    ensures forall j :: 0 <= j < |tasks| ==>
              r[j] == Issue(first + j, IssueRequestFor(tasks[j]).title, IssueRequestFor(tasks[j]).body, urlOf(first + j))
  {
    seq(|tasks|, j requires 0 <= j < |tasks| =>
      Issue(first + j, IssueRequestFor(tasks[j]).title, IssueRequestFor(tasks[j]).body, urlOf(first + j)))
  }

  /** Which remote call of the run (if any) gets a non-success response:
      the query, or the issue create or the task update of the k-th task. */
  datatype FailPoint = QueryFails | CreateFails(k: nat) | UpdateFails(k: nat)

  /** How far a run over `n` selected tasks gets: tasks paired, issues
      created, create and update calls made, and whether it exits with 1. */
  datatype Progress = Progress(paired: nat, created: nat, createCalls: nat, updateCalls: nat, aborted: bool)

  function ProgressOf(failAt: Option<FailPoint>, n: nat): (p: Progress)
    ensures p.paired <= p.created <= p.createCalls <= n && p.paired <= p.updateCalls <= p.created
    ensures !p.aborted ==> p == Progress(n, n, n, n, false)
  {
    match failAt
    case Some(QueryFails) => Progress(0, 0, 0, 0, true)
    case Some(CreateFails(k)) => if k < n then Progress(k, k, k + 1, k, true) else Progress(n, n, n, n, false)
    case Some(UpdateFails(k)) => if k < n then Progress(k, k + 1, k + 1, k + 1, true) else Progress(n, n, n, n, false)
    case None => Progress(n, n, n, n, false)
  }

  /** One task's turn: create its issue, then update the task with the
      issue's number and URL. */
  method PairTask(table: TaskTable, store: IssueStore, page: Page, createOk: bool, updateOk: bool, syncedAt: string)
    returns (paired: bool)
    requires table.Valid() && store.Valid() && HasId(table.pages, page.id)
    modifies table, store
    ensures table.Valid() && store.Valid()
    ensures paired <==> createOk && updateOk
    ensures table.nextId == old(table.nextId)
    ensures store.requests == old(store.requests) + [IssueRequestFor(page)]
    ensures var n := old(store.nextNumber);
      if createOk then
        && store.issues == old(store.issues)
                           + [Issue(n, IssueRequestFor(page).title, IssueRequestFor(page).body, store.htmlUrlOf(n))]
        && store.nextNumber == n + 1
        && table.requests == old(table.requests) + [UpdatePage(page.id, LinkProperties(n, store.htmlUrlOf(n), syncedAt))]
        && table.pages == if updateOk then PatchById(old(table.pages), page.id, LinkProperties(n, store.htmlUrlOf(n), syncedAt))
                          else old(table.pages)
      else
        store.issues == old(store.issues) && store.nextNumber == n && unchanged(table)
  {
    var title := TitleFromPage(page);
    var status := StatusFromPage(page);
    var body := IssueBody(page.url, status);
    var created := store.CreateIssue(title, body, createOk);
    if created.Err? {
      return false;
    }
    var number := created.value.0;
    var htmlUrl := created.value.1;
    var updated := table.Update(page.id, LinkProperties(number, htmlUrl, syncedAt), updateOk);
    paired := updated.Ok?;
  }

  /** The two stores as a run found them. */
  datatype Snapshot = Snapshot(pages: seq<Page>, pageRequests: seq<Request>, issues: seq<Issue>,
                               issueRequests: seq<IssueRequest>, nextNumber: int)

  function SnapshotOf(table: TaskTable, store: IssueStore): Snapshot
    reads table, store
  {
    Snapshot(table.pages, table.requests, store.issues, store.requests, store.nextNumber)
  }

  /** The stores `s` after a run over `tasks` from `base` got as far as `p` says. */
  ghost predicate RunLog(s: Snapshot, base: Snapshot, tasks: seq<Page>, urlOf: int -> string, syncedAt: string, p: Progress)
  {
    var ps := Pairings(tasks, base.nextNumber, urlOf);
    && p.paired <= p.updateCalls <= |tasks| && p.created <= p.createCalls <= |tasks|
    && s.pages == ApplyPairings(base.pages, ps[..p.paired], syncedAt)
    && s.pageRequests == base.pageRequests + UpdateRequests(ps, syncedAt)[..p.updateCalls]
    && s.issues == base.issues + CreatedIssues(tasks, base.nextNumber, urlOf)[..p.created]
    && s.nextNumber == base.nextNumber + p.created
    && s.issueRequests == base.issueRequests + IssueRequests(tasks)[..p.createCalls]
  }

  ghost predicate RunState(table: TaskTable, store: IssueStore, base: Snapshot, tasks: seq<Page>, syncedAt: string, p: Progress)
    reads table, store
  {
    table.Valid() && store.Valid() && RunLog(SnapshotOf(table, store), base, tasks, store.htmlUrlOf, syncedAt, p)
  }

  /** How far the run is after the k-th task's turn, when the first k were paired. */
  function NextProgress(k: nat, createOk: bool, updateOk: bool): (p: Progress)
    ensures p.aborted <==> !(createOk && updateOk)
  {
    if !createOk then Progress(k, k, k + 1, k, true)
    else if !updateOk then Progress(k, k + 1, k + 1, k + 1, true)
    else Progress(k + 1, k + 1, k + 1, k + 1, false)
  }

  /** One task's turn, as it changes the two stores. */
  ghost predicate PairTaskStep(before: Snapshot, after: Snapshot, page: Page, urlOf: int -> string,
                               createOk: bool, updateOk: bool, syncedAt: string)
  {
    var n := before.nextNumber;
    var link := LinkProperties(n, urlOf(n), syncedAt);
    && after.issueRequests == before.issueRequests + [IssueRequestFor(page)]
    && if createOk then
         && after.issues == before.issues + [Issue(n, IssueRequestFor(page).title, IssueRequestFor(page).body, urlOf(n))]
         && after.nextNumber == n + 1
         && after.pageRequests == before.pageRequests + [UpdatePage(page.id, link)]
         && after.pages == if updateOk then PatchById(before.pages, page.id, link) else before.pages
       else
         after.issues == before.issues && after.nextNumber == n
         && after.pages == before.pages && after.pageRequests == before.pageRequests
  }

  /** The k-th task's turn, from the state in which the first k are paired,
      moves the run on as `NextProgress` says. */
  lemma PairStep(before: Snapshot, after: Snapshot, base: Snapshot, tasks: seq<Page>, urlOf: int -> string,
                 syncedAt: string, k: nat, createOk: bool, updateOk: bool)
    requires k < |tasks| && RunLog(before, base, tasks, urlOf, syncedAt, Progress(k, k, k, k, false))
    requires PairTaskStep(before, after, tasks[k], urlOf, createOk, updateOk, syncedAt)
    ensures RunLog(after, base, tasks, urlOf, syncedAt, NextProgress(k, createOk, updateOk))
  {
    var ps := Pairings(tasks, base.nextNumber, urlOf);
    var n := before.nextNumber;
    AppendStep(base.issueRequests, IssueRequests(tasks), k, before.issueRequests, after.issueRequests);
    if createOk {
      var issues := CreatedIssues(tasks, base.nextNumber, urlOf);
      assert issues[k] == Issue(n, IssueRequestFor(tasks[k]).title, IssueRequestFor(tasks[k]).body, urlOf(n));
      AppendStep(base.issues, issues, k, before.issues, after.issues);
      var updates := UpdateRequests(ps, syncedAt);
      assert updates[k] == UpdatePage(tasks[k].id, LinkProperties(n, urlOf(n), syncedAt));
      AppendStep(base.pageRequests, updates, k, before.pageRequests, after.pageRequests);
      if updateOk {
        ApplyPairingsStep(base.pages, ps, k, syncedAt);
      }
    }
  }

  /** The k-th task's turn, from the state in which the first k are paired. */
  method PairNext(table: TaskTable, store: IssueStore, ghost base: Snapshot, tasks: seq<Page>, k: nat,
                  createOk: bool, updateOk: bool, syncedAt: string)
    returns (paired: bool)
    requires k < |tasks| && RunState(table, store, base, tasks, syncedAt, Progress(k, k, k, k, false))
    requires forall q :: q in tasks ==> HasId(base.pages, q.id)
    modifies table, store
    ensures paired <==> createOk && updateOk
    ensures table.nextId == old(table.nextId)
    ensures paired ==> RunState(table, store, base, tasks, syncedAt, Progress(k + 1, k + 1, k + 1, k + 1, false))
    ensures !paired ==> RunState(table, store, base, tasks, syncedAt, NextProgress(k, createOk, updateOk))
  {
    ghost var before := SnapshotOf(table, store);
    assert HasId(table.pages, tasks[k].id) by {
      assert tasks[k] in tasks;
      SameIdsKeepsIds(base.pages, table.pages, tasks[k].id);
    }
    paired := PairTask(table, store, tasks[k], createOk, updateOk, syncedAt);
    assert PairTaskStep(before, SnapshotOf(table, store), tasks[k], store.htmlUrlOf, createOk, updateOk, syncedAt);
    PairStep(before, SnapshotOf(table, store), base, tasks, store.htmlUrlOf, syncedAt, k, createOk, updateOk);
  }

  lemma AppendStep<T>(base: seq<T>, s: seq<T>, k: nat, before: seq<T>, after: seq<T>)
    requires k < |s| && before == base + s[..k] && after == before + [s[k]]
    ensures after == base + s[..k + 1]
  {
    assert s[..k + 1] == s[..k] + [s[k]];
  }

  /** No turn before the k-th fails. */
  predicate NoFailureBefore(failAt: Option<FailPoint>, k: nat)
  {
    match failAt
    case Some(CreateFails(j)) => k <= j
    case Some(UpdateFails(j)) => k <= j
    case _ => true
  }

  lemma NoFailureThrough(failAt: Option<FailPoint>, k: nat)
    requires NoFailureBefore(failAt, k)
    requires failAt != Some(CreateFails(k)) && failAt != Some(UpdateFails(k))
    ensures NoFailureBefore(failAt, k + 1)
  {
  }

  /** Where a run stops when the k-th task's turn fails. */
  lemma ProgressAtFailure(failAt: Option<FailPoint>, n: nat, k: nat, createOk: bool, updateOk: bool)
    requires k < n && failAt != Some(QueryFails)
    requires createOk == (failAt != Some(CreateFails(k))) && updateOk == (failAt != Some(UpdateFails(k)))
    requires !(createOk && updateOk)
    ensures ProgressOf(failAt, n) == NextProgress(k, createOk, updateOk)
  {
  }

  /** A run none of whose turns fails pairs every task. */
  lemma ProgressWithoutFailure(failAt: Option<FailPoint>, n: nat)
    requires failAt != Some(QueryFails)
    requires NoFailureBefore(failAt, n)
    ensures ProgressOf(failAt, n) == Progress(n, n, n, n, false)
  {
  }

  /** The loop over the selected tasks, in order, ending at the first failure. */
  method PairAll(tasks: seq<Page>, table: TaskTable, store: IssueStore, failAt: Option<FailPoint>, syncedAt: string)
    returns (exit: Exit)
    requires table.Valid() && store.Valid() && failAt != Some(QueryFails)
    requires forall q :: q in tasks ==> HasId(table.pages, q.id)
    modifies table, store
    ensures exit == ExitOne <==> ProgressOf(failAt, |tasks|).aborted
    ensures table.nextId == old(table.nextId)
    ensures RunState(table, store, Snapshot(old(table.pages), old(table.requests), old(store.issues),
                                            old(store.requests), old(store.nextNumber)),
                     tasks, syncedAt, ProgressOf(failAt, |tasks|))
  {
    ghost var base := Snapshot(table.pages, table.requests, store.issues, store.requests, store.nextNumber);
    for k := 0 to |tasks|
      invariant RunState(table, store, base, tasks, syncedAt, Progress(k, k, k, k, false))
      invariant NoFailureBefore(failAt, k)
      invariant table.nextId == old(table.nextId)
    {
      var createOk, updateOk := failAt != Some(CreateFails(k)), failAt != Some(UpdateFails(k));
      var paired := PairNext(table, store, base, tasks, k, createOk, updateOk, syncedAt);
      if !paired {
        ProgressAtFailure(failAt, |tasks|, k, createOk, updateOk);
        return ExitOne;
      }
      NoFailureThrough(failAt, k);
    }
    ProgressWithoutFailure(failAt, |tasks|);
    exit := ExitZero;
  }

  /** The script: check the environment, query the tasks needing issues, then
      for each in turn create its issue and update the task, stopping at the
      first failure. */
  method PushNewIssues(env: Env, table: TaskTable, store: IssueStore, failAt: Option<FailPoint>, syncedAt: string)
    returns (exit: Exit)
    requires table.Valid() && store.Valid()
    modifies table, store
    ensures table.Valid() && store.Valid()
    ensures !Configured(env) ==> exit == ExitOne && unchanged(table) && unchanged(store)
    ensures table.nextId == old(table.nextId)
    ensures Configured(env) ==>
      var tasks := TasksNeedingIssues(old(table.pages));
      var ps := Pairings(tasks, old(store.nextNumber), store.htmlUrlOf);
      var p := ProgressOf(failAt, |tasks|);
      && (exit == ExitOne <==> p.aborted)
      && table.pages == ApplyPairings(old(table.pages), ps[..p.paired], syncedAt)
      && table.requests == old(table.requests) + [QueryDatabase(IssueIdIsEmpty, Some(PageSize))]
                           + UpdateRequests(ps, syncedAt)[..p.updateCalls]
      && store.issues == old(store.issues) + CreatedIssues(tasks, old(store.nextNumber), store.htmlUrlOf)[..p.created]
      && store.nextNumber == old(store.nextNumber) + p.created
      && store.requests == old(store.requests) + IssueRequests(tasks)[..p.createCalls]
    ensures UniqueIssueIds(old(table.pages)) && IssueIdsBelow(old(table.pages), old(store.nextNumber)) ==>
              UniqueIssueIds(table.pages) && IssueIdsBelow(table.pages, store.nextNumber)
    ensures Configured(env) && failAt != Some(QueryFails) && TasksNeedingIssues(old(table.pages)) == [] ==>
      && exit == ExitZero && table.pages == old(table.pages) && unchanged(store)
      && table.requests == old(table.requests) + [QueryDatabase(IssueIdIsEmpty, Some(PageSize))]
  {
    if !Configured(env) {
      return ExitOne;
    }
    var found := table.Query(IssueIdIsEmpty, Some(PageSize), failAt != Some(QueryFails));
    if found.Err? {
      return ExitOne;
    }
    var tasks := found.value;
    assert tasks == TasksNeedingIssues(table.pages);
    if |tasks| == 0 {
      return ExitZero;
    }
    forall q | q in tasks
      ensures HasId(table.pages, q.id)
    {
      var i :| 0 <= i < |table.pages| && table.pages[i] == q;
    }
    ghost var pages0, first := table.pages, store.nextNumber;
    exit := PairAll(tasks, table, store, failAt, syncedAt);
    if UniqueIssueIds(pages0) && IssueIdsBelow(pages0, first) {
      var p := ProgressOf(failAt, |tasks|);
      PairingKeepsIssueIdsUnique(pages0, tasks, first, store.htmlUrlOf, syncedAt, p.paired);
    }
  }
}
