/** scripts/github-to-notion.js: an issue event (number, title, URL, action)
    creates the task that mirrors the issue, updates the first task already
    carrying the issue's number, or does nothing. */
module GithubToNotion {
  import opened Common
  import opened NotionStore

  /** The four command-line arguments. An empty string is a missing argument;
      the issue number is taken as already converted, `None` when missing. */
  datatype Args = Args(number: Option<int>, title: string, url: string, action: string)

  /** The two environment variables the script needs. */
  datatype Env = Env(notionToken: string, databaseId: string)

  /** The issue event once the arguments are known to be present. */
  datatype IssueEvent = IssueEvent(number: int, title: string, url: string, action: string)

  /** Which remote call of the run (if any) gets a non-success response. */
  datatype FailPoint = QueryFails | WriteFails

  /** All four arguments and both environment variables are present. */
  predicate Configured(args: Args, env: Env)
  {
    args.number.Some? && args.title != "" && args.url != "" && args.action != ""
    && env.notionToken != "" && env.databaseId != ""
  }

  function EventOf(args: Args): IssueEvent
    requires args.number.Some?
  {
    IssueEvent(args.number.value, args.title, args.url, args.action)
  }

  /** An issue closed marks its task done; every other action puts it in the backlog. */
  function StatusFromAction(action: string): (r: string)
    ensures r == "Done" <==> action == "closed"
    ensures r == "Done" || r == "Backlog"
  {
    if action == "closed" then "Done" else "Backlog"
  }

  /** The properties of the task created for an issue. */
  function CreateTaskProperties(e: IssueEvent, syncedAt: string): Properties
  {
    Properties(
      name := Some([e.title]),
      status := Some(StatusFromAction(e.action)),
      issueId := Some(e.number),
      githubUrl := Some(e.url),
      source := Some("GitHub"),
      lastSynced := Some(syncedAt))
  }

  /** The properties written when the issue's task already exists. */
  function UpdateTaskProperties(e: IssueEvent, syncedAt: string): Properties
  {
    Properties(
      name := Some([e.title]),
      status := Some(StatusFromAction(e.action)),
      issueId := None,
      githubUrl := Some(e.url),
      source := None,
      lastSynced := Some(syncedAt))
  }

  /** The first task with GitHub Issue ID `n`, from a query filtered on that number. */
  function FindExistingTask(pages: seq<Page>, n: int): (r: Option<Page>)
    ensures r.None? <==> NoTaskFor(pages, n)
    ensures r.Some? ==> FirstIndex(pages, IssueIdEquals(n)).Some?
                        && r.value == pages[FirstIndex(pages, IssueIdEquals(n)).value]
  {
    SelectHeadIsFirst(pages, IssueIdEquals(n));
    var results := QueryResults(pages, IssueIdEquals(n), None);
    if results == [] then None else Some(results[0])
  }

  /** The one write of a run, if any: create when no task has the number
      (unless the issue was deleted), otherwise update the first such task. */
  function PlannedWrite(pages: seq<Page>, e: IssueEvent, syncedAt: string): (w: Option<Request>)
    ensures w.None? <==> NoTaskFor(pages, e.number) && e.action == "deleted"
    ensures w.Some? ==> w.value.CreatePage? || w.value.UpdatePage?
    ensures (w.Some? && w.value.CreatePage?) <==> NoTaskFor(pages, e.number) && e.action != "deleted"
    ensures w.Some? && w.value.CreatePage? ==> w.value.props == CreateTaskProperties(e, syncedAt)
    ensures w.Some? && w.value.UpdatePage? ==>
              var i := FirstIndex(pages, IssueIdEquals(e.number));
              i.Some? && w.value == UpdatePage(pages[i.value].id, UpdateTaskProperties(e, syncedAt))
  {
    match FindExistingTask(pages, e.number)
    case None => if e.action != "deleted" then Some(CreatePage(CreateTaskProperties(e, syncedAt))) else None
    case Some(existing) => Some(UpdatePage(existing.id, UpdateTaskProperties(e, syncedAt)))
  }

  /** The database after a write that succeeded; a created page gets id
      `nextId` and URL `pageUrl`. */
  function AfterWrite(pages: seq<Page>, nextId: PageId, pageUrl: string, w: Option<Request>): seq<Page>
  {
    match w
    case None => pages
    case Some(CreatePage(props)) => pages + [Page(nextId, pageUrl, props)]
    case Some(UpdatePage(id, props)) => PatchById(pages, id, props)
    case Some(QueryDatabase(_, _)) => pages
  }

  /** The database after a run in which every call succeeded. */
  function UpsertPages(pages: seq<Page>, nextId: PageId, pageUrl: string, e: IssueEvent, syncedAt: string): seq<Page>
  {
    AfterWrite(pages, nextId, pageUrl, PlannedWrite(pages, e, syncedAt))
  }

  /** With no task for the issue and an action other than "deleted", exactly
      one task is appended, carrying the issue's fields and Source "GitHub". */
  lemma UpsertCreatesTask(pages: seq<Page>, nextId: PageId, pageUrl: string, e: IssueEvent, syncedAt: string)
    requires NoTaskFor(pages, e.number) && e.action != "deleted"
    ensures var r := UpsertPages(pages, nextId, pageUrl, e, syncedAt);
            && |r| == |pages| + 1 && r[..|pages|] == pages
            && r[|pages|].id == nextId
            && r[|pages|].props.name == Some([e.title])
            && r[|pages|].props.status == Some(StatusFromAction(e.action))
            && r[|pages|].props.issueId == Some(e.number)
            && r[|pages|].props.githubUrl == Some(e.url)
            && r[|pages|].props.source == Some("GitHub")
            && r[|pages|].props.lastSynced == Some(syncedAt)
  {
    var r := UpsertPages(pages, nextId, pageUrl, e, syncedAt);
    assert r == pages + [Page(nextId, pageUrl, CreateTaskProperties(e, syncedAt))];
  }

  /** When some task carries the number, whatever the action (also
      "deleted"), only the first such task changes: its name, status, GitHub
      URL and Last Synced are written; its issue id and Source are kept. */
  lemma UpsertUpdatesFirstMatch(pages: seq<Page>, nextId: PageId, pageUrl: string, e: IssueEvent, syncedAt: string)
    requires DistinctIds(pages) && !NoTaskFor(pages, e.number)
    ensures var r := UpsertPages(pages, nextId, pageUrl, e, syncedAt);
            var i := FirstIndex(pages, IssueIdEquals(e.number));
            && i.Some? && |r| == |pages|
            && r[i.value].id == pages[i.value].id
            && r[i.value].props == pages[i.value].props.(
                 name := Some([e.title]), status := Some(StatusFromAction(e.action)),
                 githubUrl := Some(e.url), lastSynced := Some(syncedAt))
            && r[i.value].props.issueId == Some(e.number)
            && forall j :: 0 <= j < |pages| && j != i.value ==> r[j] == pages[j]
  {
    var i := FirstIndex(pages, IssueIdEquals(e.number)).value;
    var r := UpsertPages(pages, nextId, pageUrl, e, syncedAt);
    assert r == PatchById(pages, pages[i].id, UpdateTaskProperties(e, syncedAt));
    forall j | 0 <= j < |pages| && j != i
      ensures r[j] == pages[j]
    {
      if j < i { assert pages[j].id != pages[i].id; } else { assert pages[i].id != pages[j].id; }
    }
  }

  /** A deletion of an issue without a task writes nothing. */
  lemma UpsertDeletedWithoutTaskIsNoop(pages: seq<Page>, nextId: PageId, pageUrl: string, e: IssueEvent, syncedAt: string)
    requires NoTaskFor(pages, e.number) && e.action == "deleted"
    ensures PlannedWrite(pages, e, syncedAt).None?
    ensures UpsertPages(pages, nextId, pageUrl, e, syncedAt) == pages
  {
  }

  /** Running twice with the same event and nothing else changing: the second
      run finds the task the first run wrote and updates it, so at most one
      task is ever created. */
  lemma UpsertTwiceCreatesAtMostOnce(pages: seq<Page>, nextId: PageId, url1: string, url2: string,
                                    e: IssueEvent, syncedAt1: string, syncedAt2: string)
    requires !NoTaskFor(pages, e.number) || e.action != "deleted"
    ensures var p1 := UpsertPages(pages, nextId, url1, e, syncedAt1);
            var w2 := PlannedWrite(p1, e, syncedAt2);
            && |p1| <= |pages| + 1
            && w2.Some? && w2.value.UpdatePage?
            && |UpsertPages(p1, nextId + 1, url2, e, syncedAt2)| == |p1|
  {
    var p1 := UpsertPages(pages, nextId, url1, e, syncedAt1);
    if NoTaskFor(pages, e.number) {
      assert p1[|pages|].props.issueId == Some(e.number);
    } else {
      var i := FirstIndex(pages, IssueIdEquals(e.number)).value;
      assert p1 == PatchById(pages, pages[i].id, UpdateTaskProperties(e, syncedAt1));
      assert p1[i].props.issueId == Some(e.number);
    }
    assert !NoTaskFor(p1, e.number);
  }

  /** A run keeps the GitHub Issue ID unique across tasks. */
  lemma UpsertKeepsIssueIdsUnique(pages: seq<Page>, nextId: PageId, pageUrl: string, e: IssueEvent, syncedAt: string)
    requires UniqueIssueIds(pages)
    ensures UniqueIssueIds(UpsertPages(pages, nextId, pageUrl, e, syncedAt))
  {
    var r := UpsertPages(pages, nextId, pageUrl, e, syncedAt);
    if !NoTaskFor(pages, e.number) {
      var i := FirstIndex(pages, IssueIdEquals(e.number)).value;
      assert r == PatchById(pages, pages[i].id, UpdateTaskProperties(e, syncedAt));
      assert forall k :: 0 <= k < |r| ==> r[k].props.issueId == pages[k].props.issueId;
    }
  }

  /** The script: check the arguments and environment, query for the issue's
      task, then make at most one write. */
  method SyncIssue(args: Args, env: Env, table: TaskTable, failAt: Option<FailPoint>,
                   syncedAt: string, newPageUrl: string) returns (exit: Exit)
    requires table.Valid()
    modifies table
    ensures table.Valid()
    ensures !Configured(args, env) ==> exit == ExitOne && unchanged(table)
    ensures Configured(args, env) ==>
      var e := EventOf(args);
      var w := PlannedWrite(old(table.pages), e, syncedAt);
      var wrote := failAt != Some(QueryFails) && w.Some?;
      && table.requests == old(table.requests) + [QueryDatabase(IssueIdEquals(e.number), None)]
                           + (if wrote then [w.value] else [])
      && (exit == ExitZero <==> failAt != Some(QueryFails) && !(wrote && failAt == Some(WriteFails)))
      && table.pages == (if exit == ExitZero then UpsertPages(old(table.pages), old(table.nextId), newPageUrl, e, syncedAt)
                         else old(table.pages))
      && table.nextId == old(table.nextId) + (if exit == ExitZero && wrote && w.value.CreatePage? then 1 else 0)
  {
    if !Configured(args, env) {
      return ExitOne;
    }
    var e := EventOf(args);
    var found := table.Query(IssueIdEquals(e.number), None, failAt != Some(QueryFails));
    if found.Err? {
      return ExitOne;
    }
    var existing := if found.value == [] then None else Some(found.value[0]);
    assert existing == FindExistingTask(table.pages, e.number);
    var writeOk := failAt != Some(WriteFails);
    if existing.None? && e.action != "deleted" {
      var r := table.Create(CreateTaskProperties(e, syncedAt), newPageUrl, writeOk);
      exit := if r.Ok? then ExitZero else ExitOne;
    } else if existing.Some? {
      var i := FirstIndex(table.pages, IssueIdEquals(e.number)).value;
      assert HasId(table.pages, existing.value.id) by { assert table.pages[i].id == existing.value.id; }
      var r := table.Update(existing.value.id, UpdateTaskProperties(e, syncedAt), writeOk);
      exit := if r.Ok? then ExitZero else ExitOne;
    } else {
      exit := ExitZero;
    }
  }
}
