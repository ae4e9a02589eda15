/** Paging over the adapter: a probe of one extra row, and what following the cursor returns. */
module TaskService {
  import opened Prelude
  import opened Tasks
  import opened TaskTable
  import opened Statements
  import opened PostgresTasks
  import opened Redis
  import opened CachedTasks
  import Database

  datatype Page = Page(tasks: seq<Task>, nextCursor: int, hasMore: bool)

  /** The ids a list request is about, from the top. */
  function Matching(t: Table, req: ListTasksRequest): seq<int> {
    Descending(MatchingIds(t, req))
  }

  /** The page of `n` rows for a request, in terms of all that match. */
  function PageWithin(t: Table, req: ListTasksRequest, n: int): Page
    requires n >= 1
  {
    var all := Matching(t, req);
    Page(ListAnswer(t, req.(limit := n)), if |all| > n then all[n - 1] else 0, |all| > n)
  }

  function PageOf(t: Table, req: ListTasksRequest): Page {
    PageWithin(t, req, req.WithClampedLimit().limit)
  }

  lemma LimitIrrelevant(t: Table, req: ListTasksRequest, limit: int)
    ensures MatchingIds(t, req.(limit := limit)) == MatchingIds(t, req)
  {
    forall id | id in t ensures Matches(req.(limit := limit), t[id]) == Matches(req, t[id]) {
    }
  }

  /** `tasks` are the first `limit` rows of `all`. */
  ghost predicate FirstRows(t: Table, all: seq<int>, tasks: seq<Task>, limit: nat) {
    && |tasks| == (if |all| < limit then |all| else limit)
    && forall i :: 0 <= i < |tasks| ==> all[i] in t && tasks[i] == t[all[i]].task && tasks[i].id == all[i]
  }

  /** The answer to a list request is made of the first matching rows. */
  lemma AnswerShape(t: Table, req: ListTasksRequest, limit: nat)
    ensures FirstRows(t, Matching(t, req), ListAnswer(t, req.(limit := limit)), limit)
  {
    LimitIrrelevant(t, req, limit);
    var ids := PageIds(t, req.(limit := limit));
    assert ids == Take(Matching(t, req), limit);
  }

  lemma FirstRowsNest(t: Table, all: seq<int>, tasks: seq<Task>, probed: seq<Task>, limit: nat)
    requires FirstRows(t, all, tasks, limit) && FirstRows(t, all, probed, limit + 1)
    ensures |probed| > limit <==> |all| > limit
    ensures tasks == if |probed| > limit then probed[..limit] else probed
  {
  }

  /** Asking for one row more changes nothing but the extra row. */
  lemma ProbeAgrees(t: Table, req: ListTasksRequest, limit: nat)
    ensures var tasks, probed := ListAnswer(t, req.(limit := limit)), ListAnswer(t, req.(limit := limit + 1));
            && (|probed| > limit <==> |Matching(t, req)| > limit)
            && tasks == if |probed| > limit then probed[..limit] else probed
  {
    hide FirstRows, ListAnswer, Matching;
    AnswerShape(t, req, limit);
    AnswerShape(t, req, limit + 1);
    FirstRowsNest(t, Matching(t, req), ListAnswer(t, req.(limit := limit)), ListAnswer(t, req.(limit := limit + 1)), limit);
  }

  /** The page made of a probe for `n + 1` rows. */
  function Trimmed(probed: seq<Task>, n: int): Page
    requires n >= 1
  {
    if |probed| > n then Page(probed[..n], probed[n - 1].id, true) else Page(probed, 0, false)
  }

  /** A probe of the first rows, trimmed, in terms of all rows. */
  lemma TrimmedFirstRows(t: Table, all: seq<int>, tasks: seq<Task>, probed: seq<Task>, n: nat)
    requires n >= 1 && FirstRows(t, all, tasks, n) && FirstRows(t, all, probed, n + 1)
    ensures Trimmed(probed, n) == Page(tasks, if |all| > n then all[n - 1] else 0, |all| > n)
  {
    FirstRowsNest(t, all, tasks, probed, n);
  }

  lemma PageFromProbe(t: Table, req: ListTasksRequest, n: nat)
    requires n >= 1
    ensures PageWithin(t, req, n) == Trimmed(ListAnswer(t, req.(limit := n + 1)), n)
  {
    hide FirstRows, ListAnswer, Matching, Trimmed;
    var all, tasks, probed := Matching(t, req), ListAnswer(t, req.(limit := n)), ListAnswer(t, req.(limit := n + 1));
    AnswerShape(t, req, n);
    AnswerShape(t, req, n + 1);
    TrimmedFirstRows(t, all, tasks, probed, n);
    assert PageWithin(t, req, n) == Page(tasks, if |all| > n then all[n - 1] else 0, |all| > n);
  }

  /** The page cut from the probe is the page of the request. */
  lemma ProbedPage(t: Table, req: ListTasksRequest, page: Page)
    requires var clamped := req.WithClampedLimit();
             clamped.limit >= 1 && page == Trimmed(ListAnswer(t, clamped.(limit := clamped.limit + 1)), clamped.limit)
    ensures page == PageOf(t, req)
  {
    var n := req.WithClampedLimit().limit;
    PageFromProbe(t, req, n);
    assert req.WithClampedLimit().(limit := n + 1) == req.(limit := n + 1);
  }

  /** The size of a page in figures. */
  lemma PageSize(req: ListTasksRequest)
    ensures var n := req.WithClampedLimit().limit;
            && (req.limit <= 0 ==> n == 20) && (1 <= req.limit <= 50 ==> n == req.limit) && (req.limit > 50 ==> n == 50)
  {
  }

  /** A page in terms of the fields of the rows. */
  lemma PageByFields(t: Table, req: ListTasksRequest)
    ensures var page := PageOf(t, req);
            forall task :: task in page.tasks ==>
                             && task.id in t && t[task.id].deletedAt.None? && t[task.id].task == task
                             && (req.status != "" ==> task.status == req.status)
                             && (req.assignee != "" ==> task.assignee == req.assignee)
                             && (req.cursor > 0 ==> task.id < req.cursor)
    ensures var page := PageOf(t, req);
            forall id :: id in t && t[id].deletedAt.None?
                         && (req.status != "" ==> t[id].task.status == req.status)
                         && (req.assignee != "" ==> t[id].task.assignee == req.assignee)
                         && (req.cursor > 0 ==> id < req.cursor) ==>
                           || t[id].task in page.tasks
                           || (page.hasMore && forall task :: task in page.tasks ==> task.id > id)
    ensures var page, n := PageOf(t, req), req.WithClampedLimit().limit;
            && |page.tasks| <= n && (page.hasMore ==> |page.tasks| == n)
            && (forall i, j :: 0 <= i < j < |page.tasks| ==> page.tasks[i].id > page.tasks[j].id)
            && (if page.hasMore then page.nextCursor == page.tasks[|page.tasks| - 1].id else page.nextCursor == 0)
  {
    hide ListAnswer, Matching;
    var n := req.WithClampedLimit().limit;
    AnswerByFields(t, req.(limit := n));
    AnswerByFields(t, req.(limit := n + 1));
    ProbeAgrees(t, req, n);
    PageFromProbe(t, req, n);
  }

  /** Cuts a probe down to its page and converts the rows one by one. */
  method Trim(probed: seq<Task>, limit: int) returns (page: Page)
    requires limit >= 1
    ensures page == Trimmed(probed, limit)
  {
    var tasks, hasMore, nextCursor := probed, false, 0;
    if |tasks| > limit {
      tasks := tasks[..limit];
      hasMore := true;
    }
    var infos: seq<Task> := [];
    for i := 0 to |tasks|
      invariant infos == tasks[..i]
    {
      infos := infos + [tasks[i]];
    }
    assert infos == tasks;
    if hasMore && |tasks| > 0 {
      nextCursor := tasks[|tasks| - 1].id;
    }
    page := Page(infos, nextCursor, hasMore);
  }

  /** The task a create request asks for. */
  function NewTask(req: CreateTaskRequest): Task {
    Task(0, req.title, req.description, if req.status == "" then PENDING else req.status, req.assignee)
  }

  /** What the service is given: the adapter, or the cache in front of it. */
  datatype Repository = Plain(db: PostgresDb) | Cached(cache: CachedDb) {

    function Db(): PostgresDb {
      if Plain? then db else cache.next
    }

    ghost function Objects(): set<object> {
      if Plain? then {db} else {cache, cache.next}
    }

    ghost function State(): Database.Db
      reads Db()
    {
      Db().State()
    }

    ghost predicate Ready()
      reads Objects()
    {
      if Plain? then db.Valid() else cache.Valid() && cache.Coherent()
    }

    /** How long the count lock of the cache is still taken. */
    ghost function Lease(): nat
      reads Objects()
    {
      if Plain? then 0 else LeaseLeft(cache.store)
    }

    /** The call's commands leave a cache in agreement with the database. */
    ghost predicate Settled(call: Database.Call, net: Net)
      reads Objects()
    {
      Cached? ==> Settles(call, net, Lease())
    }
  }

  class Service {
    const repo: Repository

    constructor (repo: Repository)
      ensures this.repo == repo
    {
      this.repo := repo;
    }

    /** An absent status becomes `pending`. */
    method Create(req: CreateTaskRequest, now: int, net: Net) returns (r: Result<Task, DbError>)
      requires repo.Ready()
      modifies repo.Objects()
      ensures old(repo.Settled(Database.Create(NewTask(req)), net)) ==> repo.Ready()
      ensures repo.State() ==
              if net.io.Effective() then Database.Served(old(repo.State()), Database.Create(NewTask(req)), now).0
              else old(repo.State())
      ensures r == if !net.io.Acked? then Err(Unavailable)
                   else if Fits(NewTask(req)) then Ok(NewTask(req).(id := old(repo.State().nextId))) else Err(TooLong)
      // field by field
      ensures r.Ok? ==> r.value.title == req.title && r.value.description == req.description
      ensures r.Ok? ==> r.value.assignee == req.assignee
      ensures r.Ok? ==> r.value.status == if req.status == "" then "pending" else req.status
      ensures r.Ok? ==> r.value.id !in old(repo.Db().rows)
                        && repo.Db().rows == old(repo.Db().rows)[r.value.id := Row(r.value, now, now, None)]
    {
      var task := Task(0, req.title, req.description, req.status, req.assignee);
      if task.status == "" {
        task := task.(status := PENDING);
      }
      match repo
      case Plain(db) => r := db.Create(task, now, net.io);
      case Cached(cache) => r := cache.Create(task, net, now);
    }

    method ListTasks(req: ListTasksRequest, net: Net) returns (r: Result<seq<Task>, DbError>)
      requires repo.Ready()
      modifies repo.Objects()
      ensures repo.Ready() && repo.State() == old(repo.State()) && repo.Lease() <= old(repo.Lease())
      ensures var answer := if req.limit < 0 then Err(NegativeLimit) else Ok(ListAnswer(repo.State().rows, req));
              r == answer || (!net.up && r == Err(Unavailable))
    {
      match repo
      case Plain(db) => r := db.List(req, net.up);
      case Cached(cache) => r := cache.List(req, net);
    }

    /** Asks for one row more than the page holds, to learn whether there is another page. */
    method List(req: ListTasksRequest, net: Net) returns (r: Result<Page, DbError>)
      requires repo.Ready()
      modifies repo.Objects()
      ensures repo.Ready() && repo.State() == old(repo.State()) && repo.Lease() <= old(repo.Lease())
      ensures r == Ok(PageOf(repo.State().rows, req)) || (!net.up && r == Err(Unavailable))
      // by the fields of the rows: what is listed
      ensures r.Ok? ==> forall task :: task in r.value.tasks ==>
                          && task.id in repo.Db().rows && repo.Db().rows[task.id].deletedAt.None?
                          && repo.Db().rows[task.id].task == task
                          && (req.status != "" ==> task.status == req.status)
                          && (req.assignee != "" ==> task.assignee == req.assignee)
                          && (req.cursor > 0 ==> task.id < req.cursor)
      // what is left out, in which order, and how many
      ensures r.Ok? ==> forall id :: id in repo.Db().rows && repo.Db().rows[id].deletedAt.None?
                                     && (req.status != "" ==> repo.Db().rows[id].task.status == req.status)
                                     && (req.assignee != "" ==> repo.Db().rows[id].task.assignee == req.assignee)
                                     && (req.cursor > 0 ==> id < req.cursor) ==>
                                       || repo.Db().rows[id].task in r.value.tasks
                                       || (r.value.hasMore && forall task :: task in r.value.tasks ==> task.id > id)
      ensures r.Ok? ==> forall i, j :: 0 <= i < j < |r.value.tasks| ==> r.value.tasks[i].id > r.value.tasks[j].id
      // in figures: a page holds at most 50 rows, 20 unless asked otherwise, and is full when there are more
      ensures r.Ok? && req.limit <= 0 ==> |r.value.tasks| <= 20 && (r.value.hasMore ==> |r.value.tasks| == 20)
      ensures r.Ok? && 1 <= req.limit <= 50 ==>
                |r.value.tasks| <= req.limit && (r.value.hasMore ==> |r.value.tasks| == req.limit)
      ensures r.Ok? && req.limit > 50 ==> |r.value.tasks| <= 50 && (r.value.hasMore ==> |r.value.tasks| == 50)
      // the cursor is the last id if there are more rows
      ensures r.Ok? ==> if r.value.hasMore then r.value.nextCursor == r.value.tasks[|r.value.tasks| - 1].id
                        else r.value.nextCursor == 0
    {
      hide PageOf, Trimmed, ListAnswer, Repository.Ready, Repository.Lease;
      var clamped := req.WithClampedLimit();
      var probe := clamped.(limit := clamped.limit + 1);
      var result := ListTasks(probe, net);
      if result.Err? {
        return Err(result.error);
      }
      var page := Trim(result.value, clamped.limit);
      ProbedPage(repo.State().rows, req, page);
      PageByFields(repo.State().rows, req);
      r := Ok(page);
    }

    method Delete(id: int, now: int, net: Net) returns (r: Option<DbError>)
      requires repo.Ready()
      modifies repo.Objects()
      ensures old(repo.Settled(Database.Delete(id), net)) ==> repo.Ready()
      ensures repo.Ready() ==> repo.Lease() <= COUNT_LOCK_TTL
      ensures GivesLockBack(net) ==> repo.Lease() <= old(repo.Lease())
      ensures repo.State() == if net.io.Effective() then Database.Served(old(repo.State()), Database.Delete(id), now).0
                              else old(repo.State())
      ensures r == if !net.io.Acked? then Some(Unavailable)
                   else if IsLive(old(repo.State().rows), id) then None else Some(NotFound)
      ensures r.None? ==> id in old(repo.Db().rows) && old(repo.Db().rows)[id].deletedAt.None?
      ensures r.None? ==> repo.Db().rows == old(repo.Db().rows)[id := old(repo.Db().rows)[id].(deletedAt := Some(now))]
    {
      match repo
      case Plain(db) => r := db.Delete(id, now, net.io);
      case Cached(cache) => r := cache.Delete(id, net, now);
    }
  }
}
