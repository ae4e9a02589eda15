/** The `tasks` table and what each SQL statement of the adapter is meant to say about it. */
module TaskTable {
  import opened Prelude
  import opened Text
  import opened Tasks

  const MAX_STATUS_WIDTH := 50

  datatype Row = Row(task: Task, createdAt: int, updatedAt: int, deletedAt: Option<int>) {
    predicate Live() {
      deletedAt.None?
    }
  }

  predicate WellFormed(rows: map<int, Row>) {
    forall id :: id in rows ==> id >= 1 && rows[id].task.id == id
  }

  /** Rows by primary key.  Deletion is soft, so a key that was ever used stays in the map. */
  type Table = rows: map<int, Row> | WellFormed(rows) witness map[]

  /** The column widths of the schema. */
  predicate Fits(task: Task) {
    && RuneCount(task.title) <= MAX_TITLE_LEN
    && RuneCount(task.description) <= MAX_DESCRIPTION_LEN
    && RuneCount(task.status) <= MAX_STATUS_WIDTH
    && RuneCount(task.assignee) <= MAX_ASSIGNEE_LEN
  }

  // ----- reads -----

  predicate IsLive(t: Table, id: int) {
    id in t && t[id].Live()
  }

  function Lookup(t: Table, id: int): Option<Task> {
    if IsLive(t, id) then Some(t[id].task) else None
  }

  predicate Matches(req: ListTasksRequest, row: Row) {
    && row.Live()
    && (req.status != "" ==> row.task.status == req.status)
    && (req.assignee != "" ==> row.task.assignee == req.assignee)
    && (req.cursor > 0 ==> row.task.id < req.cursor)
  }

  function MatchingIds(t: Table, req: ListTasksRequest): set<int> {
    set id | id in t && Matches(req, t[id])
  }

  function LiveIds(t: Table): set<int> {
    set id | id in t && t[id].Live()
  }

  function LiveCount(t: Table): int {
    |LiveIds(t)|
  }

  /** The rows for a list request: the matching live tasks by descending id, at most `limit` of them. */
  function ListAnswer(t: Table, req: ListTasksRequest): seq<Task> {
    TasksOf(t, PageIds(t, req))
  }

  function PageIds(t: Table, req: ListTasksRequest): (ids: seq<int>)
    ensures forall i :: 0 <= i < |ids| ==> ids[i] in t && Matches(req, t[ids[i]])
    ensures StrictlyDescending(ids)
  {
    var all := Descending(MatchingIds(t, req));
    assert forall x :: x in all ==> x in t && Matches(req, t[x]);
    Take(all, req.limit)
  }

  function TasksOf(t: Table, ids: seq<int>): (tasks: seq<Task>)
    requires forall i :: 0 <= i < |ids| ==> ids[i] in t
    ensures |tasks| == |ids|
    ensures forall i :: 0 <= i < |ids| ==> tasks[i] == t[ids[i]].task && tasks[i].id == ids[i]
  {
    seq(|ids|, i requires 0 <= i < |ids| => t[ids[i]].task)
  }

  /** The answer to a list request in terms of the fields of the rows. */
  lemma AnswerByFields(t: Table, req: ListTasksRequest)
    ensures forall task :: task in ListAnswer(t, req) ==>
                             && task.id in t && t[task.id].deletedAt.None? && t[task.id].task == task
                             && (req.status != "" ==> task.status == req.status)
                             && (req.assignee != "" ==> task.assignee == req.assignee)
                             && (req.cursor > 0 ==> task.id < req.cursor)
    ensures var tasks := ListAnswer(t, req);
            forall id :: id in t && t[id].deletedAt.None?
                         && (req.status != "" ==> t[id].task.status == req.status)
                         && (req.assignee != "" ==> t[id].task.assignee == req.assignee)
                         && (req.cursor > 0 ==> id < req.cursor) ==>
                           || t[id].task in tasks
                           || (|tasks| == Max(req.limit, 0) && forall task :: task in tasks ==> task.id > id)
    ensures var tasks := ListAnswer(t, req);
            && |tasks| <= Max(req.limit, 0) && forall i, j :: 0 <= i < j < |tasks| ==> tasks[i].id > tasks[j].id
  {
    var ids, all, tasks := PageIds(t, req), Descending(MatchingIds(t, req)), ListAnswer(t, req);
    assert forall i :: 0 <= i < |tasks| ==> tasks[i].id == ids[i];
    forall id | id in MatchingIds(t, req) && t[id].task !in tasks
      ensures |tasks| == Max(req.limit, 0) && forall task :: task in tasks ==> task.id > id
    {
      LeftOut(all, req.limit, id, ids);
    }
  }

  /** The live count in terms of the fields of the rows. */
  lemma CountByFields(t: Table)
    ensures LiveCount(t) == |set id | id in t && t[id].deletedAt.None?|
  {
    var live := set id | id in t && t[id].deletedAt.None?;
    assert forall id :: id in live <==> id in LiveIds(t);
    assert live == LiveIds(t);
  }

  /** An id is left out of the first `n` only by that many larger ids. */
  lemma LeftOut(all: seq<int>, n: int, id: int, ids: seq<int>)
    requires StrictlyDescending(all) && id in all && ids == Take(all, n)
    ensures id in ids || (|ids| == Max(n, 0) && forall i :: 0 <= i < |ids| ==> ids[i] > id)
  {
    var k :| 0 <= k < |all| && all[k] == id;
    if k < |ids| {
      assert ids[k] == id;
    }
  }

  // ----- writes -----

  /** A write that takes effect; `at` is the database clock. */
  datatype Write =
    | Insert(id: int, task: Task, at: int)
    | Patch(req: UpdateTaskRequest, at: int)
    | Remove(id: int, at: int)

  /** When the statement succeeds: a fresh id for an insert, a live row for the others, and values that fit. */
  predicate Allowed(t: Table, w: Write) {
    match w
    case Insert(id, task, _) => id >= 1 && id !in t && Fits(task)
    case Patch(req, _) => IsLive(t, req.id) && Fits(Patched(t[req.id].task, req))
    case Remove(id, _) => IsLive(t, id)
  }

  function After(t: Table, w: Write): Table
    requires Allowed(t, w)
  {
    match w
    case Insert(id, task, at) => t[id := Row(task.(id := id), at, at, None)]
    case Patch(req, at) => t[req.id := t[req.id].(task := Patched(t[req.id].task, req), updatedAt := at)]
    case Remove(id, at) => t[id := t[id].(deletedAt := Some(at))]
  }

  /** The one id a write touches. */
  function Touched(w: Write): int {
    match w
    case Insert(id, _, _) => id
    case Patch(req, _) => req.id
    case Remove(id, _) => id
  }

  lemma UntouchedLookup(t: Table, w: Write, id: int)
    requires Allowed(t, w) && Touched(w) != id
    ensures Lookup(After(t, w), id) == Lookup(t, id)
  {
  }

  /** The live set after a write, as a set. */
  lemma LiveIdsAfter(t: Table, w: Write)
    requires Allowed(t, w)
    ensures LiveIds(After(t, w)) == match w
                                    case Insert(id, _, _) => LiveIds(t) + {id}
                                    case Patch(_, _) => LiveIds(t)
                                    case Remove(id, _) => LiveIds(t) - {id}
  {
    var t' := After(t, w);
    forall x ensures IsLive(t', x) == match w
                                      case Insert(id, _, _) => IsLive(t, x) || x == id
                                      case Patch(_, _) => IsLive(t, x)
                                      case Remove(id, _) => IsLive(t, x) && x != id
    {
    }
    LiveIdsMembers(t);
    LiveIdsMembers(t');
  }

  lemma LiveIdsMembers(t: Table)
    ensures forall x :: x in LiveIds(t) <==> IsLive(t, x)
  {
  }

  /** Only inserts and removals move the count, each by one. */
  lemma CountAfter(t: Table, w: Write)
    requires Allowed(t, w)
    ensures LiveCount(After(t, w)) ==
            LiveCount(t) + (match w case Insert(_, _, _) => 1 case Patch(_, _) => 0 case Remove(_, _) => -1)
  {
    LiveIdsAfter(t, w);
    LiveIdsMembers(t);
  }

  // ----- descending order -----

  ghost predicate StrictlyDescending(s: seq<int>) {
    forall i, j :: 0 <= i < j < |s| ==> s[i] > s[j]
  }

  lemma {:induction false} HasMaximum(ids: set<int>)
    requires ids != {}
    ensures exists m :: m in ids && forall x :: x in ids ==> x <= m
  {
    if forall x :: x !in ids {
      assert false;
    }
    var x :| x in ids;
    var rest := ids - {x};
    if rest == {} {
      assert forall y :: y in ids ==> y == x || y in rest;
    } else {
      HasMaximum(rest);
      var m :| m in rest && forall y :: y in rest ==> y <= m;
      var top := Max(x, m);
      forall y | y in ids ensures y <= top {
        assert y == x || y in rest;
      }
      assert top in ids;
    }
  }

  function Largest(ids: set<int>): (m: int)
    requires ids != {}
    ensures m in ids && forall x :: x in ids ==> x <= m
  {
    HasMaximum(ids);
    var m :| m in ids && forall x :: x in ids ==> x <= m;
    m
  }

  /** The ids of a set from the largest down. */
  function Descending(ids: set<int>): (s: seq<int>)
    ensures |s| == |ids|
    ensures StrictlyDescending(s)
    ensures forall x :: x in s <==> x in ids
  {
    if ids == {} then [] else var m := Largest(ids); [m] + Descending(ids - {m})
  }

  ghost predicate SameMembers(s: seq<int>, t: seq<int>) {
    forall x :: x in s <==> x in t
  }

  /** Descending sequences of the same members start alike and go on with the same members. */
  lemma DescendingHead(s: seq<int>, t: seq<int>)
    requires StrictlyDescending(s) && StrictlyDescending(t) && SameMembers(s, t) && s != [] && t != []
    ensures s[0] == t[0] && SameMembers(s[1..], t[1..])
  {
    assert s[0] in t && t[0] in s;
    forall x ensures x in s[1..] <==> x in t[1..] {
      TailMember(s, x);
      TailMember(t, x);
    }
  }

  lemma TailMember(s: seq<int>, x: int)
    requires StrictlyDescending(s) && s != []
    ensures x in s[1..] <==> x in s && x != s[0]
  {
    if x in s && x != s[0] {
      var i :| 0 <= i < |s| && s[i] == x;
      assert s[1..][i - 1] == x;
    }
  }

  lemma {:induction false} DescendingSame(s: seq<int>, t: seq<int>)
    requires StrictlyDescending(s) && StrictlyDescending(t) && SameMembers(s, t)
    ensures s == t
  {
    if s != [] && t != [] {
      DescendingHead(s, t);
      DescendingSame(s[1..], t[1..]);
      assert s == [s[0]] + s[1..] && t == [t[0]] + t[1..];
    } else {
      EmptyAlone(s, t);
      EmptyAlone(t, s);
    }
  }

  lemma EmptyAlone(s: seq<int>, t: seq<int>)
    requires SameMembers(s, t)
    ensures s == [] ==> t == []
  {
    if t != [] {
      var x := t[0];
      assert x in t;
      assert x in s;
    }
  }

  /** There is only one way to list a set in descending order. */
  lemma DescendingUnique(s: seq<int>, ids: set<int>)
    requires StrictlyDescending(s)
    requires forall x :: x in s <==> x in ids
    ensures s == Descending(ids)
  {
    DescendingSame(s, Descending(ids));
  }
}
