/** The six repository operations as one function of the database, and what every history of them keeps. */
module Database {
  import opened Prelude
  import opened Tasks
  import opened TaskTable
  import opened Statements

  datatype Call =
    | Create(task: Task)
    | GetByID(id: int)
    | List(req: ListTasksRequest)
    | Update(patch: UpdateTaskRequest)
    | Delete(id: int)
    | Count

  datatype Reply =
    | TaskReply(task: Task)
    | PageReply(tasks: seq<Task>)
    | CountReply(count: int)
    | Deleted
    | Failed(error: DbError)

  /** The table and the sequence its ids come from. */
  datatype Db = Db(rows: Table, nextId: int) {
    ghost predicate Valid() {
      nextId >= 1 && forall id :: id in rows ==> id < nextId
    }
  }

  const EMPTY_DB := Db(map[], 1)

  /** What a call does when Postgres alone serves it, at database time `at`. */
  function Served(d: Db, call: Call, at: int): (Db, Reply)
    requires d.Valid()
  {
    match call
    case Create(task) =>
      if Fits(task) then
        (Db(After(d.rows, Insert(d.nextId, task, at)), d.nextId + 1), TaskReply(task.(id := d.nextId)))
      else
        (d.(nextId := d.nextId + 1), Failed(TooLong))
    case GetByID(id) =>
      (d, if IsLive(d.rows, id) then TaskReply(d.rows[id].task) else Failed(NotFound))
    case List(req) =>
      (d, if req.limit < 0 then Failed(NegativeLimit) else PageReply(ListAnswer(d.rows, req)))
    case Update(req) =>
      if !IsLive(d.rows, req.id) then (d, Failed(NotFound))
      else if !Fits(Patched(d.rows[req.id].task, req)) then (d, Failed(TooLong))
      else (d.(rows := After(d.rows, Patch(req, at))), TaskReply(Patched(d.rows[req.id].task, req)))
    case Delete(id) =>
      if IsLive(d.rows, id) then (d.(rows := After(d.rows, Remove(id, at))), Deleted) else (d, Failed(NotFound))
    case Count =>
      (d, CountReply(LiveCount(d.rows)))
  }

  /** Two patches of one task are one patch: the statement is an action of the right-biased merge. */
  lemma PatchesMerge(t: Table, first: UpdateTaskRequest, second: UpdateTaskRequest, at0: int, at1: int)
    requires first.id == second.id && Allowed(t, Patch(first, at0)) && Allowed(After(t, Patch(first, at0)), Patch(second, at1))
    ensures Allowed(t, Patch(Merged(first, second), at1))
    ensures After(After(t, Patch(first, at0)), Patch(second, at1)) == After(t, Patch(Merged(first, second), at1))
  {
    var id := first.id;
    assert Patched(Patched(t[id].task, first), second) == Patched(t[id].task, Merged(first, second));
    assert After(t, Patch(first, at0))[id].task == Patched(t[id].task, first);
  }

  // ----- histories -----

  /** A call, the database time at which it is served, and whether it reaches the database at all. */
  datatype Event = Event(call: Call, at: int, reached: bool)

  /** What an event does when Postgres alone serves it. */
  function Answered(d: Db, e: Event): (r: (Db, Reply))
    requires d.Valid()
    ensures r.0.Valid()
  {
    if e.reached then Served(d, e.call, e.at) else (d, Failed(Unavailable))
  }

  function Ran(d: Db, events: seq<Event>): (r: Db)
    requires d.Valid()
    ensures r.Valid()
    decreases |events|
  {
    if events == [] then d else Ran(Answered(d, events[0]).0, events[1..])
  }

  function Replies(d: Db, events: seq<Event>): (r: seq<Reply>)
    requires d.Valid()
    ensures |r| == |events|
    decreases |events|
  {
    if events == [] then []
    else
      var answered := Answered(d, events[0]);
      [answered.1] + Replies(answered.0, events[1..])
  }

  /** One event after a history. */
  lemma {:induction false} RanMore(d: Db, events: seq<Event>, i: nat)
    requires d.Valid() && i < |events|
    ensures Ran(d, events[..i + 1]) == Answered(Ran(d, events[..i]), events[i]).0
    ensures Replies(d, events)[i] == Answered(Ran(d, events[..i]), events[i]).1
    decreases |events|
  {
    var d' := Answered(d, events[0]).0;
    if i == 0 {
      assert events[..1][1..] == [] && events[..0] == [];
    } else {
      RanMore(d', events[1..], i - 1);
      assert events[..i + 1][1..] == events[1..][..i] && events[..i][1..] == events[1..][..i - 1];
      assert Replies(d, events)[i] == Replies(d', events[1..])[i - 1];
    }
  }

  /** What one call adds to the number of live tasks, read off its reply. */
  function Gain(call: Call, reply: Reply): int {
    if call.Create? && reply.TaskReply? then 1 else if call.Delete? && reply.Deleted? then -1 else 0
  }

  function Gains(events: seq<Event>, replies: seq<Reply>): int
    requires |events| == |replies|
  {
    if events == [] then 0 else Gain(events[0].call, replies[0]) + Gains(events[1..], replies[1..])
  }

  lemma GainIsCount(d: Db, e: Event)
    requires d.Valid()
    ensures var answered := Answered(d, e); LiveCount(answered.0.rows) == LiveCount(d.rows) + Gain(e.call, answered.1)
  {
    match e.call
    case Create(task) => if Fits(task) { CountAfter(d.rows, Insert(d.nextId, task, e.at)); }
    case Update(req) => if Allowed(d.rows, Patch(req, e.at)) { CountAfter(d.rows, Patch(req, e.at)); }
    case Delete(id) => if IsLive(d.rows, id) { CountAfter(d.rows, Remove(id, e.at)); }
    case _ =>
  }

  /** Conservation: over any history the count moves by the successful creates minus the successful deletes. */
  lemma {:induction false} CountIsConserved(d: Db, events: seq<Event>)
    requires d.Valid()
    ensures LiveCount(Ran(d, events).rows) == LiveCount(d.rows) + Gains(events, Replies(d, events))
    decreases |events|
  {
    if events != [] {
      GainIsCount(d, events[0]);
      CountIsConserved(Answered(d, events[0]).0, events[1..]);
    }
  }

  /** From an empty database the count is creates minus deletes, and an unbounded unfiltered list is that long. */
  lemma CountIsListLength(events: seq<Event>, req: ListTasksRequest)
    requires req.status == "" && req.assignee == "" && req.cursor <= 0
    requires req.limit >= Gains(events, Replies(EMPTY_DB, events))
    ensures var d := Ran(EMPTY_DB, events);
            LiveCount(d.rows) == Gains(events, Replies(EMPTY_DB, events)) == |ListAnswer(d.rows, req)|
  {
    CountIsConserved(EMPTY_DB, events);
    assert LiveIds(EMPTY_DB.rows) == {};
    var t := Ran(EMPTY_DB, events).rows;
    forall id | id in t ensures Matches(req, t[id]) == t[id].Live() {
    }
    assert MatchingIds(t, req) == LiveIds(t);
  }

  // ----- reads see the last write -----

  /** What is known of task `id` after one more call, going by its reply alone. */
  function Learnt(known: Option<Task>, call: Call, reply: Reply, id: int): Option<Task> {
    match call
    case Create(_) => if reply.TaskReply? && reply.task.id == id then Some(reply.task) else known
    case Update(req) => if reply.TaskReply? && req.id == id then Some(reply.task) else known
    case Delete(i) => if reply.Deleted? && i == id then None else known
    case _ => known
  }

  function LastWritten(known: Option<Task>, events: seq<Event>, replies: seq<Reply>, id: int): Option<Task>
    requires |events| == |replies|
    decreases |events|
  {
    if events == [] then known
    else LastWritten(Learnt(known, events[0].call, replies[0], id), events[1..], replies[1..], id)
  }

  lemma LearntIsRow(d: Db, e: Event, id: int)
    requires d.Valid()
    ensures var answered := Answered(d, e);
            Lookup(answered.0.rows, id) == Learnt(Lookup(d.rows, id), e.call, answered.1, id)
  {
  }

  lemma {:induction false} RowIsLastWritten(d: Db, events: seq<Event>, id: int)
    requires d.Valid()
    ensures Lookup(Ran(d, events).rows, id) == LastWritten(Lookup(d.rows, id), events, Replies(d, events), id)
    decreases |events|
  {
    if events != [] {
      LearntIsRow(d, events[0], id);
      RowIsLastWritten(Answered(d, events[0]).0, events[1..], id);
    }
  }

  /** Read your writes: after any history a get answers what the last successful create or update of the id replied,
      and not-found when there was none or a successful deletion came after it. */
  lemma GetReadsLastWrite(events: seq<Event>, id: int, at: int)
    ensures var told := LastWritten(None, events, Replies(EMPTY_DB, events), id);
            Served(Ran(EMPTY_DB, events), GetByID(id), at).1 ==
            if told.Some? then TaskReply(told.value) else Failed(NotFound)
  {
    RowIsLastWritten(EMPTY_DB, events, id);
  }

  // ----- deleted and fresh ids -----

  /** A row that was soft-deleted stays so; its id is known to every later state. */
  predicate Gone(d: Db, id: int) {
    id in d.rows && !d.rows[id].Live()
  }

  lemma GoneStays(d: Db, e: Event, id: int)
    requires d.Valid() && Gone(d, id)
    ensures Gone(Answered(d, e).0, id)
  {
  }

  /** A call that asks for id `id` is told that it is not there, if it reaches the database, and no other call brings
      it up. */
  ghost predicate Unseen(id: int, e: Event, reply: Reply) {
    var missing := Failed(if e.reached then NotFound else Unavailable);
    match e.call
    case GetByID(i) => i == id ==> reply == missing
    case Update(req) => req.id == id ==> reply == missing
    case Delete(i) => i == id ==> reply == missing
    case List(_) => reply.PageReply? ==> forall i :: 0 <= i < |reply.tasks| ==> reply.tasks[i].id != id
    case Create(_) => reply.TaskReply? ==> reply.task.id != id
    case Count => true
  }

  /** No operation sees a gone id again. */
  lemma GoneIsNotFound(d: Db, e: Event, id: int)
    requires d.Valid() && Gone(d, id)
    ensures Unseen(id, e, Answered(d, e).1)
  {
  }

  /** A deleted id stays not found for every operation, in every continuation. */
  lemma {:induction false} DeletedForever(d: Db, events: seq<Event>, id: int, i: nat)
    requires d.Valid() && Gone(d, id) && i < |events|
    ensures Unseen(id, events[i], Replies(d, events)[i])
    decreases |events|
  {
    if i == 0 {
      GoneIsNotFound(d, events[0], id);
    } else {
      GoneStays(d, events[0], id);
      DeletedForever(Answered(d, events[0]).0, events[1..], id, i - 1);
      assert Replies(d, events)[i] == Replies(Answered(d, events[0]).0, events[1..])[i - 1];
    }
  }

  lemma IdsGrow(d: Db, e: Event)
    requires d.Valid()
    ensures var answered := Answered(d, e);
            && d.nextId <= answered.0.nextId
            && (e.call.Create? && answered.1.TaskReply? ==> d.nextId == answered.1.task.id < answered.0.nextId)
  {
  }

  lemma {:induction false} LaterIds(d: Db, events: seq<Event>, j: nat)
    requires d.Valid() && j < |events| && events[j].call.Create? && Replies(d, events)[j].TaskReply?
    ensures Replies(d, events)[j].task.id >= d.nextId
    decreases |events|
  {
    IdsGrow(d, events[0]);
    if j > 0 {
      LaterIds(Answered(d, events[0]).0, events[1..], j - 1);
    }
  }

  /** Ids are never reused: later creates get larger ids. */
  lemma {:induction false} IdsNeverReused(d: Db, events: seq<Event>, i: nat, j: nat)
    requires d.Valid() && i < j < |events| && events[i].call.Create? && events[j].call.Create?
    requires Replies(d, events)[i].TaskReply? && Replies(d, events)[j].TaskReply?
    ensures Replies(d, events)[i].task.id < Replies(d, events)[j].task.id
    decreases |events|
  {
    var answered := Answered(d, events[0]);
    IdsGrow(d, events[0]);
    if i == 0 {
      LaterIds(answered.0, events[1..], j - 1);
    } else {
      IdsNeverReused(answered.0, events[1..], i - 1, j - 1);
    }
  }
}
