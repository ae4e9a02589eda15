/** The cache decorator under concurrency: a transition system in which every SQL statement, cache command and script
    is one atomic step of one client, clients interleave freely, and any command may be lost or lose its reply. */
module CacheProtocol {
  import opened Prelude
  import opened Tasks
  import opened TaskTable
  import opened Redis

  type Client = nat

  /** The state of the database a value was read from, and the instant of the read. */
  datatype Snapshot = Snapshot(version: nat, readAt: nat)

  /** Where a cached value came from.  `missed` are the later writes of that task whose eviction was over when the
      value was stored. */
  datatype Origin = Origin(snap: Snapshot, storedAt: nat, missed: set<nat>)

  datatype Lease = Lease(token: string, until: nat)

  datatype Counted = Counted(n: int, snap: Snapshot)

  /** Where a call stands.  `since` is what the history said when the call began; `version` is the version a write
      committed. */
  datatype Proc =
    | Idle
      // GetByID
    | GetLoading(id: int)
    | GetReading(id: int)
    | GetStoring(id: int, task: Task, snap: Snapshot)
    | GetDone(id: int, task: Task, snap: Snapshot)
      // List
    | ListStarting(req: ListTasksRequest, since: set<nat>)
    | ListLoading(req: ListTasksRequest, since: set<nat>, generation: string)
    | ListReading(req: ListTasksRequest, since: set<nat>, under: Option<string>)
    | ListStoring(req: ListTasksRequest, since: set<nat>, generation: string, page: seq<Task>, snap: Snapshot)
    | ListDone(req: ListTasksRequest, since: set<nat>, page: seq<Task>, snap: Snapshot)
      // Count
    | CountLoading(since: set<nat>, deadline: nat)
    | CountMissed(since: set<nat>, deadline: nat)
    | CountLocking(since: set<nat>, deadline: nat, token: string)
    | CountRechecking(since: set<nat>, deadline: nat, lease: Lease)
    | CountFilling(since: set<nat>, deadline: nat, lease: Lease)
    | CountSetting(since: set<nat>, deadline: nat, lease: Lease, result: Counted)
    | CountBypassing(since: set<nat>, deadline: nat, held: Option<Lease>)
    | CountReleasing(since: set<nat>, lease: Lease, answer: Option<Counted>)
    | CountDone(since: set<nat>, result: Counted)
      // Create, Update and Delete, once their write has committed
    | Evicting(version: nat)
    | Retiring(version: nat)
    | Invalidating(version: nat)
    | Locking(version: nat, limit: nat, token: string)
    | Deleting(version: nat, limit: nat, lease: Lease)
    | Releasing(version: nat, lease: Lease)

  /** A client between calls. */
  predicate AtRest(p: Proc) {
    p.Idle? || p.GetDone? || p.ListDone? || p.CountDone?
  }

  function LeaseOf(p: Proc): Option<Lease> {
    match p
    case CountRechecking(_, _, lease) => Some(lease)
    case CountFilling(_, _, lease) => Some(lease)
    case CountSetting(_, _, lease, _) => Some(lease)
    case CountBypassing(_, _, held) => held
    case CountReleasing(_, lease, _) => Some(lease)
    case Deleting(_, _, lease) => Some(lease)
    case Releasing(_, lease) => Some(lease)
    case _ => None
  }

  /** What has happened so far.  No guard and no command looks at it; the sets hold versions of writes. */
  datatype History = History(
    born: map<string, nat>,       // generation token -> version of the database when it was installed
    retired: set<nat>,            // the generation token was replaced after this write
    retireLost: set<nat>,
    evicted: set<nat>,            // the task key was deleted after this write
    evictLost: set<nat>,
    locked: set<nat>,             // the count lock was taken after this write
    invalidated: set<nat>,        // the count key was deleted after this write
    invalidateLost: set<nat>)

  /** `ttl` is the lifetime of cached data; `countTimeout` bounds one `Count` call (the service gives it 2 s). */
  datatype Config = Config(ttl: nat, countTimeout: nat)

  datatype State = State(
    cfg: Config,
    db: seq<Table>,               // db[v] is the table after v writes
    log: seq<Write>,              // log[v] takes db[v] to db[v + 1]
    owner: seq<Client>,           // who issued log[v]
    commitAt: seq<nat>,           // when db[v] came about
    store: Store,
    origin: map<Key, Origin>,
    drawn: map<string, Client>,   // every random token so far and who drew it
    procs: map<Client, Proc>,
    h: History)
  {
    function At(c: Client): Proc {
      if c in procs then procs[c] else Idle
    }

    function To(c: Client, p: Proc): State {
      this.(procs := procs[c := p])
    }

    function Version(): nat {
      if db == [] then 0 else |db| - 1
    }

    function Latest(): Table {
      if db == [] then map[] else db[|db| - 1]
    }

    /** The write that led to version `v`. */
    function Issued(v: nat): Write {
      if 1 <= v <= |log| then log[v - 1] else Remove(0, 0)
    }

    function Now(): nat {
      store.now
    }

    function Token(): Option<string> {
      var v := store.Get(GenerationKey);
      if v.Some? && v.value.TokenValue? then Some(v.value.token) else None
    }
  }

  predicate Initial(s: State) {
    && s.cfg.ttl > 0
    && |s.db| == 1 && s.log == [] && s.owner == [] && |s.commitAt| == 1 && s.commitAt[0] <= s.Now()
    && s.store.entries == map[] && s.origin == map[] && s.drawn == map[] && s.procs == map[]
    && s.h == History(map[], {}, {}, {}, {}, {}, {}, {})
  }

  // ----- labels -----

  datatype EnvStep = Wait(ms: nat) | Drop(k: Key)

  datatype GetStep = GetBegin(id: int) | GetLoad(o: Outcome) | GetRead(ok: bool) | GetStore(o: Outcome)

  datatype ListStep =
    | ListBegin(req: ListTasksRequest)
    | ListToken(text: string, o: Outcome)
    | ListLoad(o: Outcome)
    | ListRead(ok: bool)
    | ListStore(o: Outcome)

  datatype CountStep =
    | CountBegin
    | CountLoad(o: Outcome)
    | CountDraw(text: string)
    | CountTryLock(o: Outcome)
    | CountRecheck(o: Outcome)
    | CountRead(ok: bool)
    | CountSet(o: Outcome)
    | CountRelease(o: Outcome)

  datatype WriteStep =
    | Commit(write: Write, acked: bool)
    | Evict(o: Outcome)
    | Retire(text: string, o: Outcome)
    | Draw(text: string)
    | TryLock(o: Outcome)
    | Delete(o: Outcome)
    | Release(o: Outcome)

  datatype Step =
    | Env(e: EnvStep)
    | Getting(c: Client, g: GetStep)
    | Listing(c: Client, l: ListStep)
    | Counting(c: Client, n: CountStep)
    | Writing(c: Client, w: WriteStep)

  // ----- the environment -----

  /** Any key but the count lock may be forgotten. */
  predicate EnvEnabled(s: State, e: EnvStep) {
    e.Drop? ==> e.k != CountLockKey
  }

  function EnvStepped(s: State, e: EnvStep): State {
    match e
    case Wait(ms) => s.(store := s.store.Weathered(ms, {}))
    case Drop(k) => s.(store := s.store.Weathered(0, {k}))
  }

  // ----- GetByID -----

  function Stored(s: State, k: Key, v: Value, snap: Snapshot, missed: set<nat>): State {
    s.(store := s.store.Set(k, v, s.cfg.ttl), origin := s.origin[k := Origin(snap, s.Now(), missed)])
  }

  function SnapOf(s: State, k: Key): Snapshot {
    if k in s.origin then s.origin[k].snap else Snapshot(0, 0)
  }

  function Present(s: State): Snapshot {
    Snapshot(s.Version(), s.Now())
  }

  /** The writes of task `id` newer than version `v` whose eviction is already over. */
  function Missed(s: State, id: int, v: nat): set<nat> {
    set w | w in s.h.evicted && v < w && Touched(s.Issued(w)) == id
  }

  predicate GetEnabled(s: State, c: Client, g: GetStep) {
    match g
    case GetBegin(_) => AtRest(s.At(c))
    case GetLoad(_) => s.At(c).GetLoading?
    case GetRead(_) => s.At(c).GetReading?
    case GetStore(_) => s.At(c).GetStoring?
  }

  function GetStepped(s: State, c: Client, g: GetStep): State
    requires GetEnabled(s, c, g)
  {
    var p := s.At(c);
    match g
    case GetBegin(id) =>
      s.To(c, GetLoading(id))
    case GetLoad(o) =>
      var hit := s.store.Get(TaskKey(p.id));
      if o.Acked? && hit.Some? && hit.value.TaskValue? then
        s.To(c, GetDone(p.id, hit.value.task, SnapOf(s, TaskKey(p.id))))
      else
        s.To(c, GetReading(p.id))
    case GetRead(ok) =>
      var found := Lookup(s.Latest(), p.id);
      if ok && found.Some? then s.To(c, GetStoring(p.id, found.value, Present(s))) else s.To(c, Idle)
    case GetStore(o) =>
      var s' := if o.Effective() then
                  Stored(s, TaskKey(p.id), TaskValue(p.task), p.snap, Missed(s, p.id, p.snap.version))
                else
                  s;
      s'.To(c, GetDone(p.id, p.task, p.snap))
  }

  // ----- List -----

  predicate ListEnabled(s: State, c: Client, l: ListStep) {
    match l
    case ListBegin(_) => AtRest(s.At(c))
    case ListToken(text, _) => s.At(c).ListStarting? && text !in s.drawn
    case ListLoad(_) => s.At(c).ListLoading?
    case ListRead(_) => s.At(c).ListReading?
    case ListStore(_) => s.At(c).ListStoring?
  }

  /** A token is drawn and installed as the current generation. */
  function Installed(s: State, c: Client, text: string): State {
    s.(store := s.store.Set(GenerationKey, TokenValue(text), s.cfg.ttl * GENERATION_TTL_FACTOR),
       drawn := s.drawn[text := c],
       h := s.h.(born := s.h.born[text := s.Version()]))
  }

  function ListStepped(s: State, c: Client, l: ListStep): State
    requires ListEnabled(s, c, l)
  {
    var p := s.At(c);
    match l
    case ListBegin(req) =>
      s.To(c, ListStarting(req, s.h.retired))
    case ListToken(text, o) =>
      var s' := if o.Effective() && s.store.Free(GenerationKey) then Installed(s, c, text)
                else s.(drawn := s.drawn[text := c]);
      if o.Acked? && s'.Token().Some? then s'.To(c, ListLoading(p.req, p.since, s'.Token().value))
      else s'.To(c, ListReading(p.req, p.since, None))
    case ListLoad(o) =>
      var k := PageKey(p.generation, p.req);
      var hit := s.store.Get(k);
      if o.Acked? && hit.Some? && hit.value.PageValue? then
        s.To(c, ListDone(p.req, p.since, hit.value.tasks, SnapOf(s, k)))
      else
        s.To(c, ListReading(p.req, p.since, Some(p.generation)))
    case ListRead(ok) =>
      if ok && p.req.limit >= 0 then
        var page := ListAnswer(s.Latest(), p.req);
        if p.under.Some? then s.To(c, ListStoring(p.req, p.since, p.under.value, page, Present(s)))
        else s.To(c, ListDone(p.req, p.since, page, Present(s)))
      else
        s.To(c, Idle)
    case ListStore(o) =>
      var s' := if o.Effective() then Stored(s, PageKey(p.generation, p.req), PageValue(p.page), p.snap, {}) else s;
      s'.To(c, ListDone(p.req, p.since, p.page, p.snap))
  }

  // ----- Count -----

  /** No reply is seen once the context of the call has run out.  The command may still take effect. */
  predicate SeenInTime(s: State, o: Outcome, deadline: nat) {
    o.Acked? ==> s.Now() < deadline
  }

  predicate CountEnabled(s: State, c: Client, n: CountStep) {
    var p := s.At(c);
    match n
    case CountBegin => AtRest(p)
    case CountLoad(o) => p.CountLoading? && SeenInTime(s, o, p.deadline)
    case CountDraw(text) => p.CountMissed? && text !in s.drawn
    case CountTryLock(o) => p.CountLocking? && SeenInTime(s, o, p.deadline)
    case CountRecheck(o) => p.CountRechecking? && SeenInTime(s, o, p.deadline)
    case CountRead(ok) => (p.CountFilling? || p.CountBypassing?) && (ok ==> s.Now() < p.deadline)
    case CountSet(o) => p.CountSetting? && SeenInTime(s, o, p.deadline)
    case CountRelease(_) => p.CountReleasing?
  }

  function LockTried(s: State, token: string, o: Outcome): State {
    if o.Effective() then s.(store := s.store.SetNX(CountLockKey, TokenValue(token), COUNT_LOCK_TTL)) else s
  }

  function LockReleased(s: State, token: string, o: Outcome): State {
    if o.Effective() then s.(store := s.store.DelIfHolds(CountLockKey, token)) else s
  }

  function CountStepped(s: State, c: Client, n: CountStep): State
    requires CountEnabled(s, c, n)
  {
    var p := s.At(c);
    match n
    case CountBegin =>
      s.To(c, CountLoading(s.h.invalidated, s.Now() + s.cfg.countTimeout))
    case CountLoad(o) =>
      var hit := s.store.Get(CountKey);
      if o.Acked? && hit.None? then s.To(c, CountMissed(p.since, p.deadline))
      else if o.Acked? && hit.value.CountValue? then
        s.To(c, CountDone(p.since, Counted(hit.value.count, SnapOf(s, CountKey))))
      else s.To(c, CountBypassing(p.since, p.deadline, None))
    case CountDraw(text) =>
      s.(drawn := s.drawn[text := c]).To(c, CountLocking(p.since, p.deadline, text))
    case CountTryLock(o) =>
      var s' := LockTried(s, p.token, o);
      if !o.Acked? then s'.To(c, CountBypassing(p.since, p.deadline, None))
      else if s.store.Free(CountLockKey) then
        s'.To(c, CountRechecking(p.since, p.deadline, Lease(p.token, s.Now() + COUNT_LOCK_TTL)))
      else s'
    case CountRecheck(o) =>
      var hit := s.store.Get(CountKey);
      if o.Acked? && hit.None? then s.To(c, CountFilling(p.since, p.deadline, p.lease))
      else if o.Acked? && hit.value.CountValue? then
        s.To(c, CountReleasing(p.since, p.lease, Some(Counted(hit.value.count, SnapOf(s, CountKey)))))
      else s.To(c, CountBypassing(p.since, p.deadline, Some(p.lease)))
    case CountRead(ok) =>
      var result := Counted(LiveCount(s.Latest()), Present(s));
      if p.CountFilling? then
        if ok then s.To(c, CountSetting(p.since, p.deadline, p.lease, result))
        else s.To(c, CountReleasing(p.since, p.lease, None))
      else if p.held.Some? then
        s.To(c, CountReleasing(p.since, p.held.value, if ok then Some(result) else None))
      else
        s.To(c, if ok then CountDone(p.since, result) else Idle)
    case CountSet(o) =>
      var s' := if o.Effective() then Stored(s, CountKey, CountValue(p.result.n), p.result.snap, {}) else s;
      s'.To(c, CountReleasing(p.since, p.lease, Some(p.result)))
    case CountRelease(o) =>
      LockReleased(s, p.lease.token, o).To(c, if p.answer.Some? then CountDone(p.since, p.answer.value) else Idle)
  }

  // ----- Create, Update, Delete -----

  predicate ChangesCount(w: Write) {
    w.Insert? || w.Remove?
  }

  predicate WriteEnabled(s: State, c: Client, w: WriteStep) {
    var p := s.At(c);
    match w
    case Commit(write, _) => AtRest(p) && Allowed(s.Latest(), write)
    case Evict(_) => p.Evicting?
    case Retire(text, _) => p.Retiring? && text !in s.drawn
    case Draw(text) => p.Invalidating? && text !in s.drawn
    case TryLock(o) => p.Locking? && SeenInTime(s, o, p.limit)
    case Delete(o) => p.Deleting? && SeenInTime(s, o, p.limit)
    case Release(_) => p.Releasing?
  }

  function Committed(s: State, c: Client, write: Write): State
    requires Allowed(s.Latest(), write)
  {
    s.(db := s.db + [After(s.Latest(), write)],
       log := s.log + [write],
       owner := s.owner + [c],
       commitAt := s.commitAt + [s.Now()])
  }

  function WriteStepped(s: State, c: Client, w: WriteStep): State
    requires WriteEnabled(s, c, w)
  {
    var p := s.At(c);
    match w
    case Commit(write, acked) =>
      var s', v := Committed(s, c, write), |s.db|;
      if !acked then
        s'.(h := s.h.(evictLost := s.h.evictLost + {v}, retireLost := s.h.retireLost + {v},
                      invalidateLost := s.h.invalidateLost + {v})).To(c, Idle)
      else
        s'.To(c, if write.Insert? then Retiring(v) else Evicting(v))
    case Evict(o) =>
      (if o.Effective() then
         s.(store := s.store.Del(TaskKey(Touched(s.Issued(p.version)))),
            h := s.h.(evicted := s.h.evicted + {p.version}))
       else
         s.(h := s.h.(evictLost := s.h.evictLost + {p.version}))).To(c, Retiring(p.version))
    case Retire(text, o) =>
      var s' := if o.Effective() then Installed(s, c, text) else s.(drawn := s.drawn[text := c]);
      var h' := if o.Effective() then s'.h.(retired := s.h.retired + {p.version})
                else s.h.(retireLost := s.h.retireLost + {p.version});
      s'.(h := h').To(c, if ChangesCount(s.Issued(p.version)) then Invalidating(p.version) else Idle)
    case Draw(text) =>
      s.(drawn := s.drawn[text := c]).To(c, Locking(p.version, s.Now() + COUNT_INVALIDATION_LIMIT, text))
    case TryLock(o) =>
      var s' := LockTried(s, p.token, o);
      if !o.Acked? then
        s'.(h := s.h.(invalidateLost := s.h.invalidateLost + {p.version})).To(c, Idle)
      else if s.store.Free(CountLockKey) then
        s'.(h := s.h.(locked := s.h.locked + {p.version}))
        .To(c, Deleting(p.version, p.limit, Lease(p.token, s.Now() + COUNT_LOCK_TTL)))
      else s'
    case Delete(o) =>
      (if o.Effective() then
         s.(store := s.store.Del(CountKey), h := s.h.(invalidated := s.h.invalidated + {p.version}))
       else
         s.(h := s.h.(invalidateLost := s.h.invalidateLost + {p.version}))).To(c, Releasing(p.version, p.lease))
    case Release(o) =>
      LockReleased(s, p.lease.token, o).To(c, Idle)
  }

  // ----- runs -----

  predicate Enabled(s: State, a: Step) {
    match a
    case Env(e) => EnvEnabled(s, e)
    case Getting(c, g) => GetEnabled(s, c, g)
    case Listing(c, l) => ListEnabled(s, c, l)
    case Counting(c, n) => CountEnabled(s, c, n)
    case Writing(c, w) => WriteEnabled(s, c, w)
  }

  function Stepped(s: State, a: Step): State
    requires Enabled(s, a)
  {
    match a
    case Env(e) => EnvStepped(s, e)
    case Getting(c, g) => GetStepped(s, c, g)
    case Listing(c, l) => ListStepped(s, c, l)
    case Counting(c, n) => CountStepped(s, c, n)
    case Writing(c, w) => WriteStepped(s, c, w)
  }

  /** Whether a schedule can be followed from `s` to its end. */
  predicate Feasible(s: State, run: seq<Step>)
    decreases |run|
  {
    run == [] || (Enabled(s, run[0]) && Feasible(Stepped(s, run[0]), run[1..]))
  }

  function Run(s: State, run: seq<Step>): State
    requires Feasible(s, run)
    decreases |run|
  {
    if run == [] then s else Run(Stepped(s, run[0]), run[1..])
  }
}
