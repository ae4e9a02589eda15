/** Schedules that show where the guarantees of the cache end. */
module CacheWitnesses {
  import opened Prelude
  import opened Tasks
  import opened TaskTable
  import opened Redis
  import opened CacheProtocol
  import opened CacheProvenance
  import opened TaskGuarantee
  import opened CountFreshness
  import opened CacheTheorems
  import opened ListFreshness

  /** Appending one step to a schedule. */
  lemma {:induction false} Then(s: State, run: seq<Step>, a: Step)
    requires Feasible(s, run) && Enabled(Run(s, run), a)
    ensures Feasible(s, run + [a]) && Run(s, run + [a]) == Stepped(Run(s, run), a)
    decreases |run|
  {
    if run == [] {
      assert Feasible(Stepped(s, a), []);
    } else {
      assert (run + [a])[1..] == run[1..] + [a];
      Then(Stepped(s, run[0]), run[1..], a);
    }
  }

  /** One schedule after another. */
  lemma {:induction false} Joined(s: State, first: seq<Step>, second: seq<Step>)
    requires Feasible(s, first) && Feasible(Run(s, first), second)
    ensures Feasible(s, first + second) && Run(s, first + second) == Run(Run(s, first), second)
    decreases |first|
  {
    if first == [] {
      assert first + second == second;
    } else {
      assert (first + second)[1..] == first[1..] + second;
      Joined(Stepped(s, first[0]), first[1..], second);
    }
  }

  lemma Single(s: State, a: Step)
    requires Enabled(s, a)
    ensures Feasible(s, [a]) && Run(s, [a]) == Stepped(s, a)
  {
    Then(s, [], a);
    assert [] + [a] == [a];
  }

  lemma Pair(s: State, a: Step, b: Step)
    requires Enabled(s, a) && Enabled(Stepped(s, a), b)
    ensures Feasible(s, [a] + [b]) && Run(s, [a] + [b]) == Stepped(Stepped(s, a), b)
  {
    Single(s, a);
    Then(s, [a], b);
  }

  predicate StoresNoCount(run: seq<Step>) {
    forall i :: 0 <= i < |run| ==> !(run[i].Counting? && run[i].n.CountSet?)
  }

  lemma {:induction false} QuietInTime(s: State, run: seq<Step>)
    requires Feasible(s, run) && StoresNoCount(run)
    ensures NoLateFills(s, run)
    decreases |run|
  {
    if run != [] {
      assert StoresNoCount(run[1..]);
      QuietInTime(Stepped(s, run[0]), run[1..]);
    }
  }

  /** One schedule without late fills after another. */
  lemma {:induction false} JoinedInTime(s: State, first: seq<Step>, second: seq<Step>)
    requires Feasible(s, first) && Feasible(Run(s, first), second)
    requires NoLateFills(s, first) && NoLateFills(Run(s, first), second)
    ensures Feasible(s, first + second) && NoLateFills(s, first + second)
    decreases |first|
  {
    if first == [] {
      assert first + second == second;
    } else {
      assert (first + second)[1..] == first[1..] + second;
      JoinedInTime(Stepped(s, first[0]), first[1..], second);
    }
  }

  lemma OnlyInTime(s: State, a: Step)
    requires Enabled(s, a) && FillsInTime(s, a)
    ensures Feasible(s, [a]) && NoLateFills(s, [a])
  {
    assert [a][1..] == [];
  }

  lemma QuietThen(s: State, first: seq<Step>, second: seq<Step>)
    requires Feasible(s, first) && Feasible(Run(s, first), second)
    requires StoresNoCount(first) && NoLateFills(Run(s, first), second)
    ensures Feasible(s, first + second) && NoLateFills(s, first + second)
    ensures Run(s, first + second) == Run(Run(s, first), second)
  {
    Joined(s, first, second);
    QuietInTime(s, first);
    JoinedInTime(s, first, second);
  }

  // ----- a fill that overtakes an eviction -----

  /** Client `a` misses, or its lookup fails, and reads the row. */
  function ReadRow(a: Client, id: int, load: Outcome): seq<Step> {
    [Getting(a, GetBegin(id)), Getting(a, GetLoad(load)), Getting(a, GetRead(true))]
  }

  /** Client `b` updates the task; its eviction and its token replacement both succeed. */
  function UpdateRow(b: Client, write: Write, text: string): seq<Step> {
    [Writing(b, Commit(write, true)), Writing(b, Evict(Acked)), Writing(b, Retire(text, Acked))]
  }

  /** The lookup finds nothing, or fails. */
  predicate Misses(s: State, id: int, load: Outcome) {
    load.Acked? ==> s.store.Get(TaskKey(id)).None?
  }

  lemma LoadingRow(s: State, a: Client, id: int, load: Outcome)
    requires AtRest(s.At(a)) && Misses(s, id, load)
    ensures var begin, look := Getting(a, GetBegin(id)), Getting(a, GetLoad(load));
            && Enabled(s, begin) && Enabled(Stepped(s, begin), look)
            && Stepped(Stepped(s, begin), look) == s.To(a, GetReading(id))
  {
    assert s.procs[a := GetLoading(id)][a := GetReading(id)] == s.procs[a := GetReading(id)];
  }

  lemma ReadingRow(s: State, a: Client, id: int, load: Outcome)
    requires AtRest(s.At(a)) && IsLive(s.Latest(), id) && Misses(s, id, load)
    ensures Feasible(s, ReadRow(a, id, load))
    ensures Run(s, ReadRow(a, id, load)) == s.To(a, GetStoring(id, s.Latest()[id].task, Present(s)))
  {
    var run := ReadRow(a, id, load);
    LoadingRow(s, a, id, load);
    Pair(s, run[0], run[1]);
    Then(s, [run[0]] + [run[1]], run[2]);
    assert run == [run[0]] + [run[1]] + [run[2]];
    var p := GetStoring(id, s.Latest()[id].task, Present(s));
    assert s.procs[a := GetReading(id)][a := p] == s.procs[a := p];
  }

  lemma CommitStep(s: State, b: Client, write: Write)
    requires AtRest(s.At(b)) && write.Patch? && Allowed(s.Latest(), write) && |s.log| + 1 == |s.db|
    ensures var s' := Stepped(s, Writing(b, Commit(write, true)));
            && s'.At(b) == Evicting(|s.db|) && s'.db == s.db + [After(s.Latest(), write)] && s'.log == s.log + [write]
            && s'.procs == s.procs[b := Evicting(|s.db|)] && s'.cfg == s.cfg && s'.store == s.store
            && s'.h == s.h && s'.drawn == s.drawn
  {
  }

  lemma EvictStep(s: State, b: Client)
    requires s.At(b).Evicting?
    ensures var s', v := Stepped(s, Writing(b, Evict(Acked))), s.At(b).version;
            && s'.procs == s.procs[b := Retiring(v)] && s'.db == s.db && s'.log == s.log && s'.cfg == s.cfg
            && s'.drawn == s.drawn && s'.h.evictLost == s.h.evictLost
  {
  }

  lemma RetireListsStep(s: State, b: Client, text: string)
    requires s.At(b).Retiring? && text !in s.drawn && s.Issued(s.At(b).version).Patch?
    ensures var s' := Stepped(s, Writing(b, Retire(text, Acked)));
            && s'.procs == s.procs[b := Idle] && s'.db == s.db && s'.log == s.log && s'.cfg == s.cfg
            && s'.h.evictLost == s.h.evictLost
  {
  }

  /** The database after an update that ran to its end, with no eviction lost. */
  ghost predicate Updated(s: State, s': State, b: Client, write: Write)
    requires Allowed(s.Latest(), write)
  {
    && s'.db == s.db + [After(s.Latest(), write)] && s'.log == s.log + [write] && s'.cfg == s.cfg
    && s'.procs == s.procs[b := Idle] && s'.h.evictLost == s.h.evictLost
  }

  lemma UpdateSteps(s: State, b: Client, write: Write, text: string, s1: State, s2: State)
    requires AtRest(s.At(b)) && write.Patch? && Allowed(s.Latest(), write) && text !in s.drawn && |s.log| + 1 == |s.db|
    requires s1 == Stepped(s, Writing(b, Commit(write, true))) && s1.At(b).Evicting?
    requires s2 == Stepped(s1, Writing(b, Evict(Acked)))
    ensures Enabled(s2, Writing(b, Retire(text, Acked)))
    ensures Updated(s, Stepped(s2, Writing(b, Retire(text, Acked))), b, write)
  {
    CommitStep(s, b, write);
    EvictStep(s1, b);
    RetireListsStep(s2, b, text);
    assert s.procs[b := Evicting(|s.db|)][b := Retiring(|s.db|)][b := Idle] == s.procs[b := Idle];
  }

  lemma UpdatingRow(s: State, b: Client, write: Write, text: string)
    requires AtRest(s.At(b)) && write.Patch? && Allowed(s.Latest(), write) && text !in s.drawn && |s.log| + 1 == |s.db|
    ensures Feasible(s, UpdateRow(b, write, text)) && Updated(s, Run(s, UpdateRow(b, write, text)), b, write)
  {
    var run := UpdateRow(b, write, text);
    CommitStep(s, b, write);
    var s1 := Stepped(s, run[0]);
    UpdateSteps(s, b, write, text, s1, Stepped(s1, run[1]));
    Pair(s, run[0], run[1]);
    Then(s, [run[0]] + [run[1]], run[2]);
    assert run == [run[0]] + [run[1]] + [run[2]];
  }

  lemma StoringRow(s: State, a: Client)
    requires s.At(a).GetStoring? && s.cfg.ttl > 0
    ensures var run, p := [Getting(a, GetStore(Acked))], s.At(a);
            && Feasible(s, run) && var s' := Run(s, run);
            && s'.store.Get(TaskKey(p.id)) == Some(TaskValue(p.task)) && SnapOf(s', TaskKey(p.id)) == p.snap
            && s'.db == s.db && s'.log == s.log && s'.h == s.h && s'.procs == s.procs[a := GetDone(p.id, p.task, p.snap)]
  {
    Single(s, Getting(a, GetStore(Acked)));
  }

  /** Client `a` reads the row, client `b` updates it and evicts, and then `a` stores what it read. */
  function OvertakingRun(a: Client, b: Client, write: Write, text: string, load: Outcome): seq<Step> {
    ReadRow(a, Touched(write), load) + (UpdateRow(b, write, text) + [Getting(a, GetStore(Acked))])
  }

  /** Where such a schedule ends: client `a` has stored the row `task` it read, and the update's row is live. */
  ghost predicate OldRowCached(s: State, s': State, a: Client, b: Client, write: Write, task: Task, snap: Snapshot)
    requires Allowed(s.Latest(), write)
  {
    var k := TaskKey(Touched(write));
    && s'.store.Get(k) == Some(TaskValue(task)) && SnapOf(s', k) == snap
    && s'.db == s.db + [After(s.Latest(), write)] && s'.log == s.log + [write] && s'.h.evictLost == s.h.evictLost
    && s'.At(a).GetDone? && s'.At(b).Idle? && forall c :: c != a && c != b ==> s'.At(c) == s.At(c)
  }

  /** The second half: with client `a` about to store what it read, the update runs to its end first. */
  lemma UpdateThenStore(s: State, a: Client, b: Client, write: Write, text: string)
    requires s.At(a).GetStoring? && s.cfg.ttl > 0 && a != b && AtRest(s.At(b)) && text !in s.drawn
    requires write.Patch? && Allowed(s.Latest(), write) && |s.log| + 1 == |s.db| && s.At(a).id == Touched(write)
    ensures var run, p := UpdateRow(b, write, text) + [Getting(a, GetStore(Acked))], s.At(a);
            Feasible(s, run) && OldRowCached(s, Run(s, run), a, b, write, p.task, p.snap)
  {
    UpdatingRow(s, b, write, text);
    var s1 := Run(s, UpdateRow(b, write, text));
    assert s1.At(a) == s.At(a);
    StoringRow(s1, a);
    Joined(s, UpdateRow(b, write, text), [Getting(a, GetStore(Acked))]);
  }

  lemma SeenFromStart(s: State, s1: State, s': State, a: Client, b: Client, write: Write, task: Task, snap: Snapshot)
    requires s1 == s.To(a, s1.At(a)) && Allowed(s.Latest(), write) && OldRowCached(s1, s', a, b, write, task, snap)
    ensures OldRowCached(s, s', a, b, write, task, snap)
  {
  }

  /** From the state `s1` in which `a` has read the row. */
  lemma OldRowStored(s: State, s1: State, a: Client, b: Client, write: Write, text: string)
    requires |s.db| == |s.log| + 1 && s.cfg.ttl > 0 && text !in s.drawn && a != b && AtRest(s.At(b))
    requires write.Patch? && Allowed(s.Latest(), write)
    requires s1 == s.To(a, GetStoring(Touched(write), s.Latest()[Touched(write)].task, Present(s)))
    ensures var run := UpdateRow(b, write, text) + [Getting(a, GetStore(Acked))];
            && Feasible(s1, run)
            && OldRowCached(s, Run(s1, run), a, b, write, s.Latest()[Touched(write)].task, Present(s))
  {
    UpdateThenStore(s1, a, b, write, text);
    SeenFromStart(s, s1, Run(s1, UpdateRow(b, write, text) + [Getting(a, GetStore(Acked))]), a, b, write,
                  s.Latest()[Touched(write)].task, Present(s));
  }

  /** No single-task fence: from any state of the protocol with a live row, a fill that reads before an update of the
      row and stores after that update's eviction leaves the old row in the cache. */
  lemma OvertakingLeavesOldRow(s: State, a: Client, b: Client, write: Write, text: string, load: Outcome)
    requires |s.db| == |s.log| + 1 && s.cfg.ttl > 0 && text !in s.drawn
    requires a != b && AtRest(s.At(a)) && AtRest(s.At(b))
    requires write.Patch? && Allowed(s.Latest(), write) && Misses(s, Touched(write), load)
    ensures Feasible(s, OvertakingRun(a, b, write, text, load))
    ensures OldRowCached(s, Run(s, OvertakingRun(a, b, write, text, load)), a, b, write,
                         s.Latest()[Touched(write)].task, Present(s))
  {
    ReadingRow(s, a, Touched(write), load);
    OldRowStored(s, Run(s, ReadRow(a, Touched(write), load)), a, b, write, text);
    Joined(s, ReadRow(a, Touched(write), load), UpdateRow(b, write, text) + [Getting(a, GetStore(Acked))]);
  }

  lemma OldRowLags(s: State, s': State, a: Client, b: Client, write: Write, task: Task)
    requires |s.db| == |s.log| + 1 == 1 && write.Patch? && Allowed(s.Latest(), write)
    requires s.h.evictLost == {} && s.procs == map[] && OldRowCached(s, s', a, b, write, task, Present(s))
    ensures s'.h.evictLost == {} && (forall c :: AtRest(s'.At(c)))
    ensures EvictionsSettled(s', Touched(write)) && Changes(s', 1, Touched(write))
    ensures SnapOf(s', TaskKey(Touched(write))).version == 0
  {
    forall c ensures AtRest(s'.At(c)) {
      assert c == a || c == b || s'.At(c) == s.At(c);
    }
    forall c | c in s'.procs ensures AtRest(s'.procs[c]) {
      assert AtRest(s'.At(c));
    }
  }

  /** Nothing lost, nothing pending, and yet the cached row is not the live one: from an empty cache, with every command
      of the schedule acknowledged, all clients at rest at its end, and the update changing the row. */
  lemma SettledYetStale(s: State, a: Client, b: Client, write: Write, text: string)
    requires Initial(s) && a != b && write.Patch? && Allowed(s.Latest(), write)
    requires Patched(s.Latest()[Touched(write)].task, write.req) != s.Latest()[Touched(write)].task
    ensures Feasible(s, OvertakingRun(a, b, write, text, Acked))
    ensures var s', id := Run(s, OvertakingRun(a, b, write, text, Acked)), Touched(write);
            && s'.h.evictLost == {} && (forall c :: AtRest(s'.At(c)))
            && EvictionsSettled(s', id) && Overtaken(s', id)
            && s'.store.Get(TaskKey(id)).Some? && Lookup(s'.Latest(), id).Some?
            && s'.store.Get(TaskKey(id)) != Some(TaskValue(Lookup(s'.Latest(), id).value))
  {
    var run, id := OvertakingRun(a, b, write, text, Acked), Touched(write);
    InitialSound(s);
    OvertakingLeavesOldRow(s, a, b, write, text, Acked);
    var s' := Run(s, run);
    OldRowLags(s, s', a, b, write, s.Latest()[id].task);
    RunKeeps(s, run);
    LagIsOvertaken(s', id, 1);
    PatchedLookup(s.Latest(), write);
  }

  lemma LagIsOvertaken(s: State, id: int, w: nat)
    requires Sound(s) && s.store.Get(TaskKey(id)).Some? && EvictionsSettled(s, id)
    requires Changes(s, w, id) && w > SnapOf(s, TaskKey(id)).version
    ensures Overtaken(s, id)
  {
    TaskLags(s, id);
    assert EntryOk(s, TaskKey(id));
    assert Lags(s, id);
  }

  lemma PatchedLookup(t: Table, write: Write)
    requires write.Patch? && Allowed(t, write)
    ensures Lookup(After(t, write), Touched(write)) == Some(Patched(t[Touched(write)].task, write.req))
  {
  }

  /** A write that commits although its client sees an error: the client is done, and a row that was cached stays. */
  lemma LostReplyLeavesOldRow(s: State, b: Client, write: Write)
    requires AtRest(s.At(b)) && write.Patch? && Allowed(s.Latest(), write)
    requires s.store.Get(TaskKey(Touched(write))) == Some(TaskValue(s.Latest()[Touched(write)].task))
    requires Patched(s.Latest()[Touched(write)].task, write.req) != s.Latest()[Touched(write)].task
    ensures var commit, id := Writing(b, Commit(write, false)), Touched(write);
            && Enabled(s, commit) && var s' := Stepped(s, commit);
            && s'.At(b).Idle? && s'.store == s.store && Lookup(s'.Latest(), id).Some?
            && s'.store.Get(TaskKey(id)) != Some(TaskValue(Lookup(s'.Latest(), id).value))
  {
    PatchedLookup(s.Latest(), write);
  }

  // ----- a count that outlasts its lease -----

  /** Client `a` finds no count in the cache. */
  function MissCount(a: Client): seq<Step> {
    [Counting(a, CountBegin), Counting(a, CountLoad(Acked)), Counting(a, CountDraw("a"))]
  }

  /** It takes the lock, counts, and then stalls until its lease is over. */
  function SlowFill(a: Client): seq<Step> {
    [Counting(a, CountTryLock(Acked)), Counting(a, CountRecheck(Acked))]
    + [Counting(a, CountRead(true)), Env(Wait(COUNT_LOCK_TTL))]
  }

  /** Client `b` inserts a task and retires the list pages. */
  function InsertRow(b: Client, write: Write): seq<Step> {
    [Writing(b, Commit(write, true)), Writing(b, Retire("b", Acked))]
  }

  function InvalidateCount(b: Client): seq<Step> {
    [Writing(b, Draw("c")), Writing(b, TryLock(Acked)), Writing(b, Delete(Acked)), Writing(b, Release(Acked))]
  }

  lemma MissingCount(s: State, a: Client)
    requires Initial(s) && s.cfg.countTimeout > 0
    ensures Feasible(s, MissCount(a))
    ensures Run(s, MissCount(a)) ==
            s.To(a, CountLocking({}, s.Now() + s.cfg.countTimeout, "a")).(drawn := map["a" := a])
  {
    var run, deadline := MissCount(a), s.Now() + s.cfg.countTimeout;
    var s1 := s.To(a, CountLoading({}, deadline));
    var s2 := s.To(a, CountMissed({}, deadline));
    var s3 := s.To(a, CountLocking({}, deadline, "a")).(drawn := map["a" := a]);
    assert Stepped(s, run[0]) == s1;
    assert Stepped(s1, run[1]) == s2 by { assert s1.To(a, CountMissed({}, deadline)).procs == s2.procs; }
    assert Stepped(s2, run[2]) == s3 by {
      assert s2.To(a, CountLocking({}, deadline, "a")).procs == s3.procs && s2.drawn["a" := a] == s3.drawn;
    }
    Then(s, [], run[0]);
    Then(s, [run[0]], run[1]);
    Then(s, [run[0], run[1]], run[2]);
    assert run == [] + [run[0]] + [run[1]] + [run[2]];
  }

  lemma LockingForFill(s: State, a: Client)
    requires s.At(a).CountLocking? && s.store.entries == map[] && s.Now() < s.At(a).deadline
    ensures var run, p := SlowFill(a)[..2], s.At(a);
            && Feasible(s, run)
            && Run(s, run) == s.(store := s.store.Set(CountLockKey, TokenValue(p.token), COUNT_LOCK_TTL))
               .To(a, CountRechecking(p.since, p.deadline, Lease(p.token, s.Now() + COUNT_LOCK_TTL)))
               .To(a, CountFilling(p.since, p.deadline, Lease(p.token, s.Now() + COUNT_LOCK_TTL)))
  {
    var lock, recheck := Counting(a, CountTryLock(Acked)), Counting(a, CountRecheck(Acked));
    LockStep(s, a);
    Single(s, lock);
    RecheckStep(Stepped(s, lock), a);
    Then(s, [lock], recheck);
    assert SlowFill(a)[..2] == [lock] + [recheck];
  }

  lemma LockStep(s: State, a: Client)
    requires s.At(a).CountLocking? && s.store.entries == map[] && s.Now() < s.At(a).deadline
    ensures var p := s.At(a);
            Stepped(s, Counting(a, CountTryLock(Acked))) ==
            s.(store := s.store.Set(CountLockKey, TokenValue(p.token), COUNT_LOCK_TTL))
            .To(a, CountRechecking(p.since, p.deadline, Lease(p.token, s.Now() + COUNT_LOCK_TTL)))
  {
  }

  lemma RecheckStep(s: State, a: Client)
    requires s.At(a).CountRechecking? && CountKey !in s.store.entries && s.Now() < s.At(a).deadline
    ensures var p := s.At(a);
            Stepped(s, Counting(a, CountRecheck(Acked))) == s.To(a, CountFilling(p.since, p.deadline, p.lease))
  {
  }

  lemma StallingFill(s: State, a: Client)
    requires s.At(a).CountFilling? && s.Now() < s.At(a).deadline
    ensures var run, p := SlowFill(a)[2..], s.At(a);
            && Feasible(s, run)
            && Run(s, run) == s.(store := Store(s.store.entries - {}, s.Now() + COUNT_LOCK_TTL))
               .To(a, CountSetting(p.since, p.deadline, p.lease, Counted(LiveCount(s.Latest()), Present(s))))
  {
    var run := SlowFill(a)[2..];
    var s1 := Stepped(s, run[0]);
    var s2 := Stepped(s1, run[1]);
    Then(s, [], run[0]);
    Then(s, [run[0]], run[1]);
    assert run == [] + [run[0]] + [run[1]];
  }

  lemma FillingSlowly(s: State, a: Client)
    requires s.At(a).CountLocking? && s.store.entries == map[] && s.Now() + COUNT_LOCK_TTL < s.At(a).deadline
    ensures Feasible(s, SlowFill(a))
    ensures var s', p := Run(s, SlowFill(a)), s.At(a);
            && s'.cfg == s.cfg && s'.db == s.db && s'.log == s.log && s'.h == s.h && s'.drawn == s.drawn
            && s'.procs == s.procs[a := s'.At(a)]
            && s'.At(a) == CountSetting(p.since, p.deadline, Lease(p.token, s.Now() + COUNT_LOCK_TTL),
                                        Counted(LiveCount(s.Latest()), Present(s)))
            && s'.store.Free(CountLockKey) && s'.Now() == s.Now() + COUNT_LOCK_TTL
  {
    LockingForFill(s, a);
    StallingFill(Run(s, SlowFill(a)[..2]), a);
    assert SlowFill(a) == SlowFill(a)[..2] + SlowFill(a)[2..];
    Joined(s, SlowFill(a)[..2], SlowFill(a)[2..]);
  }

  lemma InsertingRow(s: State, b: Client, write: Write)
    requires s.At(b).Idle? && write.Insert? && Allowed(s.Latest(), write) && |s.db| == |s.log| + 1
    requires "b" !in s.drawn && s.store.Free(CountLockKey)
    ensures Feasible(s, InsertRow(b, write))
    ensures var s' := Run(s, InsertRow(b, write));
            && s'.cfg == s.cfg && s'.db == s.db + [After(s.Latest(), write)] && s'.drawn == s.drawn["b" := b]
            && s'.h.invalidated == s.h.invalidated && s'.Now() == s.Now()
            && s'.procs == s.procs[b := Invalidating(|s.db|)] && s'.store.Free(CountLockKey)
  {
    var commit, retire := Writing(b, Commit(write, true)), Writing(b, Retire("b", Acked));
    InsertStep(s, b, write);
    RetireStep(Stepped(s, commit), b);
    Pair(s, commit, retire);
    assert InsertRow(b, write) == [commit] + [retire];
    assert s.procs[b := Retiring(|s.db|)][b := Invalidating(|s.db|)] == s.procs[b := Invalidating(|s.db|)];
  }

  lemma InsertStep(s: State, b: Client, write: Write)
    requires s.At(b).Idle? && write.Insert? && Allowed(s.Latest(), write) && |s.db| == |s.log| + 1
    ensures var s' := Stepped(s, Writing(b, Commit(write, true)));
            && s'.procs == s.procs[b := Retiring(|s.db|)] && s'.db == s.db + [After(s.Latest(), write)]
            && s'.Issued(|s.db|) == write && s'.cfg == s.cfg && s'.store == s.store && s'.h == s.h && s'.drawn == s.drawn
  {
  }

  lemma RetireStep(s: State, b: Client)
    requires s.At(b).Retiring? && "b" !in s.drawn && s.Issued(s.At(b).version).Insert?
    ensures var s' := Stepped(s, Writing(b, Retire("b", Acked)));
            && s'.procs == s.procs[b := Invalidating(s.At(b).version)] && s'.db == s.db && s'.cfg == s.cfg
            && s'.h.invalidated == s.h.invalidated && s'.Now() == s.Now() && s'.drawn == s.drawn["b" := b]
            && (s.store.Free(CountLockKey) ==> s'.store.Free(CountLockKey))
  {
  }

  lemma TakingLock(s: State, b: Client)
    requires s.At(b).Invalidating? && "c" !in s.drawn && s.store.Free(CountLockKey)
    ensures var run := InvalidateCount(b)[..2];
            && Feasible(s, run) && var s' := Run(s, run);
            && s'.cfg == s.cfg && s'.db == s.db && s'.Now() == s.Now() && s'.h.invalidated == s.h.invalidated
            && s'.At(b).Deleting? && s'.At(b).version == s.At(b).version && s.Now() < s'.At(b).limit
            && s'.procs == s.procs[b := s'.At(b)]
  {
    var draw, lock := Writing(b, Draw("c")), Writing(b, TryLock(Acked));
    var s1 := Stepped(s, draw);
    assert s1.At(b) == Locking(s.At(b).version, s.Now() + COUNT_INVALIDATION_LIMIT, "c");
    Single(s, draw);
    Then(s, [draw], lock);
    assert InvalidateCount(b)[..2] == [draw] + [lock];
    assert Stepped(s1, lock).procs == s.procs[b := Stepped(s1, lock).At(b)];
  }

  lemma InvalidatingCount(s: State, b: Client)
    requires s.At(b).Invalidating? && "c" !in s.drawn && s.store.Free(CountLockKey)
    ensures Feasible(s, InvalidateCount(b))
    ensures var s' := Run(s, InvalidateCount(b));
            && s'.cfg == s.cfg && s'.db == s.db && s'.Now() == s.Now() && s'.procs == s.procs[b := Idle]
            && s'.h.invalidated == s.h.invalidated + {s.At(b).version}
  {
    var run := InvalidateCount(b);
    TakingLock(s, b);
    var s2 := Run(s, run[..2]);
    DeletingCount(s2, b);
    assert run == run[..2] + run[2..];
    Joined(s, run[..2], run[2..]);
    assert s.procs[b := Idle] == s2.procs[b := Idle];
  }

  lemma DeletingCount(s: State, b: Client)
    requires s.At(b).Deleting? && s.Now() < s.At(b).limit
    ensures var run := InvalidateCount(b)[2..];
            && Feasible(s, run) && var s' := Run(s, run);
            && s'.cfg == s.cfg && s'.db == s.db && s'.Now() == s.Now() && s'.procs == s.procs[b := Idle]
            && s'.h.invalidated == s.h.invalidated + {s.At(b).version}
  {
    var run := InvalidateCount(b)[2..];
    var s1 := Stepped(s, run[0]);
    assert s1.At(b).Releasing?;
    Then(s, [], run[0]);
    Then(s, [run[0]], run[1]);
    assert run == [] + [run[0]] + [run[1]];
    assert s1.procs[b := Idle] == s.procs[b := Idle];
  }

  lemma StoringCount(s: State, a: Client)
    requires s.At(a).CountSetting? && s.Now() < s.At(a).deadline && s.cfg.ttl > 0
    ensures var last := Counting(a, CountSet(Acked));
            && Enabled(s, last) && var s' := Stepped(s, last);
            && s'.cfg == s.cfg && s'.db == s.db && s'.h == s.h && s'.Now() == s.Now()
            && s'.store.Get(CountKey) == Some(CountValue(s.At(a).result.n)) && s'.procs.Keys == s.procs.Keys + {a}
  {
  }

  lemma InvalidatingThenStoring(s: State, a: Client, b: Client)
    requires s.At(a).CountSetting? && s.Now() < s.At(a).deadline && a != b && s.cfg.ttl > 0
    requires s.At(b).Invalidating? && "c" !in s.drawn && s.store.Free(CountLockKey)
    ensures var run := InvalidateCount(b) + [Counting(a, CountSet(Acked))];
            && Feasible(s, run) && var s' := Run(s, run);
            && s'.cfg == s.cfg && s'.db == s.db && s'.Now() == s.Now()
            && s'.h.invalidated == s.h.invalidated + {s.At(b).version}
            && s'.store.Get(CountKey) == Some(CountValue(s.At(a).result.n)) && s'.procs.Keys == s.procs.Keys + {a, b}
            && NoLateFills(s, run)
  {
    hide Feasible, Run, NoLateFills, Stepped;
    InvalidatingCount(s, b);
    var s1 := Run(s, InvalidateCount(b));
    assert s1.At(a) == s.At(a);
    StoringCount(s1, a);
    Single(s1, Counting(a, CountSet(Acked)));
    OnlyInTime(s1, Counting(a, CountSet(Acked)));
    QuietThen(s, InvalidateCount(b), [Counting(a, CountSet(Acked))]);
  }

  /** The insert and its invalidation run to their end while client `a` is stalled; then `a` stores its count. */
  function Overtake(a: Client, b: Client, write: Write): seq<Step> {
    InsertRow(b, write) + (InvalidateCount(b) + [Counting(a, CountSet(Acked))])
  }

  lemma Overtaking(s: State, a: Client, b: Client, write: Write)
    requires s.At(a).CountSetting? && s.Now() < s.At(a).deadline && s.At(b).Idle? && a != b && s.cfg.ttl > 0
    requires write.Insert? && Allowed(s.Latest(), write) && |s.db| == |s.log| + 1
    requires "b" !in s.drawn && "c" !in s.drawn && s.store.Free(CountLockKey)
    ensures Feasible(s, Overtake(a, b, write))
    ensures var s' := Run(s, Overtake(a, b, write));
            && s'.cfg == s.cfg && s'.db == s.db + [After(s.Latest(), write)]
            && s'.h.invalidated == s.h.invalidated + {|s.db|}
            && s'.store.Get(CountKey) == Some(CountValue(s.At(a).result.n))
            && s'.procs.Keys == s.procs.Keys + {a, b} && s'.Now() == s.Now()
    ensures NoLateFills(s, Overtake(a, b, write))
  {
    hide Feasible, Run, NoLateFills, LiveCount, After;
    InsertingRow(s, b, write);
    var s1 := Run(s, InsertRow(b, write));
    assert s1.At(a) == s.At(a) && s1.At(b) == Invalidating(|s.db|);
    InvalidatingThenStoring(s1, a, b);
    QuietThen(s, InsertRow(b, write), InvalidateCount(b) + [Counting(a, CountSet(Acked))]);
  }

  /** Everything up to the moment the stalled fill stores its count. */
  function StaleBefore(a: Client, b: Client, write: Write): seq<Step> {
    MissCount(a) + (SlowFill(a) + Overtake(a, b, write))
  }

  lemma StallingOvertaken(s: State, a: Client, b: Client, write: Write)
    requires s.At(a).CountLocking? && s.Now() + COUNT_LOCK_TTL < s.At(a).deadline && s.At(b).Idle? && a != b
    requires s.store.entries == map[] && s.drawn == map["a" := a] && s.cfg.ttl > 0
    requires write.Insert? && Allowed(s.Latest(), write) && |s.db| == |s.log| + 1
    ensures var run := SlowFill(a) + Overtake(a, b, write);
            && Feasible(s, run) && NoLateFills(s, run) && var s' := Run(s, run);
            && s'.cfg == s.cfg && s'.db == s.db + [After(s.Latest(), write)]
            && s'.h.invalidated == s.h.invalidated + {|s.db|}
            && s'.store.Get(CountKey) == Some(CountValue(LiveCount(s.Latest()))) && s'.procs.Keys == s.procs.Keys + {a, b}
  {
    hide Feasible, Run, NoLateFills, LiveCount, After;
    FillingSlowly(s, a);
    var s1 := Run(s, SlowFill(a));
    assert s1.At(b).Idle?;
    Overtaking(s1, a, b, write);
    QuietThen(s, SlowFill(a), Overtake(a, b, write));
  }

  lemma StaleBeforeRuns(s: State, a: Client, b: Client, write: Write)
    requires Initial(s) && s.cfg.countTimeout > COUNT_LOCK_TTL && a != b
    requires write.Insert? && Allowed(s.Latest(), write)
    ensures Feasible(s, StaleBefore(a, b, write))
    ensures var s' := Run(s, StaleBefore(a, b, write));
            && s'.cfg == s.cfg && s'.db == s.db + [After(s.db[0], write)] && s'.h.invalidated == {1}
            && s'.store.Get(CountKey) == Some(CountValue(LiveCount(s.db[0]))) && s'.procs.Keys == {a, b}
    ensures NoLateFills(s, StaleBefore(a, b, write))
  {
    hide Feasible, Run, NoLateFills, LiveCount, After;
    MissingCount(s, a);
    StallingOvertaken(Run(s, MissCount(a)), a, b, write);
    QuietThen(s, MissCount(a), SlowFill(a) + Overtake(a, b, write));
  }

  /** The bound on a `Count` call is needed: once calls may outlast the lease there is a run, without late commands, in
      which a count that began after an insert had finished its invalidation does not reflect the insert. */
  lemma CountIsStaleBeyondLease(s: State, a: Client, b: Client, c: Client, write: Write)
    requires Initial(s) && s.cfg.countTimeout > COUNT_LOCK_TTL && a != b && c != a && c != b
    requires write.Insert? && Allowed(s.Latest(), write)
    ensures var call := [Counting(c, CountBegin)] + [Counting(c, CountLoad(Acked))];
            && Feasible(s, StaleBefore(a, b, write) + call) && NoLateFills(s, StaleBefore(a, b, write) + call)
            && Feasible(s, StaleBefore(a, b, write))
            && var s' := Run(s, StaleBefore(a, b, write) + call);
            && s'.At(c).CountDone?
            && !exists v: nat :: v <= s'.Version() < |s'.db| && s'.At(c).result.n == LiveCount(s'.db[v])
                                 && UpTo(Run(s, StaleBefore(a, b, write)).h.invalidated, v)
  {
    StaleBeforeRuns(s, a, b, write);
    var s1 := Run(s, StaleBefore(a, b, write));
    assert s1.At(c).Idle?;
    HittingCount(s1, c);
    Joined(s, StaleBefore(a, b, write), [Counting(c, CountBegin)] + [Counting(c, CountLoad(Acked))]);
    QuietInTime(s1, [Counting(c, CountBegin)] + [Counting(c, CountLoad(Acked))]);
    JoinedInTime(s, StaleBefore(a, b, write), [Counting(c, CountBegin)] + [Counting(c, CountLoad(Acked))]);
    CountMissesInsert(s.db[0], write, s1, Run(s1, [Counting(c, CountBegin)] + [Counting(c, CountLoad(Acked))]), c);
  }

  lemma HittingCount(s: State, c: Client)
    requires s.At(c).Idle? && s.cfg.countTimeout > 0
    requires s.store.Get(CountKey).Some? && s.store.Get(CountKey).value.CountValue?
    ensures var run := [Counting(c, CountBegin)] + [Counting(c, CountLoad(Acked))];
            && Feasible(s, run) && var s' := Run(s, run);
            && s'.db == s.db && s'.At(c).CountDone? && s'.At(c).result.n == s.store.Get(CountKey).value.count
  {
    Pair(s, Counting(c, CountBegin), Counting(c, CountLoad(Acked)));
  }

  lemma CountMissesInsert(t: Table, write: Write, s: State, s': State, c: Client)
    requires write.Insert? && Allowed(t, write) && |s'.db| == 2 && s'.db[1] == After(t, write)
    requires s'.At(c).CountDone? && s'.At(c).result.n == LiveCount(t) && 1 in s.h.invalidated
    ensures !exists v: nat :: v <= s'.Version() < |s'.db| && s'.At(c).result.n == LiveCount(s'.db[v])
                              && UpTo(s.h.invalidated, v)
  {
    CountAfter(t, write);
    forall v: nat | v <= s'.Version() < |s'.db| && UpTo(s.h.invalidated, v)
      ensures s'.At(c).result.n != LiveCount(s'.db[v])
    {
      assert v == 1;
    }
  }
}
