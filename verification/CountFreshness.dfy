/** The live count: while a fill's lease lasts no invalidator can get past the lock, so a stored count is never older
    than a write whose invalidation is over. */
module CountFreshness {
  import opened Prelude
  import opened TaskTable
  import opened Redis
  import opened CacheProtocol
  import opened CacheHistory
  import opened CacheProvenance
  import opened CountLock
  import opened ListFreshness

  ghost predicate InvalidationsOk(s: State) {
    s.h.invalidated <= s.h.locked && UpTo(s.h.locked, s.Version())
  }

  /** The stored count is no older than any finished invalidation. */
  ghost predicate CachedCountOk(s: State) {
    CountKey in s.store.entries ==>
      CountKey in s.origin && UpTo(s.h.invalidated, s.origin[CountKey].snap.version)
  }

  ghost predicate CounterOk(s: State, p: Proc) {
    match p
    case CountLoading(since, _) => since <= s.h.invalidated
    case CountMissed(since, _) => since <= s.h.invalidated
    case CountLocking(since, _, _) => since <= s.h.invalidated
    case CountRechecking(since, _, _) => since <= s.h.invalidated
    case CountFilling(since, _, _) => since <= s.h.invalidated
    case CountSetting(since, _, lease, result) =>
      UpTo(since, result.snap.version) && (s.Now() < lease.until ==> UpTo(s.h.locked, result.snap.version))
    case CountBypassing(since, _, _) => since <= s.h.invalidated
    case CountReleasing(since, _, answer) => answer.Some? ==> UpTo(since, answer.value.snap.version)
    case CountDone(since, result) => UpTo(since, result.snap.version)
    case Deleting(v, _, _) => v in s.h.locked
    case _ => true
  }

  ghost predicate CountOk(s: State) {
    && InvalidationsOk(s) && CachedCountOk(s)
    && forall c :: c in s.procs ==> CounterOk(s, s.procs[c])
  }

  /** A count that a step stores is stored while the lease of its fill lasts. */
  predicate HonoursLease(s: State, a: Step) {
    Enabled(s, a) && a.Counting? && a.n.CountSet? && a.n.o.Effective() ==> s.Now() < s.At(a.c).lease.until
  }

  // ----- preservation -----

  /** Steps after which `locked` is as before. */
  ghost predicate NoNewLocks(s: State, s': State) {
    s'.h.locked == s.h.locked && s.h.invalidated <= s'.h.invalidated && s.Now() <= s'.Now()
  }

  lemma CountersStand(s: State, s': State, c: Client)
    requires CountOk(s) && OnlyClient(s, s', c) && CounterOk(s', s'.At(c)) && NoNewLocks(s, s')
    ensures forall d :: d in s'.procs ==> CounterOk(s', s'.procs[d])
  {
    forall d | d in s'.procs ensures CounterOk(s', s'.procs[d]) {
      if d in s.procs && s'.procs[d] == s.procs[d] {
        assert CounterOk(s, s.procs[d]);
      }
    }
  }

  /** Taking the lock after a write: no fill can be under way with time left on its lease. */
  lemma NewLockStands(s: State, s': State, c: Client, v: nat)
    requires CountOk(s) && LockOk(s) && s.store.Free(CountLockKey) && OnlyClient(s, s', c)
    requires s'.h == s.h.(locked := s.h.locked + {v}) && CounterOk(s', s'.At(c))
    ensures forall d :: d in s'.procs ==> CounterOk(s', s'.procs[d])
  {
    forall d | d in s'.procs ensures CounterOk(s', s'.procs[d]) {
      if d in s.procs && s'.procs[d] == s.procs[d] {
        assert CounterOk(s, s.procs[d]) && LeaseOk(s, s.procs[d]);
      }
    }
  }

  ghost predicate CountUntouched(s: State, s': State) {
    && s'.h.locked == s.h.locked && s'.h.invalidated == s.h.invalidated && s.Version() <= s'.Version()
    && (CountKey in s'.store.entries ==>
          && CountKey in s.store.entries && s'.store.entries[CountKey] == s.store.entries[CountKey]
          && (CountKey in s.origin ==> CountKey in s'.origin && s'.origin[CountKey] == s.origin[CountKey]))
  }

  lemma CachedCountStands(s: State, s': State)
    requires CountUntouched(s, s') && InvalidationsOk(s) && CachedCountOk(s)
    ensures InvalidationsOk(s') && CachedCountOk(s')
  {
  }

  lemma GetLeavesCount(s: State, c: Client, g: GetStep)
    requires GetEnabled(s, c, g)
    ensures var s' := GetStepped(s, c, g); CountUntouched(s, s') && CounterOk(s', s'.At(c))
  {
  }

  lemma ListLeavesCount(s: State, c: Client, l: ListStep)
    requires ListEnabled(s, c, l)
    ensures var s' := ListStepped(s, c, l); CountUntouched(s, s') && CounterOk(s', s'.At(c))
  {
    hide ListAnswer;
  }

  lemma CountLeavesCached(s: State, c: Client, n: CountStep)
    requires CountEnabled(s, c, n) && !n.CountSet?
    ensures CountUntouched(s, CountStepped(s, c, n))
  {
    CountLocal(s, c, n);
    CountStoresNothing(s, c, n);
  }

  /** A count read under the lock and stored within its lease is older than no finished invalidation. */
  lemma SetKeepsCached(s: State, c: Client, o: Outcome)
    requires CountEnabled(s, c, CountSet(o)) && HonoursLease(s, Counting(c, CountSet(o)))
    requires InvalidationsOk(s) && CachedCountOk(s) && CounterOk(s, s.At(c))
    ensures var s' := CountStepped(s, c, CountSet(o)); InvalidationsOk(s') && CachedCountOk(s')
  {
  }

  lemma CountKeepsCached(s: State, c: Client, n: CountStep)
    requires CountEnabled(s, c, n) && InvalidationsOk(s) && CachedCountOk(s) && CounterOk(s, s.At(c))
    requires HonoursLease(s, Counting(c, n))
    ensures var s' := CountStepped(s, c, n); InvalidationsOk(s') && CachedCountOk(s')
  {
    if n.CountSet? {
      SetKeepsCached(s, c, n.o);
    } else {
      CountLeavesCached(s, c, n);
      CachedCountStands(s, CountStepped(s, c, n));
    }
  }

  lemma CountAdvancesBefore(s: State, c: Client, n: CountStep)
    requires CountEnabled(s, c, n) && BeforeLock(n) && CounterOk(s, s.At(c)) && InvalidationsOk(s) && CachedCountOk(s)
    ensures CounterOk(CountStepped(s, c, n), CountStepped(s, c, n).At(c))
  {
  }

  lemma CountAdvancesAfter(s: State, c: Client, n: CountStep)
    requires CountEnabled(s, c, n) && !BeforeLock(n) && CounterOk(s, s.At(c)) && InvalidationsOk(s) && CachedCountOk(s)
    ensures CounterOk(CountStepped(s, c, n), CountStepped(s, c, n).At(c))
  {
  }

  lemma CountAdvances(s: State, c: Client, n: CountStep)
    requires CountEnabled(s, c, n) && CounterOk(s, s.At(c)) && InvalidationsOk(s) && CachedCountOk(s)
    ensures CounterOk(CountStepped(s, c, n), CountStepped(s, c, n).At(c))
  {
    if BeforeLock(n) {
      CountAdvancesBefore(s, c, n);
    } else {
      CountAdvancesAfter(s, c, n);
    }
  }

  lemma WriteLeavesCount(s: State, c: Client, w: WriteStep)
    requires WriteEnabled(s, c, w) && !w.Commit? && !w.TryLock? && !w.Delete?
    ensures var s' := WriteStepped(s, c, w);
            CountUntouched(s, s') && CounterOk(s', s'.At(c)) && s'.Now() == s.Now()
  {
  }

  lemma CommitLeavesCount(s: State, c: Client, write: Write, acked: bool)
    requires WriteEnabled(s, c, Commit(write, acked))
    ensures var s' := WriteStepped(s, c, Commit(write, acked));
            CountUntouched(s, s') && CounterOk(s', s'.At(c)) && s'.Now() == s.Now()
  {
  }

  lemma DeleteKeepsCount(s: State, c: Client, o: Outcome)
    requires WriteEnabled(s, c, Delete(o)) && InvalidationsOk(s) && CachedCountOk(s) && CounterOk(s, s.At(c))
    ensures var s' := WriteStepped(s, c, Delete(o));
            NoNewLocks(s, s') && InvalidationsOk(s') && CachedCountOk(s') && CounterOk(s', s'.At(c))
  {
  }

  lemma TryKeepsCount(s: State, c: Client, o: Outcome)
    requires WriteEnabled(s, c, TryLock(o)) && InvalidationsOk(s) && CachedCountOk(s) && s.At(c).version <= s.Version()
    ensures var s' := WriteStepped(s, c, TryLock(o));
            && InvalidationsOk(s') && CachedCountOk(s') && CounterOk(s', s'.At(c))
            && s'.Now() == s.Now() && s'.h.invalidated == s.h.invalidated
            && (s'.h.locked == s.h.locked
                || (s.store.Free(CountLockKey) && s'.h == s.h.(locked := s.h.locked + {s.At(c).version})))
  {
  }

  lemma CountKeptByWriter(s: State, c: Client, w: WriteStep)
    requires WriteEnabled(s, c, w) && TimelineOk(s) && OwnersOk(s) && LockOk(s) && CountOk(s)
    ensures CountOk(WriteStepped(s, c, w))
  {
    var s' := WriteStepped(s, c, w);
    WriteMovesOne(s, c, w);
    assert CounterOk(s, s.At(c));
    if w.TryLock? {
      assert PendingVersion(s.At(c)) == Some(s.At(c).version);
      TryKeepsCount(s, c, w.o);
      if s'.h.locked == s.h.locked {
        CountersStand(s, s', c);
      } else {
        NewLockStands(s, s', c, s.At(c).version);
      }
    } else if w.Delete? {
      DeleteKeepsCount(s, c, w.o);
      CountersStand(s, s', c);
    } else {
      if w.Commit? {
        CommitLeavesCount(s, c, w.write, w.acked);
      } else {
        WriteLeavesCount(s, c, w);
      }
      CachedCountStands(s, s');
      CountersStand(s, s', c);
    }
  }

  lemma CountKept(s: State, a: Step)
    requires Enabled(s, a) && TimelineOk(s) && OwnersOk(s) && LockOk(s) && CountOk(s) && HonoursLease(s, a)
    ensures CountOk(Stepped(s, a))
  {
    hide InvalidationsOk, CachedCountOk, LiveCount, ListAnswer, Allowed, After;
    var s' := Stepped(s, a);
    match a
    case Env(_) =>
      CachedCountStands(s, s');
      forall d | d in s'.procs ensures CounterOk(s', s'.procs[d]) { assert CounterOk(s, s.procs[d]); }
    case Getting(c, g) =>
      GetLeavesCount(s, c, g); GetLocal(s, c, g); CachedCountStands(s, s'); CountersStand(s, s', c);
    case Listing(c, l) =>
      ListLeavesCount(s, c, l); ListLocal(s, c, l); CachedCountStands(s, s'); CountersStand(s, s', c);
    case Counting(c, n) =>
      assert CounterOk(s, s.At(c));
      CountKeepsCached(s, c, n); CountAdvances(s, c, n); CountLocal(s, c, n); CountersStand(s, s', c);
    case Writing(c, w) => CountKeptByWriter(s, c, w);
  }

  // ----- calls too short to outlast their lease -----

  /** A call is over no later than the lease it takes. */
  predicate DeadlineOk(s: State, p: Proc) {
    match p
    case CountLoading(_, deadline) => deadline <= s.Now() + s.cfg.countTimeout
    case CountMissed(_, deadline) => deadline <= s.Now() + s.cfg.countTimeout
    case CountLocking(_, deadline, _) => deadline <= s.Now() + s.cfg.countTimeout
    case CountRechecking(_, deadline, lease) => deadline <= lease.until
    case CountFilling(_, deadline, lease) => deadline <= lease.until
    case CountSetting(_, deadline, lease, _) => deadline <= lease.until
    case _ => true
  }

  ghost predicate DeadlinesOk(s: State) {
    s.cfg.countTimeout <= COUNT_LOCK_TTL && forall c :: c in s.procs ==> DeadlineOk(s, s.procs[c])
  }

  lemma DeadlinesStand(s: State, s': State, c: Client)
    requires DeadlinesOk(s) && OnlyClient(s, s', c) && s'.cfg == s.cfg && DeadlineOk(s', s'.At(c))
    ensures DeadlinesOk(s')
  {
    forall d | d in s'.procs ensures DeadlineOk(s', s'.procs[d]) {
      if d in s.procs && s'.procs[d] == s.procs[d] {
        assert DeadlineOk(s, s.procs[d]);
      }
    }
  }

  lemma CountDeadlineBefore(s: State, c: Client, n: CountStep)
    requires CountEnabled(s, c, n) && BeforeLock(n) && DeadlineOk(s, s.At(c)) && s.cfg.countTimeout <= COUNT_LOCK_TTL
    ensures DeadlineOk(CountStepped(s, c, n), CountStepped(s, c, n).At(c))
  {
  }

  lemma CountDeadlineAfter(s: State, c: Client, n: CountStep)
    requires CountEnabled(s, c, n) && !BeforeLock(n) && DeadlineOk(s, s.At(c))
    ensures DeadlineOk(CountStepped(s, c, n), CountStepped(s, c, n).At(c))
  {
  }

  lemma CountKeepsDeadlines(s: State, c: Client, n: CountStep)
    requires CountEnabled(s, c, n) && DeadlinesOk(s)
    ensures DeadlinesOk(CountStepped(s, c, n))
  {
    assert DeadlineOk(s, s.At(c));
    if BeforeLock(n) {
      CountDeadlineBefore(s, c, n);
    } else {
      CountDeadlineAfter(s, c, n);
    }
    CountLocal(s, c, n);
    DeadlinesStand(s, CountStepped(s, c, n), c);
  }

  lemma WriteKeepsDeadlines(s: State, c: Client, w: WriteStep)
    requires WriteEnabled(s, c, w) && DeadlinesOk(s)
    ensures DeadlinesOk(WriteStepped(s, c, w))
  {
    WriteStaysWrite(s, c, w);
    if w.Commit? {
      CommitLocal(s, c, w.write, w.acked);
    } else {
      WriteLocal(s, c, w);
    }
    DeadlinesStand(s, WriteStepped(s, c, w), c);
  }

  lemma DeadlinesKept(s: State, a: Step)
    requires Enabled(s, a) && DeadlinesOk(s)
    ensures DeadlinesOk(Stepped(s, a))
  {
    var s' := Stepped(s, a);
    match a
    case Env(_) =>
      forall d | d in s'.procs ensures DeadlineOk(s', s'.procs[d]) { assert DeadlineOk(s, s.procs[d]); }
    case Getting(c, g) => GetLocal(s, c, g); DeadlinesStand(s, s', c);
    case Listing(c, l) => ListLocal(s, c, l); DeadlinesStand(s, s', c);
    case Counting(c, n) => CountKeepsDeadlines(s, c, n);
    case Writing(c, w) => WriteKeepsDeadlines(s, c, w);
  }

  /** A count that a step stores is stored before the deadline of its call: a fill's command that is still under way
      when its context runs out does not take effect later. */
  predicate FillsInTime(s: State, a: Step) {
    Enabled(s, a) && a.Counting? && a.n.CountSet? && a.n.o.Effective() ==> s.Now() < s.At(a.c).deadline
  }

  /** Within its deadline is then within its lease. */
  lemma DeadlineHonoursLease(s: State, a: Step)
    requires DeadlinesOk(s) && FillsInTime(s, a)
    ensures HonoursLease(s, a)
  {
    if Enabled(s, a) && a.Counting? && a.n.CountSet? {
      assert DeadlineOk(s, s.At(a.c));
    }
  }
}
