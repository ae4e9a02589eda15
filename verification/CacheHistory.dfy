/** What every run of the cache protocol keeps about the database history, the writers still at work and the
    provenance of each cached value. */
module CacheHistory {
  import opened Prelude
  import opened TaskTable
  import opened Redis
  import opened CacheProtocol

  /** The version a client's write committed, while the client still has cache work to do for it. */
  function PendingVersion(p: Proc): Option<nat> {
    match p
    case Evicting(v) => Some(v)
    case Retiring(v) => Some(v)
    case Invalidating(v) => Some(v)
    case Locking(v, _, _) => Some(v)
    case Deleting(v, _, _) => Some(v)
    case Releasing(v, _) => Some(v)
    case _ => None
  }

  ghost predicate TimelineOk(s: State) {
    && |s.db| == |s.log| + 1 == |s.owner| + 1 == |s.commitAt|
    && (forall v :: 0 <= v < |s.log| ==> Allowed(s.db[v], s.log[v]) && s.db[v + 1] == After(s.db[v], s.log[v]))
    && (forall u, v :: 0 <= u < v < |s.commitAt| ==> s.commitAt[u] <= s.commitAt[v])
    && s.commitAt[|s.commitAt| - 1] <= s.Now()
  }

  ghost predicate OwnersOk(s: State) {
    forall c :: c in s.procs && PendingVersion(s.procs[c]).Some? ==>
                  var v := PendingVersion(s.procs[c]).value;
                  1 <= v <= |s.log| && |s.owner| == |s.log| && s.owner[v - 1] == c
  }

  // ----- one step at a time -----

  predicate SameDatabase(s: State, s': State) {
    s'.cfg == s.cfg && s'.db == s.db && s'.log == s.log && s'.owner == s.owner && s'.commitAt == s.commitAt
  }

  /** Nothing but client `c` moved, and time stood still. */
  ghost predicate OnlyClient(s: State, s': State, c: Client) {
    && s'.Now() == s.Now()
    && (s'.procs == s.procs || s'.procs == s.procs[c := s'.At(c)])
  }

  predicate InGet(p: Proc) {
    p.Idle? || p.GetLoading? || p.GetReading? || p.GetStoring? || p.GetDone?
  }

  predicate InList(p: Proc) {
    p.Idle? || p.ListStarting? || p.ListLoading? || p.ListReading? || p.ListStoring? || p.ListDone?
  }

  predicate InWrite(p: Proc) {
    p.Idle? || PendingVersion(p).Some?
  }

  lemma GetLocal(s: State, c: Client, g: GetStep)
    requires GetEnabled(s, c, g)
    ensures PendingVersion(s.At(c)).None?
    ensures var s' := GetStepped(s, c, g);
            OnlyClient(s, s', c) && SameDatabase(s, s') && s'.h == s.h && InGet(s'.At(c))
  {
  }

  lemma ListLocal(s: State, c: Client, l: ListStep)
    requires ListEnabled(s, c, l)
    ensures PendingVersion(s.At(c)).None?
    ensures var s' := ListStepped(s, c, l);
            OnlyClient(s, s', c) && SameDatabase(s, s') && s'.h == s.h.(born := s'.h.born) && InList(s'.At(c))
  {
    hide ListAnswer;
  }

  /** The points of a `Count` call. */
  predicate InCount(p: Proc) {
    p.Idle? || p.CountLoading? || p.CountMissed? || p.CountLocking? || p.CountRechecking? || p.CountFilling?
    || p.CountSetting? || p.CountBypassing? || p.CountReleasing? || p.CountDone?
  }

  /** Everything but the count key and its lock is as before, and so are the tokens drawn before. */
  ghost predicate OnlyCountKeys(s: State, s': State) {
    && (forall k :: k != CountKey && k != CountLockKey ==>
          (k in s'.store.entries <==> k in s.store.entries)
          && (k in s.store.entries ==> s'.store.entries[k] == s.store.entries[k]))
    && (forall k :: k != CountKey && k in s.origin ==> k in s'.origin && s'.origin[k] == s.origin[k])
    && (forall t :: t in s.drawn ==> t in s'.drawn && s'.drawn[t] == s.drawn[t])
  }

  /** What a step of a `Count` call does to the rest of the world: nothing. */
  ghost predicate CountFrame(s: State, s': State, c: Client) {
    && OnlyClient(s, s', c) && SameDatabase(s, s') && s'.h == s.h
    && InCount(s'.At(c)) && OnlyCountKeys(s, s')
  }

  /** Up to and including the attempt at the lock. */
  predicate BeforeLock(n: CountStep) {
    n.CountBegin? || n.CountLoad? || n.CountDraw? || n.CountTryLock?
  }

  lemma CountMovesBefore(s: State, c: Client, n: CountStep)
    requires CountEnabled(s, c, n) && BeforeLock(n)
    ensures var s' := CountStepped(s, c, n);
            OnlyClient(s, s', c) && SameDatabase(s, s') && s'.h == s.h && InCount(s'.At(c))
  {
  }

  lemma CountMovesAfter(s: State, c: Client, n: CountStep)
    requires CountEnabled(s, c, n) && !BeforeLock(n)
    ensures var s' := CountStepped(s, c, n);
            OnlyClient(s, s', c) && SameDatabase(s, s') && s'.h == s.h && InCount(s'.At(c))
  {
    hide LiveCount;
  }

  lemma CountTouchesBefore(s: State, c: Client, n: CountStep)
    requires CountEnabled(s, c, n) && BeforeLock(n)
    ensures OnlyCountKeys(s, CountStepped(s, c, n))
  {
  }

  lemma CountTouchesAfter(s: State, c: Client, n: CountStep)
    requires CountEnabled(s, c, n) && !BeforeLock(n)
    ensures OnlyCountKeys(s, CountStepped(s, c, n))
  {
  }

  lemma CountLocal(s: State, c: Client, n: CountStep)
    requires CountEnabled(s, c, n)
    ensures CountFrame(s, CountStepped(s, c, n), c) && PendingVersion(s.At(c)).None?
  {
    if BeforeLock(n) {
      CountMovesBefore(s, c, n);
      CountTouchesBefore(s, c, n);
    } else {
      CountMovesAfter(s, c, n);
      CountTouchesAfter(s, c, n);
    }
  }

  /** One more write by client `c`. */
  ghost predicate Grown(s: State, s': State, c: Client, write: Write) {
    && s'.cfg == s.cfg && Allowed(s.Latest(), write)
    && s'.db == s.db + [After(s.Latest(), write)] && s'.log == s.log + [write]
    && s'.owner == s.owner + [c] && s'.commitAt == s.commitAt + [s.Now()]
  }

  lemma CommitLocal(s: State, c: Client, write: Write, acked: bool)
    requires WriteEnabled(s, c, Commit(write, acked))
    ensures var s' := WriteStepped(s, c, Commit(write, acked));
            OnlyClient(s, s', c) && Grown(s, s', c, write)
            && PendingVersion(s'.At(c)) in {None, Some(|s.db|)}
  {
  }

  /** The steps of a write before its work on the count. */
  predicate OnPages(w: WriteStep) {
    w.Evict? || w.Retire?
  }

  lemma PagesLocal(s: State, c: Client, w: WriteStep)
    requires WriteEnabled(s, c, w) && OnPages(w)
    ensures var s' := WriteStepped(s, c, w);
            OnlyClient(s, s', c) && SameDatabase(s, s')
            && PendingVersion(s'.At(c)) in {None, PendingVersion(s.At(c))}
  {
  }

  /** The steps of a write up to its turn at the count lock. */
  predicate OnLock(w: WriteStep) {
    w.Draw? || w.TryLock?
  }

  lemma LockingLocal(s: State, c: Client, w: WriteStep)
    requires WriteEnabled(s, c, w) && OnLock(w)
    ensures var s' := WriteStepped(s, c, w);
            OnlyClient(s, s', c) && SameDatabase(s, s')
            && PendingVersion(s'.At(c)) in {None, PendingVersion(s.At(c))}
  {
    hide After, Allowed;
  }

  lemma InvalidationLocal(s: State, c: Client, w: WriteStep)
    requires WriteEnabled(s, c, w) && (w.Delete? || w.Release?)
    ensures var s' := WriteStepped(s, c, w);
            OnlyClient(s, s', c) && SameDatabase(s, s')
            && PendingVersion(s'.At(c)) in {None, PendingVersion(s.At(c))}
  {
  }

  lemma WriteLocal(s: State, c: Client, w: WriteStep)
    requires WriteEnabled(s, c, w) && !w.Commit?
    ensures var s' := WriteStepped(s, c, w);
            OnlyClient(s, s', c) && SameDatabase(s, s')
            && PendingVersion(s'.At(c)) in {None, PendingVersion(s.At(c))}
  {
    if OnPages(w) {
      PagesLocal(s, c, w);
    } else if OnLock(w) {
      LockingLocal(s, c, w);
    } else {
      InvalidationLocal(s, c, w);
    }
  }

  lemma WriteStaysWrite(s: State, c: Client, w: WriteStep)
    requires WriteEnabled(s, c, w)
    ensures InWrite(WriteStepped(s, c, w).At(c))
  {
  }

  lemma WriteMovesOne(s: State, c: Client, w: WriteStep)
    requires WriteEnabled(s, c, w)
    ensures OnlyClient(s, WriteStepped(s, c, w), c)
  {
    if w.Commit? {
      CommitLocal(s, c, w.write, w.acked);
    } else {
      WriteLocal(s, c, w);
    }
  }

  lemma TimelineStands(s: State, s': State)
    requires TimelineOk(s) && SameDatabase(s, s') && s.Now() <= s'.Now()
    ensures TimelineOk(s')
  {
  }

  lemma OwnersStand(s: State, s': State, c: Client)
    requires OwnersOk(s) && SameDatabase(s, s') && OnlyClient(s, s', c)
    requires PendingVersion(s'.At(c)) in {None, PendingVersion(s.At(c))}
    ensures OwnersOk(s')
  {
  }

  lemma TimelineGrows(s: State, s': State, c: Client, write: Write)
    requires TimelineOk(s) && Grown(s, s', c, write) && s'.Now() == s.Now()
    ensures TimelineOk(s')
  {
    var n := |s.log|;
    assert s.Latest() == s.db[n] == s'.db[n] && s'.log[n] == write;
    forall v | 0 <= v < |s'.log| ensures Allowed(s'.db[v], s'.log[v]) && s'.db[v + 1] == After(s'.db[v], s'.log[v]) {
      if v < n {
        assert s'.db[v] == s.db[v] && s'.log[v] == s.log[v] && s'.db[v + 1] == s.db[v + 1];
      }
    }
  }

  lemma OwnersGrow(s: State, s': State, c: Client, write: Write)
    requires TimelineOk(s) && OwnersOk(s) && Grown(s, s', c, write) && OnlyClient(s, s', c)
    requires PendingVersion(s'.At(c)) in {None, Some(|s.db|)}
    ensures OwnersOk(s')
  {
    hide After, Allowed;
  }

  lemma TimelineKept(s: State, a: Step)
    requires Enabled(s, a) && TimelineOk(s) && OwnersOk(s)
    ensures TimelineOk(Stepped(s, a)) && OwnersOk(Stepped(s, a))
  {
    var s' := Stepped(s, a);
    match a
    case Env(_) => TimelineStands(s, s');
    case Getting(c, g) => GetLocal(s, c, g); TimelineStands(s, s'); OwnersStand(s, s', c);
    case Listing(c, l) => ListLocal(s, c, l); TimelineStands(s, s'); OwnersStand(s, s', c);
    case Counting(c, n) => CountLocal(s, c, n); TimelineStands(s, s'); OwnersStand(s, s', c);
    case Writing(c, w) =>
      if w.Commit? {
        CommitLocal(s, c, w.write, w.acked);
        TimelineGrows(s, s', c, w.write);
        OwnersGrow(s, s', c, w.write);
      } else {
        WriteLocal(s, c, w);
        TimelineStands(s, s');
        OwnersStand(s, s', c);
      }
  }

  // ----- every write is accounted for -----

  /** Each cache duty of the write that made version `v` is done, lost, or still ahead of its client. */
  ghost predicate Accounted(s: State, v: nat)
    requires 1 <= v <= |s.log| == |s.owner|
  {
    var w, p := s.log[v - 1], s.At(s.owner[v - 1]);
    && (w.Insert? || v in s.h.evicted || v in s.h.evictLost || p == Evicting(v))
    && (v in s.h.retired || v in s.h.retireLost || p == Evicting(v) || p == Retiring(v))
    && (!ChangesCount(w) || v in s.h.invalidated || v in s.h.invalidateLost || p == Evicting(v) || p == Retiring(v)
        || p == Invalidating(v) || (p.Locking? && p.version == v) || (p.Deleting? && p.version == v))
  }

  ghost predicate WritersOk(s: State) {
    && |s.owner| == |s.log|
    && forall v :: 1 <= v <= |s.log| ==> Accounted(s, v)
  }

  ghost predicate HistoryGrows(h: History, h': History) {
    && h.evicted <= h'.evicted && h.evictLost <= h'.evictLost && h.retired <= h'.retired
    && h.retireLost <= h'.retireLost && h.invalidated <= h'.invalidated && h.invalidateLost <= h'.invalidateLost
  }

  lemma WritersStand(s: State, s': State, c: Client)
    requires WritersOk(s) && SameDatabase(s, s') && OnlyClient(s, s', c) && HistoryGrows(s.h, s'.h)
    requires forall v :: PendingVersion(s.At(c)) == Some(v) && 1 <= v <= |s.log| ==> Accounted(s', v)
    ensures WritersOk(s')
  {
    forall v | 1 <= v <= |s'.log| ensures Accounted(s', v) {
      assert Accounted(s, v);
      assert s.owner[v - 1] != c ==> s'.At(s.owner[v - 1]) == s.At(s.owner[v - 1]);
    }
  }

  lemma PagesGrowHistory(s: State, c: Client, w: WriteStep)
    requires WriteEnabled(s, c, w) && OnPages(w)
    ensures HistoryGrows(s.h, WriteStepped(s, c, w).h)
  {
  }

  lemma InvalidationGrowsHistory(s: State, c: Client, w: WriteStep)
    requires WriteEnabled(s, c, w) && !w.Commit? && !OnPages(w)
    ensures HistoryGrows(s.h, WriteStepped(s, c, w).h)
  {
  }

  lemma WriteGrowsHistory(s: State, c: Client, w: WriteStep)
    requires WriteEnabled(s, c, w) && !w.Commit?
    ensures HistoryGrows(s.h, WriteStepped(s, c, w).h)
  {
    if OnPages(w) {
      PagesGrowHistory(s, c, w);
    } else {
      InvalidationGrowsHistory(s, c, w);
    }
  }

  lemma PagesAdvance(s: State, c: Client, w: WriteStep, v: nat)
    requires WriteEnabled(s, c, w) && OnPages(w) && PendingVersion(s.At(c)) == Some(v)
    requires 1 <= v <= |s.log| == |s.owner| && s.owner[v - 1] == c && Accounted(s, v)
    ensures Accounted(WriteStepped(s, c, w), v)
  {
  }

  lemma InvalidationAdvances(s: State, c: Client, w: WriteStep, v: nat)
    requires WriteEnabled(s, c, w) && !w.Commit? && !OnPages(w) && PendingVersion(s.At(c)) == Some(v)
    requires 1 <= v <= |s.log| == |s.owner| && s.owner[v - 1] == c && Accounted(s, v)
    ensures Accounted(WriteStepped(s, c, w), v)
  {
  }

  /** A write just committed has all its work ahead of it, or lost. */
  lemma NewWriteAccounted(s: State, c: Client, write: Write, acked: bool)
    requires WriteEnabled(s, c, Commit(write, acked)) && |s.db| == |s.log| + 1 == |s.owner| + 1
    ensures var s' := WriteStepped(s, c, Commit(write, acked));
            |s'.log| == |s'.owner| == |s.log| + 1 && Accounted(s', |s.log| + 1)
  {
  }

  lemma OldWriteAccounted(s: State, s': State, c: Client, write: Write, v: nat)
    requires Grown(s, s', c, write) && OnlyClient(s, s', c) && HistoryGrows(s.h, s'.h)
    requires 1 <= v <= |s.log| == |s.owner| && Accounted(s, v) && PendingVersion(s.At(c)).None?
    ensures |s'.log| == |s'.owner| && Accounted(s', v)
  {
    var d := s.owner[v - 1];
    assert s'.log[v - 1] == s.log[v - 1] && s'.owner[v - 1] == d;
    if d != c {
      assert s'.At(d) == s.At(d);
    }
  }

  lemma CommitGrowsHistory(s: State, c: Client, write: Write, acked: bool)
    requires WriteEnabled(s, c, Commit(write, acked))
    ensures HistoryGrows(s.h, WriteStepped(s, c, Commit(write, acked)).h)
  {
  }

  lemma CommitAccounted(s: State, c: Client, write: Write, acked: bool)
    requires WriteEnabled(s, c, Commit(write, acked)) && TimelineOk(s) && WritersOk(s)
    ensures WritersOk(WriteStepped(s, c, Commit(write, acked)))
  {
    var s' := WriteStepped(s, c, Commit(write, acked));
    NewWriteAccounted(s, c, write, acked);
    CommitGrowsHistory(s, c, write, acked);
    CommitLocal(s, c, write, acked);
    forall v | 1 <= v <= |s'.log| ensures Accounted(s', v) {
      if v <= |s.log| {
        OldWriteAccounted(s, s', c, write, v);
      }
    }
  }

  lemma WriterKeepsWriters(s: State, c: Client, w: WriteStep)
    requires WriteEnabled(s, c, w) && TimelineOk(s) && OwnersOk(s) && WritersOk(s)
    ensures WritersOk(WriteStepped(s, c, w))
  {
    if w.Commit? {
      CommitAccounted(s, c, w.write, w.acked);
    } else {
      var v := PendingVersion(s.At(c)).value;
      assert s.owner[v - 1] == c && Accounted(s, v);
      WriteLocal(s, c, w);
      WriteGrowsHistory(s, c, w);
      if OnPages(w) {
        PagesAdvance(s, c, w, v);
      } else {
        InvalidationAdvances(s, c, w, v);
      }
      WritersStand(s, WriteStepped(s, c, w), c);
    }
  }

  lemma WritersKept(s: State, a: Step)
    requires Enabled(s, a) && TimelineOk(s) && OwnersOk(s) && WritersOk(s)
    ensures WritersOk(Stepped(s, a))
  {
    var s' := Stepped(s, a);
    match a
    case Env(_) =>
      forall v | 1 <= v <= |s.log| ensures Accounted(s', v) { assert Accounted(s, v); }
    case Getting(c, g) => GetLocal(s, c, g); WritersStand(s, s', c);
    case Listing(c, l) => ListLocal(s, c, l); WritersStand(s, s', c);
    case Counting(c, n) => CountLocal(s, c, n); WritersStand(s, s', c);
    case Writing(c, w) => WriterKeepsWriters(s, c, w);
  }
}
