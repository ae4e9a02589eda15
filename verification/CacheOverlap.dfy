/** How a cached row comes to be old, in terms of the steps of the run alone: its fill read before the commit of some
    change and stored after the change's eviction, or the change was never evicted. */
module CacheOverlap {
  import opened Prelude
  import opened TaskTable
  import opened Redis
  import opened CacheProtocol
  import opened CacheHistory
  import opened CacheProvenance
  import opened ListFreshness
  import opened CountLock
  import opened TaskGuarantee
  import opened CacheTheorems
  import opened CacheStaleness

  /** Step `m` commits an update or deletion of task `id`, whether its client learns of it or not. */
  predicate CommitsChange(run: seq<Step>, m: nat, id: int) {
    m < |run| && run[m].Writing? && run[m].w.Commit? && !run[m].w.write.Insert? && Touched(run[m].w.write) == id
  }

  /** Step `e` is an effective eviction by a client whose write led to version `w`. */
  ghost predicate EvictsVersion(s: State, run: seq<Step>, e: nat, w: nat)
    requires Feasible(s, run)
  {
    && e < |run| && run[e].Writing? && run[e].w.Evict? && run[e].w.o.Effective()
    && StateAt(s, run, e).At(run[e].c) == Evicting(w)
  }

  /** Step `e` is the effective eviction of the write that step `m` commits. */
  ghost predicate EvictsFor(s: State, run: seq<Step>, e: nat, m: nat)
    requires Feasible(s, run) && m <= |run|
  {
    EvictsVersion(s, run, e, |StateAt(s, run, m).db|)
  }

  // ----- along the run -----

  lemma SoundAt(s: State, run: seq<Step>, n: nat)
    requires Initial(s) && Feasible(s, run) && n <= |run|
    ensures Sound(StateAt(s, run, n))
    decreases n
  {
    hide Sound;
    if n == 0 {
      InitialSound(s);
    } else {
      SoundAt(s, run, n - 1);
      StateAtNext(s, run, n - 1);
      StepKeeps(StateAt(s, run, n - 1), run[n - 1]);
    }
  }

  lemma {:induction false} LaterGrows(s: State, run: seq<Step>, m: nat, n: nat)
    requires Feasible(s, run) && m <= n <= |run|
    ensures Grows(StateAt(s, run, m), StateAt(s, run, n))
    decreases n - m
  {
    if m < n {
      LaterGrows(s, run, m, n - 1);
      StateAtNext(s, run, n - 1);
      StepGrows(StateAt(s, run, n - 1), run[n - 1]);
    }
  }

  /** After a commit its write is in the log, as the version that the database then has. */
  lemma CommitIsLogged(s: State, run: seq<Step>, m: nat, n: nat, id: int)
    requires Initial(s) && Feasible(s, run) && CommitsChange(run, m, id) && m < n <= |run|
    ensures |StateAt(s, run, m + 1).db| == |StateAt(s, run, m).db| + 1
    ensures Changes(StateAt(s, run, n), |StateAt(s, run, m).db|, id)
  {
    hide Changes;
    SoundAt(s, run, m);
    StateAtNext(s, run, m);
    var s1, a := StateAt(s, run, m), run[m];
    CommitLocal(s1, a.c, a.w.write, a.w.acked);
    LaterGrows(s, run, m + 1, n);
    LoggedStands(s1, StateAt(s, run, m + 1), StateAt(s, run, n), a.c, a.w.write, id);
  }

  lemma LoggedStands(s: State, s1: State, s2: State, c: Client, write: Write, id: int)
    requires TimelineOk(s) && Grown(s, s1, c, write) && Grows(s1, s2) && !write.Insert? && Touched(write) == id
    ensures Changes(s2, |s.db|, id)
  {
    assert s1.log[|s.log|] == write && s2.log[|s.log|] == write;
  }

  /** A step that adds to the log commits what it adds. */
  lemma StepLogs(s: State, a: Step)
    requires Enabled(s, a) && TimelineOk(s)
    ensures Stepped(s, a).log == if a.Writing? && a.w.Commit? then s.log + [a.w.write] else s.log
  {
    match a
    case Env(_) =>
    case Getting(c, g) => GetLocal(s, c, g);
    case Listing(c, l) => ListLocal(s, c, l);
    case Counting(c, n) => CountLocal(s, c, n);
    case Writing(c, w) =>
      if w.Commit? {
        CommitLocal(s, c, w.write, w.acked);
      } else {
        WriteLocal(s, c, w);
      }
  }

  /** A change in the log was there before a step, or the step commits it. */
  lemma ChangeIsNew(s: State, a: Step, id: int, w: nat)
    requires Enabled(s, a) && TimelineOk(s) && Changes(Stepped(s, a), w, id)
    ensures Changes(s, w, id) || (CommitsChange([a], 0, id) && w == |s.db|)
  {
    StepLogs(s, a);
  }

  /** Each change in the log was committed by a step. */
  lemma {:induction false} LoggedIsCommit(s: State, run: seq<Step>, n: nat, id: int, w: nat)
    requires Initial(s) && Feasible(s, run) && n <= |run| && Changes(StateAt(s, run, n), w, id)
    ensures exists m: nat :: m < n && CommitsChange(run, m, id) && |StateAt(s, run, m).db| == w
    decreases n
  {
    hide OwnersOk, WritersOk, ProvenanceOk, ListOk, LockOk, TasksOk;
    if n > 0 {
      var s1, a := StateAt(s, run, n - 1), run[n - 1];
      SoundAt(s, run, n - 1);
      StateAtNext(s, run, n - 1);
      ChangeIsNew(s1, a, id, w);
      if Changes(s1, w, id) {
        LoggedIsCommit(s, run, n - 1, id, w);
      } else {
        assert CommitsChange(run, n - 1, id);
      }
    }
  }

  lemma StepEvicts(s: State, a: Step)
    requires Enabled(s, a)
    ensures Stepped(s, a).h.evicted ==
            s.h.evicted + if a.Writing? && a.w.Evict? && a.w.o.Effective() then {s.At(a.c).version} else {}
  {
    match a
    case Env(_) =>
    case Getting(c, g) => GetLocal(s, c, g);
    case Listing(c, l) => ListLocal(s, c, l);
    case Counting(c, n) => CountLocal(s, c, n);
    case Writing(c, w) => WriteEvicts(s, c, w);
  }

  lemma WriteEvicts(s: State, c: Client, w: WriteStep)
    requires WriteEnabled(s, c, w)
    ensures WriteStepped(s, c, w).h.evicted ==
            s.h.evicted + if w.Evict? && w.o.Effective() then {s.At(c).version} else {}
  {
    hide After, Allowed;
  }

  /** Each eviction on record was carried out by a step. */
  lemma {:induction false} EvictedByStep(s: State, run: seq<Step>, n: nat, w: nat)
    requires Initial(s) && Feasible(s, run) && n <= |run| && w in StateAt(s, run, n).h.evicted
    ensures exists e: nat :: e < n && EvictsVersion(s, run, e, w)
    decreases n
  {
    if n > 0 {
      StateAtNext(s, run, n - 1);
      StepEvicts(StateAt(s, run, n - 1), run[n - 1]);
      if w in StateAt(s, run, n - 1).h.evicted {
        EvictedByStep(s, run, n - 1, w);
      } else {
        assert EvictsVersion(s, run, n - 1, w);
      }
    }
  }

  lemma EvictionRecorded(s: State, run: seq<Step>, e: nat, w: nat, n: nat)
    requires Feasible(s, run) && EvictsVersion(s, run, e, w) && e < n <= |run|
    ensures w in StateAt(s, run, n).h.evicted
  {
    StateAtNext(s, run, e);
    StepEvicts(StateAt(s, run, e), run[e]);
    LaterGrows(s, run, e + 1, n);
  }

  /** A commit comes before its eviction. */
  lemma CommitThenEviction(s: State, run: seq<Step>, m: nat, e: nat, id: int)
    requires Initial(s) && Feasible(s, run) && CommitsChange(run, m, id) && EvictsFor(s, run, e, m)
    ensures m < e
  {
    var s1 := StateAt(s, run, e);
    SoundAt(s, run, e);
    assert PendingVersion(s1.At(run[e].c)) == Some(|StateAt(s, run, m).db|);
    if e <= m {
      LaterGrows(s, run, e, m);
    }
  }

  /** A commit with a version later than the read's comes after the read, and the other way round. */
  lemma CommitAfterRead(s: State, run: seq<Step>, m: nat, j: nat, id: int)
    requires Initial(s) && Feasible(s, run) && CommitsChange(run, m, id) && j < |run| && IsRead(run[j])
    ensures j < m <==> |StateAt(s, run, m).db| > StateAt(s, run, j).Version()
  {
    hide StateAt, Feasible, Run, Changes, Initial, OwnersOk, WritersOk, ProvenanceOk, ListOk, LockOk, TasksOk;
    SoundAt(s, run, j);
    SoundAt(s, run, m);
    if j < m {
      LaterGrows(s, run, j, m);
    } else {
      CommitIsLogged(s, run, m, m + 1, id);
      LaterGrows(s, run, m + 1, j);
    }
  }

  // ----- the overlap -----

  /** The row was read at step `j` and stored at step `i`; between them the change of step `m` committed and evicted. */
  ghost predicate Overlapped(s: State, run: seq<Step>, j: nat, m: nat, i: nat)
    requires Feasible(s, run) && m <= |run|
  {
    exists e: nat :: j < m < e < i && EvictsFor(s, run, e, m)
  }

  /** A change after the read either fits between the read and the store with its eviction, or is never evicted. */
  lemma ChangeOverlaps(s: State, run: seq<Step>, c: Client, id: int, v: Value, j: nat, m: nat, e: nat, i: nat)
    requires Initial(s) && Feasible(s, run) && FilledBy(s, run, c, TaskKey(id), v, j, i)
    requires Noted(s, run, |run|, TaskKey(id), j, i) && TaskKey(id) in Run(s, run).store.entries
    requires CommitsChange(run, m, id) && j < m && EvictsFor(s, run, e, m)
    ensures Overlapped(s, run, j, m, i)
  {
    hide StateAt, Feasible, Run, Missed, Sound, Initial, Changes, StoresFor;
    var w, k := |StateAt(s, run, m).db|, TaskKey(id);
    StateAtEnd(s, run);
    SoundAt(s, run, |run|);
    CommitIsLogged(s, run, m, |run|, id);
    CommitAfterRead(s, run, m, j, id);
    EvictionRecorded(s, run, e, w, |run|);
    MissedAtStore(Run(s, run), StateAt(s, run, i), k, StateAt(s, run, j).Version(), w);
    EvictedByStep(s, run, i, w);
    var e': nat :| e' < i && EvictsVersion(s, run, e', w);
    assert EvictsFor(s, run, e', m);
    CommitThenEviction(s, run, m, e', id);
  }

  lemma MissedAtStore(s: State, s1: State, k: Key, v: nat, w: nat)
    requires Sound(s) && k.TaskKey? && k in s.store.entries && k in s.origin
    requires s.origin[k].snap.version == v && s.origin[k].missed == Missed(s1, k.id, v)
    requires w in s.h.evicted && v < w && Changes(s, w, k.id)
    ensures w in s1.h.evicted
  {
    assert TaskEntryOk(s, k);
    assert w in Missed(s, k.id, v);
  }

  /** With no change since it was read, the cached row is the live one. */
  lemma UnchangedIsLive(s: State, run: seq<Step>, c: Client, id: int, j: nat, i: nat)
    requires Initial(s) && Feasible(s, run) && Run(s, run).store.Get(TaskKey(id)).Some?
    requires FilledBy(s, run, c, TaskKey(id), Run(s, run).store.Get(TaskKey(id)).value, j, i)
    requires Noted(s, run, |run|, TaskKey(id), j, i)
    requires forall m: nat :: j < m ==> !CommitsChange(run, m, id)
    ensures Live(Run(s, run), id)
  {
    var s1, v := Run(s, run), StateAt(s, run, j).Version();
    StateAtEnd(s, run);
    SoundAt(s, run, |run|);
    forall w | v < w <= |s1.log| ensures !Changes(s1, w, id) {
      if Changes(s1, w, id) {
        LoggedIsCommit(s, run, |run|, id, w);
        var m: nat :| m < |run| && CommitsChange(run, m, id) && |StateAt(s, run, m).db| == w;
        CommitAfterRead(s, run, m, j, id);
      }
    }
    UnchangedSince(s1, id, v);
  }

  /** The cached row of task `id` is the live one. */
  ghost predicate Live(s: State, id: int) {
    Lookup(s.Latest(), id).Some? && s.store.Get(TaskKey(id)) == Some(TaskValue(Lookup(s.Latest(), id).value))
  }

  lemma UnchangedSince(s: State, id: int, v: nat)
    requires Sound(s) && s.store.Get(TaskKey(id)).Some? && SnapOf(s, TaskKey(id)).version == v
    requires forall w :: v < w <= |s.log| ==> !Changes(s, w, id)
    ensures Live(s, id)
  {
    assert EntryOk(s, TaskKey(id));
    RowStands(s, id, v, |s.log|);
  }

  /** The whole story of a cached row: it was read at some step `j` and stored at some step `i`.  If it is not the live
      row, a change of the task committed after `j`.  And each such change either committed and evicted between `j` and
      `i`, or is not evicted anywhere in the run. */
  lemma CachedRowExplained(s0: State, run: seq<Step>, id: int)
    requires Initial(s0) && Feasible(s0, run) && Run(s0, run).store.Get(TaskKey(id)).Some?
    ensures exists c: Client, j: nat, i: nat ::
              && FilledBy(s0, run, c, TaskKey(id), Run(s0, run).store.Get(TaskKey(id)).value, j, i)
              && LastStore(s0, run, TaskKey(id), i, |run|)
              && ChangesExplained(s0, run, id, j, i)
  {
    hide StateAt, Feasible, Run, Initial, Live, EvictsFor, ReadsFor, StoresFor;
    var v := Run(s0, run).store.Get(TaskKey(id)).value;
    Traced(s0, run, |run|);
    StateAtEnd(s0, run);
    assert EntryFromFill(s0, run, |run|, TaskKey(id));
    var c: Client, j: nat, i: nat :|
      && FilledBy(s0, run, c, TaskKey(id), v, j, i) && LastStore(s0, run, TaskKey(id), i, |run|)
      && Noted(s0, run, |run|, TaskKey(id), j, i);
    if forall m: nat :: j < m ==> !CommitsChange(run, m, id) {
      UnchangedIsLive(s0, run, c, id, j, i);
    }
    forall m: nat, e: nat | j < m && CommitsChange(run, m, id) && EvictsFor(s0, run, e, m)
      ensures Overlapped(s0, run, j, m, i)
    {
      ChangeOverlaps(s0, run, c, id, v, j, m, e, i);
    }
  }

  ghost predicate ChangesExplained(s: State, run: seq<Step>, id: int, j: nat, i: nat)
    requires Feasible(s, run)
  {
    && (Live(Run(s, run), id) || exists m: nat :: j < m && CommitsChange(run, m, id))
    && (forall m: nat, e: nat :: j < m && CommitsChange(run, m, id) && EvictsFor(s, run, e, m) ==>
                                   Overlapped(s, run, j, m, i))
  }

  /** When every change of the task has been evicted, the row is behind some change exactly when it was read before a
      change that committed and evicted before it was stored; otherwise it is the live row. */
  lemma BehindIffOverlapped(s0: State, run: seq<Step>, id: int)
    requires Initial(s0) && Feasible(s0, run) && Run(s0, run).store.Get(TaskKey(id)).Some?
    requires forall m: nat :: CommitsChange(run, m, id) ==> exists e: nat :: EvictsFor(s0, run, e, m)
    ensures exists c: Client, j: nat, i: nat ::
              && FilledBy(s0, run, c, TaskKey(id), Run(s0, run).store.Get(TaskKey(id)).value, j, i)
              && LastStore(s0, run, TaskKey(id), i, |run|)
              && ((exists m: nat :: j < m && CommitsChange(run, m, id))
                  <==> exists m: nat :: CommitsChange(run, m, id) && Overlapped(s0, run, j, m, i))
              && ((exists m: nat :: j < m && CommitsChange(run, m, id)) || Live(Run(s0, run), id))
  {
    hide StateAt, Feasible, Run, Initial, Live, EvictsFor, FilledBy, LastStore;
    CachedRowExplained(s0, run, id);
    var c: Client, j: nat, i: nat :|
      && FilledBy(s0, run, c, TaskKey(id), Run(s0, run).store.Get(TaskKey(id)).value, j, i)
      && LastStore(s0, run, TaskKey(id), i, |run|) && ChangesExplained(s0, run, id, j, i);
    if m: nat :| j < m && CommitsChange(run, m, id) {
      var e: nat :| EvictsFor(s0, run, e, m);
      assert Overlapped(s0, run, j, m, i);
    }
  }
}
