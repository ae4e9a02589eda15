/** Every value in the cache, in flight or returned was the database's own answer at one moment, and is served no
    longer than one cache lifetime after it was stored, whatever becomes of the invalidations. */
module CacheProvenance {
  import opened Prelude
  import opened TaskTable
  import opened Redis
  import opened CacheProtocol
  import opened CacheHistory

  /** The snapshot names the state the database was in at its instant. */
  ghost predicate SnapOk(s: State, snap: Snapshot) {
    && snap.version < |s.db| == |s.commitAt|
    && s.commitAt[snap.version] <= snap.readAt <= s.Now()
    && (snap.version + 1 < |s.db| ==> snap.readAt <= s.commitAt[snap.version + 1])
  }

  /** The database's answer for what key `k` caches. */
  ghost predicate Shows(t: Table, k: Key, v: Value) {
    match k
    case TaskKey(id) => v.TaskValue? && Lookup(t, id) == Some(v.task)
    case PageKey(_, req) => v.PageValue? && v.tasks == ListAnswer(t, req)
    case CountKey => v.CountValue? && v.count == LiveCount(t)
    case _ => true
  }

  predicate IsData(k: Key) {
    k.TaskKey? || k.PageKey? || k.CountKey?
  }

  ghost predicate EntryOk(s: State, k: Key)
    requires k in s.store.entries
  {
    IsData(k) ==>
      && k in s.origin
      && SnapOk(s, s.origin[k].snap)
      && s.origin[k].snap.readAt <= s.origin[k].storedAt <= s.Now()
      && s.store.entries[k].expires == s.origin[k].storedAt + s.cfg.ttl
      && Shows(s.db[s.origin[k].snap.version], k, s.store.entries[k].value)
  }

  ghost predicate CountedOk(s: State, result: Counted) {
    SnapOk(s, result.snap) && result.n == LiveCount(s.db[result.snap.version])
  }

  /** A value a client holds or returned is an answer of the database. */
  ghost predicate ProcOk(s: State, p: Proc) {
    match p
    case GetStoring(id, task, snap) => SnapOk(s, snap) && Lookup(s.db[snap.version], id) == Some(task)
    case GetDone(id, task, snap) => SnapOk(s, snap) && Lookup(s.db[snap.version], id) == Some(task)
    case ListStoring(req, _, _, page, snap) => SnapOk(s, snap) && page == ListAnswer(s.db[snap.version], req)
    case ListDone(req, _, page, snap) => SnapOk(s, snap) && page == ListAnswer(s.db[snap.version], req)
    case CountSetting(_, _, _, result) => CountedOk(s, result)
    case CountReleasing(_, _, answer) => answer.Some? ==> CountedOk(s, answer.value)
    case CountDone(_, result) => CountedOk(s, result)
    case _ => true
  }

  ghost predicate ProvenanceOk(s: State) {
    && (forall k :: k in s.store.entries ==> EntryOk(s, k))
    && (forall c :: c in s.procs ==> ProcOk(s, s.procs[c]))
  }

  // ----- preservation -----

  ghost predicate Later(s: State, s': State) {
    && s'.cfg == s.cfg && s.Now() <= s'.Now()
    && |s.db| == |s.commitAt| && |s'.db| == |s'.commitAt|
    && s.db <= s'.db && s.commitAt <= s'.commitAt
    && (forall v :: |s.db| <= v < |s'.commitAt| ==> s.Now() <= s'.commitAt[v])
  }

  lemma SnapStands(s: State, s': State, snap: Snapshot)
    requires Later(s, s') && SnapOk(s, snap)
    ensures SnapOk(s', snap) && s'.db[snap.version] == s.db[snap.version]
  {
  }

  lemma EntryStands(s: State, s': State, k: Key)
    requires Later(s, s') && k in s.store.entries && EntryOk(s, k)
    requires k in s'.store.entries && s'.store.entries[k] == s.store.entries[k]
    requires k in s.origin ==> k in s'.origin && s'.origin[k] == s.origin[k]
    ensures EntryOk(s', k)
  {
    if IsData(k) {
      SnapStands(s, s', s.origin[k].snap);
    }
  }

  lemma ProcStands(s: State, s': State, p: Proc)
    requires Later(s, s') && ProcOk(s, p)
    ensures ProcOk(s', p)
  {
    match p
    case GetStoring(_, _, snap) => SnapStands(s, s', snap);
    case GetDone(_, _, snap) => SnapStands(s, s', snap);
    case ListStoring(_, _, _, _, snap) => SnapStands(s, s', snap);
    case ListDone(_, _, _, snap) => SnapStands(s, s', snap);
    case CountSetting(_, _, _, result) => SnapStands(s, s', result.snap);
    case CountReleasing(_, _, answer) => if answer.Some? { SnapStands(s, s', answer.value.snap); }
    case CountDone(_, result) => SnapStands(s, s', result.snap);
    case _ =>
  }

  /** No cached data was written, though some may be gone. */
  ghost predicate NothingStored(s: State, s': State) {
    forall k :: IsData(k) && k in s'.store.entries ==>
                  && k in s.store.entries && s'.store.entries[k] == s.store.entries[k]
                  && (k in s.origin ==> k in s'.origin && s'.origin[k] == s.origin[k])
  }

  lemma EntriesStand(s: State, s': State)
    requires ProvenanceOk(s) && Later(s, s') && NothingStored(s, s')
    ensures forall k :: k in s'.store.entries ==> EntryOk(s', k)
  {
    forall k | k in s'.store.entries ensures EntryOk(s', k) {
      if IsData(k) {
        EntryStands(s, s', k);
      }
    }
  }

  lemma EntryStored(s: State, s': State, k: Key, v: Value, snap: Snapshot, missed: set<nat>)
    requires ProvenanceOk(s) && Later(s, s') && s'.Now() == s.Now()
    requires s'.store == Stored(s, k, v, snap, missed).store && s'.origin == Stored(s, k, v, snap, missed).origin
    requires SnapOk(s, snap) && Shows(s.db[snap.version], k, v)
    ensures forall j :: j in s'.store.entries ==> EntryOk(s', j)
  {
    SnapStands(s, s', snap);
    forall j | j in s'.store.entries ensures EntryOk(s', j) {
      if j != k {
        EntryStands(s, s', j);
      }
    }
  }

  lemma ProcsStand(s: State, s': State, c: Client)
    requires ProvenanceOk(s) && Later(s, s') && OnlyClient(s, s', c) && ProcOk(s', s'.At(c))
    ensures forall d :: d in s'.procs ==> ProcOk(s', s'.procs[d])
  {
    forall d | d in s'.procs ensures ProcOk(s', s'.procs[d]) {
      if d in s.procs && s'.procs[d] == s.procs[d] {
        ProcStands(s, s', s.procs[d]);
      }
    }
  }

  lemma PresentOk(s: State)
    requires TimelineOk(s)
    ensures SnapOk(s, Present(s)) && s.db[Present(s).version] == s.Latest()
  {
  }

  // ----- what each step does to the cached data -----

  lemma GetStores(s: State, c: Client, g: GetStep)
    requires GetEnabled(s, c, g) && ProvenanceOk(s) && TimelineOk(s)
    ensures var s' := GetStepped(s, c, g); forall k :: k in s'.store.entries ==> EntryOk(s', k)
  {
    var p, s' := s.At(c), GetStepped(s, c, g);
    if g.GetStore? && g.o.Effective() {
      EntryStored(s, s', TaskKey(p.id), TaskValue(p.task), p.snap, Missed(s, p.id, p.snap.version));
    } else {
      EntriesStand(s, s');
    }
  }

  lemma GetHolds(s: State, c: Client, g: GetStep)
    requires GetEnabled(s, c, g) && ProcOk(s, s.At(c)) && TimelineOk(s)
    requires forall k :: k in s.store.entries ==> EntryOk(s, k)
    ensures var s' := GetStepped(s, c, g); ProcOk(s', s'.At(c))
  {
    PresentOk(s);
  }

  lemma ListStoresNothing(s: State, c: Client, l: ListStep)
    requires ListEnabled(s, c, l) && !(l.ListStore? && l.o.Effective())
    ensures NothingStored(s, ListStepped(s, c, l))
  {
  }

  lemma ListStoreStores(s: State, c: Client, o: Outcome)
    requires ListEnabled(s, c, ListStore(o)) && o.Effective() && ProvenanceOk(s) && TimelineOk(s)
    ensures var s' := ListStepped(s, c, ListStore(o)); forall k :: k in s'.store.entries ==> EntryOk(s', k)
  {
    var p := s.At(c);
    assert ProcOk(s, p);
    EntryStored(s, ListStepped(s, c, ListStore(o)), PageKey(p.generation, p.req), PageValue(p.page), p.snap, {});
  }

  lemma ListStores(s: State, c: Client, l: ListStep)
    requires ListEnabled(s, c, l) && ProvenanceOk(s) && TimelineOk(s)
    ensures var s' := ListStepped(s, c, l); forall k :: k in s'.store.entries ==> EntryOk(s', k)
  {
    if l.ListStore? && l.o.Effective() {
      ListStoreStores(s, c, l.o);
    } else {
      ListStoresNothing(s, c, l);
      ListLocal(s, c, l);
      EntriesStand(s, ListStepped(s, c, l));
    }
  }

  lemma ListLoadHolds(s: State, c: Client, o: Outcome)
    requires ListEnabled(s, c, ListLoad(o)) && TimelineOk(s)
    requires forall k :: k in s.store.entries ==> EntryOk(s, k)
    ensures ProcOk(s, ListStepped(s, c, ListLoad(o)).At(c))
  {
    var k := PageKey(s.At(c).generation, s.At(c).req);
    if s.store.Get(k).Some? {
      assert EntryOk(s, k);
    }
  }

  lemma ListReadHolds(s: State, c: Client, ok: bool)
    requires ListEnabled(s, c, ListRead(ok)) && TimelineOk(s)
    ensures ProcOk(s, ListStepped(s, c, ListRead(ok)).At(c))
  {
    PresentOk(s);
  }

  lemma ListHolds(s: State, c: Client, l: ListStep)
    requires ListEnabled(s, c, l) && !l.ListLoad? && !l.ListRead? && ProcOk(s, s.At(c))
    ensures ProcOk(s, ListStepped(s, c, l).At(c))
  {
  }

  lemma ListKeepsProc(s: State, c: Client, l: ListStep)
    requires ListEnabled(s, c, l) && ProvenanceOk(s) && TimelineOk(s)
    ensures var s' := ListStepped(s, c, l); ProcOk(s', s'.At(c))
  {
    var s' := ListStepped(s, c, l);
    assert ProcOk(s, s.At(c));
    if l.ListLoad? {
      ListLoadHolds(s, c, l.o);
    } else if l.ListRead? {
      ListReadHolds(s, c, l.ok);
    } else {
      ListHolds(s, c, l);
    }
    ListLocal(s, c, l);
    ProcStands(s, s', s'.At(c));
  }

  lemma CountStoresNothing(s: State, c: Client, n: CountStep)
    requires CountEnabled(s, c, n) && !(n.CountSet? && n.o.Effective())
    ensures NothingStored(s, CountStepped(s, c, n))
  {
    hide LiveCount;
  }

  lemma CountSetStores(s: State, c: Client, o: Outcome)
    requires CountEnabled(s, c, CountSet(o)) && o.Effective() && ProvenanceOk(s) && TimelineOk(s)
    ensures var s' := CountStepped(s, c, CountSet(o)); forall k :: k in s'.store.entries ==> EntryOk(s', k)
  {
    var p := s.At(c);
    assert ProcOk(s, p);
    EntryStored(s, CountStepped(s, c, CountSet(o)), CountKey, CountValue(p.result.n), p.result.snap, {});
  }

  lemma CountStores(s: State, c: Client, n: CountStep)
    requires CountEnabled(s, c, n) && ProvenanceOk(s) && TimelineOk(s)
    ensures var s' := CountStepped(s, c, n); forall k :: k in s'.store.entries ==> EntryOk(s', k)
  {
    if n.CountSet? && n.o.Effective() {
      CountSetStores(s, c, n.o);
    } else {
      CountStoresNothing(s, c, n);
      CountLocal(s, c, n);
      EntriesStand(s, CountStepped(s, c, n));
    }
  }

  lemma CountHitOk(s: State)
    requires CountKey in s.store.entries && EntryOk(s, CountKey)
    ensures var v := s.store.entries[CountKey].value;
            v.CountValue? && CountedOk(s, Counted(v.count, SnapOf(s, CountKey)))
  {
  }

  lemma CountReadHolds(s: State, c: Client, ok: bool)
    requires CountEnabled(s, c, CountRead(ok))
    requires CountedOk(s, Counted(LiveCount(s.Latest()), Present(s)))
    ensures ProcOk(s, CountStepped(s, c, CountRead(ok)).At(c))
  {
    hide LiveCount;
  }

  /** A count found in the cache is an answer of the database. */
  ghost predicate CountHitsOk(s: State) {
    s.store.Get(CountKey).Some? ==>
      var v := s.store.entries[CountKey].value;
      v.CountValue? && CountedOk(s, Counted(v.count, SnapOf(s, CountKey)))
  }

  lemma CountHoldsBefore(s: State, c: Client, n: CountStep)
    requires CountEnabled(s, c, n) && BeforeLock(n) && ProcOk(s, s.At(c)) && CountHitsOk(s)
    ensures ProcOk(s, CountStepped(s, c, n).At(c))
  {
    hide LiveCount;
  }

  lemma CountHoldsAfter(s: State, c: Client, n: CountStep)
    requires CountEnabled(s, c, n) && !BeforeLock(n) && !n.CountRead? && ProcOk(s, s.At(c)) && CountHitsOk(s)
    ensures ProcOk(s, CountStepped(s, c, n).At(c))
  {
    hide LiveCount;
  }

  lemma WriteStores(s: State, c: Client, w: WriteStep)
    requires WriteEnabled(s, c, w)
    ensures NothingStored(s, WriteStepped(s, c, w))
  {
    hide After, Allowed;
  }

  lemma ProvenanceKept(s: State, a: Step)
    requires Enabled(s, a) && TimelineOk(s) && ProvenanceOk(s)
    ensures ProvenanceOk(Stepped(s, a))
  {
    var s' := Stepped(s, a);
    match a
    case Env(_) =>
      EntriesStand(s, s');
      forall c | c in s'.procs ensures ProcOk(s', s'.procs[c]) { ProcStands(s, s', s.procs[c]); }
    case Getting(c, g) => GetStores(s, c, g); GetHolds(s, c, g); GetLocal(s, c, g); ProcsStand(s, s', c);
    case Listing(c, l) => ListStores(s, c, l); ListKeepsProc(s, c, l); ListLocal(s, c, l); ProcsStand(s, s', c);
    case Counting(c, n) => CountStores(s, c, n); CountKeepsProc(s, c, n); CountLocal(s, c, n); ProcsStand(s, s', c);
    case Writing(c, w) => WriteKeepsProvenance(s, c, w);
  }

  lemma CountKeepsProc(s: State, c: Client, n: CountStep)
    requires CountEnabled(s, c, n) && ProvenanceOk(s) && TimelineOk(s)
    ensures var s' := CountStepped(s, c, n); ProcOk(s', s'.At(c))
  {
    var s' := CountStepped(s, c, n);
    assert ProcOk(s, s.At(c));
    if n.CountRead? {
      PresentOk(s);
      CountReadHolds(s, c, n.ok);
    } else {
      if s.store.Get(CountKey).Some? {
        CountHitOk(s);
      }
      if BeforeLock(n) {
        CountHoldsBefore(s, c, n);
      } else {
        CountHoldsAfter(s, c, n);
      }
    }
    CountLocal(s, c, n);
    ProcStands(s, s', s'.At(c));
  }

  lemma WriteKeepsProvenance(s: State, c: Client, w: WriteStep)
    requires WriteEnabled(s, c, w) && ProvenanceOk(s) && TimelineOk(s)
    ensures ProvenanceOk(WriteStepped(s, c, w))
  {
    var s' := WriteStepped(s, c, w);
    WriteStores(s, c, w);
    WriteStaysWrite(s, c, w);
    if w.Commit? {
      CommitLocal(s, c, w.write, w.acked);
      GrownLater(s, s', c, w.write);
    } else {
      WriteLocal(s, c, w);
    }
    EntriesStand(s, s');
    ProcsStand(s, s', c);
  }

  lemma GrownLater(s: State, s': State, c: Client, write: Write)
    requires TimelineOk(s) && Grown(s, s', c, write) && s'.Now() == s.Now()
    ensures Later(s, s')
  {
    assert s.db <= s'.db && s.commitAt <= s'.commitAt;
  }
}
