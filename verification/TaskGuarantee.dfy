/** Single tasks: the cached row lags behind exactly when its fill overtook an eviction. */
module TaskGuarantee {
  import opened Prelude
  import opened TaskTable
  import opened Redis
  import opened CacheProtocol
  import opened CacheHistory
  import opened ListFreshness

  /** A cached task knows every finished eviction of that task that came too early for it. */
  ghost predicate TaskEntryOk(s: State, k: Key)
    requires k.TaskKey?
  {
    k in s.origin && s.origin[k].missed == Missed(s, k.id, s.origin[k].snap.version)
  }

  ghost predicate TasksOk(s: State) {
    && UpTo(s.h.evicted, |s.log|)
    && forall k :: k in s.store.entries && k.TaskKey? ==> TaskEntryOk(s, k)
  }

  // ----- preservation -----

  /** Steps that neither evict nor store a task. */
  ghost predicate TasksUntouched(s: State, s': State) {
    && s'.h.evicted == s.h.evicted && s.log <= s'.log
    && forall k :: k in s'.store.entries && k.TaskKey? ==>
                     k in s.store.entries && (k in s.origin ==> k in s'.origin && s'.origin[k] == s.origin[k])
  }

  lemma MissedStands(s: State, s': State, id: int, v: nat)
    requires s'.h.evicted == s.h.evicted && s.log <= s'.log && UpTo(s.h.evicted, |s.log|)
    ensures Missed(s', id, v) == Missed(s, id, v)
  {
    assert forall w :: w in s.h.evicted ==> s'.Issued(w) == s.Issued(w);
  }

  lemma TasksStand(s: State, s': State)
    requires TasksOk(s) && TasksUntouched(s, s')
    ensures TasksOk(s')
  {
    forall k | k in s'.store.entries && k.TaskKey? ensures TaskEntryOk(s', k) {
      MissedStands(s, s', k.id, s.origin[k].snap.version);
    }
  }

  lemma StoreKeepsTasks(s: State, c: Client, o: Outcome)
    requires GetEnabled(s, c, GetStore(o)) && TasksOk(s)
    ensures TasksOk(GetStepped(s, c, GetStore(o)))
  {
    var p, s' := s.At(c), GetStepped(s, c, GetStore(o));
    forall k | k in s'.store.entries && k.TaskKey? ensures TaskEntryOk(s', k) {
      MissedStands(s, s', k.id, s'.origin[k].snap.version);
      if !(o.Effective() && k == TaskKey(p.id)) {
        assert TaskEntryOk(s, k);
      }
    }
  }

  lemma EvictKeepsTasks(s: State, c: Client, o: Outcome)
    requires WriteEnabled(s, c, Evict(o)) && TasksOk(s) && s.At(c).version <= |s.log|
    ensures TasksOk(WriteStepped(s, c, Evict(o)))
  {
    var v, s' := s.At(c).version, WriteStepped(s, c, Evict(o));
    forall k | k in s'.store.entries && k.TaskKey? ensures TaskEntryOk(s', k) {
      assert TaskEntryOk(s, k);
      assert Missed(s', k.id, s.origin[k].snap.version) == Missed(s, k.id, s.origin[k].snap.version);
    }
  }

  lemma GetLeavesTasks(s: State, c: Client, g: GetStep)
    requires GetEnabled(s, c, g) && !g.GetStore?
    ensures TasksUntouched(s, GetStepped(s, c, g))
  {
  }

  lemma ListLeavesTasks(s: State, c: Client, l: ListStep)
    requires ListEnabled(s, c, l)
    ensures TasksUntouched(s, ListStepped(s, c, l))
  {
  }

  lemma CountLeavesTasks(s: State, s': State, c: Client)
    requires CountFrame(s, s', c)
    ensures TasksUntouched(s, s')
  {
  }

  lemma WriteLeavesTasks(s: State, c: Client, w: WriteStep)
    requires WriteEnabled(s, c, w) && !w.Evict?
    ensures TasksUntouched(s, WriteStepped(s, c, w))
  {
    hide After, Allowed;
  }

  lemma TasksKept(s: State, a: Step)
    requires Enabled(s, a) && OwnersOk(s) && TasksOk(s)
    ensures TasksOk(Stepped(s, a))
  {
    var s' := Stepped(s, a);
    match a
    case Env(_) => TasksStand(s, s');
    case Getting(c, g) =>
      if g.GetStore? {
        StoreKeepsTasks(s, c, g.o);
      } else {
        GetLeavesTasks(s, c, g);
        TasksStand(s, s');
      }
    case Listing(c, l) => ListLeavesTasks(s, c, l); TasksStand(s, s');
    case Counting(c, n) => CountLocal(s, c, n); CountLeavesTasks(s, s', c); TasksStand(s, s');
    case Writing(c, w) =>
      if w.Evict? {
        assert PendingVersion(s.At(c)) == Some(s.At(c).version);
        EvictKeepsTasks(s, c, w.o);
      } else {
        WriteLeavesTasks(s, c, w);
        TasksStand(s, s');
      }
  }

  // ----- what a cached task means -----

  /** Version `w` is an update or deletion of task `id`. */
  ghost predicate Changes(s: State, w: nat, id: int) {
    1 <= w <= |s.log| && Touched(s.log[w - 1]) == id && !s.log[w - 1].Insert?
  }

  /** Ids are never used twice: once a row exists no later insert has its id. */
  lemma {:induction false} RowsStay(s: State, id: int, v: nat, u: nat)
    requires TimelineOk(s) && v <= u < |s.db| && id in s.db[v]
    ensures id in s.db[u]
  {
    if v < u {
      RowsStay(s, id, v, u - 1);
    }
  }

  /** Between two versions with no update or deletion of a live task, its row stays as it was. */
  lemma {:induction false} RowStands(s: State, id: int, v: nat, u: nat)
    requires TimelineOk(s) && v <= u < |s.db| && Lookup(s.db[v], id).Some?
    requires forall w :: v < w <= u ==> !Changes(s, w, id)
    ensures Lookup(s.db[u], id) == Lookup(s.db[v], id)
  {
    if v < u {
      RowStands(s, id, v, u - 1);
      RowsStay(s, id, v, u - 1);
      RowStandsOnce(s, id, u - 1);
    }
  }

  lemma RowStandsOnce(s: State, id: int, v: nat)
    requires TimelineOk(s) && v < |s.log| && id in s.db[v] && !Changes(s, v + 1, id)
    ensures Lookup(s.db[v + 1], id) == Lookup(s.db[v], id)
  {
    assert Allowed(s.db[v], s.log[v]);
    UntouchedLookup(s.db[v], s.log[v], id);
  }
}
