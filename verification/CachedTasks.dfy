/** The cache decorator as one process runs it, command by command, over the Postgres adapter. */
module CachedTasks {
  import opened Prelude
  import opened Tasks
  import opened TaskTable
  import opened Statements
  import opened PostgresTasks
  import opened Redis
  import opened Coherence
  import Database

  /** One cache command: the time until it arrives, the keys forgotten by then, and its fate. */
  datatype Exchange = Exchange(outcome: Outcome, lag: nat, dropped: set<Key>)

  /** Everything the environment decides during one call.  `tries` is the fate of each attempt at the count lock; these
      commands take no time of their own. */
  datatype Net = Net(
    up: bool, io: Outcome, generation: Exchange, load: Exchange, store: Exchange, evict: Exchange, retire: Exchange,
    recheck: Exchange, fill: Exchange, del: Exchange, release: Exchange, tries: nat -> Outcome)

  /** How long the count lock is still taken by a lease of `s`. */
  function LeaseLeft(s: Store): nat {
    if CountLockKey in s.entries && s.now < s.entries[CountLockKey].expires then s.entries[CountLockKey].expires - s.now
    else 0
  }

  /** What `time` leaves of a lease. */
  function Left(lease: nat, time: nat): nat {
    if time < lease then lease - time else 0
  }

  lemma WeatherLeavesLease(s: Store, lag: nat, dropped: set<Key>)
    ensures LeaseLeft(s.Weathered(lag, dropped)) <= Left(LeaseLeft(s), lag)
  {
  }

  /** How many attempts at the count lock fail before a lease of that length is over. */
  function Attempts(lease: nat): nat {
    (lease + COUNT_LOCK_RETRY - 1) / COUNT_LOCK_RETRY
  }

  /** An abandoned lease does not keep a caller with `limit` from the lock: each attempt that is needed is answered, and
      the last of them comes in time. */
  ghost predicate LockComes(tries: nat -> Outcome, lease: nat, limit: nat) {
    && Attempts(lease) * COUNT_LOCK_RETRY < limit
    && forall i: nat :: i <= Attempts(lease) ==> tries(i).Acked?
  }

  /** The count is deleted behind a lease: the lock comes, and the deletion arrives within the four seconds. */
  ghost predicate CountGoes(net: Net, lease: nat) {
    && LockComes(net.tries, lease, COUNT_INVALIDATION_LIMIT)
    && net.del.outcome.Effective() && Attempts(lease) * COUNT_LOCK_RETRY + net.del.lag < COUNT_INVALIDATION_LIMIT
  }

  /** What lets the count go behind a lease lets it go behind a shorter one. */
  lemma ShorterLease(net: Net, lease: nat, shorter: nat)
    requires CountGoes(net, lease) && shorter <= lease
    ensures CountGoes(net, shorter)
  {
  }

  /** The commands by which a successful call invalidates what its write changed arrive, when a lease was on the lock as
      the call began; reads need none. */
  ghost predicate Invalidates(call: Database.Call, net: Net, lease: nat) {
    match call
    case Create(_) => net.retire.outcome.Effective() && CountGoes(net, Left(lease, net.retire.lag))
    case Update(_) => net.evict.outcome.Effective() && net.retire.outcome.Effective()
    case Delete(_) =>
      && net.evict.outcome.Effective() && net.retire.outcome.Effective()
      && CountGoes(net, Left(lease, net.evict.lag + net.retire.lag))
    case _ => true
  }

  /** A lock the call takes it gives back. */
  ghost predicate GivesLockBack(net: Net) {
    net.release.outcome.Effective() && forall i: nat :: !net.tries(i).Unacked?
  }

  /** The longest lease a call can find when those before it came with `nets`. */
  ghost function LeaseFound(first: nat, nets: seq<Net>): nat {
    if nets == [] then first
    else if GivesLockBack(nets[|nets| - 1]) then LeaseFound(first, nets[..|nets| - 1])
    else COUNT_LOCK_TTL
  }

  lemma LeaseFoundFirst(first: nat, nets: seq<Net>)
    ensures LeaseFound(first, nets[..0]) == first
  {
  }

  lemma LeaseFoundMore(first: nat, nets: seq<Net>, i: nat)
    requires i < |nets|
    ensures LeaseFound(first, nets[..i + 1]) ==
            if GivesLockBack(nets[i]) then LeaseFound(first, nets[..i]) else COUNT_LOCK_TTL
  {
    assert nets[..i + 1][..i] == nets[..i];
  }

  predicate IsWrite(call: Database.Call) {
    call.Create? || call.Update? || call.Delete?
  }

  /** Either the statement of a write never arrives, or it is answered and what invalidates for it arrives. */
  ghost predicate Settles(call: Database.Call, net: Net, lease: nat) {
    IsWrite(call) ==> net.io.Lost? || (net.io.Acked? && Invalidates(call, net, lease))
  }

  lemma SettlesSooner(call: Database.Call, net: Net, lease: nat, shorter: nat)
    requires Settles(call, net, lease) && shorter <= lease
    ensures Settles(call, net, shorter)
  {
    if IsWrite(call) && !net.io.Lost? {
      match call
      case Create(_) => ShorterLease(net, Left(lease, net.retire.lag), Left(shorter, net.retire.lag));
      case Delete(_) =>
        ShorterLease(net, Left(lease, net.evict.lag + net.retire.lag), Left(shorter, net.evict.lag + net.retire.lag));
      case _ =>
    }
  }

  /** In figures: with every command answered and a deletion of the count that takes less than a second, any call settles
      behind any lease. */
  lemma OrdinaryCallsSettle(call: Database.Call, net: Net, lease: nat)
    requires lease <= 3000 && net.io.Acked? && net.evict.outcome.Effective() && net.retire.outcome.Effective()
    requires (forall i: nat :: net.tries(i).Acked?) && net.del.outcome.Effective() && net.del.lag < 1000
    ensures Settles(call, net, lease)
  {
  }

  /** Reads settle whatever happens. */
  lemma ReadsSettle(call: Database.Call, net: Net, lease: nat)
    requires call.GetByID? || call.List? || call.Count?
    ensures Settles(call, net, lease)
  {
  }

  /** Whether the call's statement, if it sends one, reaches the database. */
  predicate Reaches(call: Database.Call, net: Net) {
    if IsWrite(call) then net.io.Effective() else net.up
  }

  /** A command that arrives at once, with nothing forgotten, and succeeds. */
  ghost predicate Calm(x: Exchange) {
    x.outcome.Acked? && x.lag == 0 && x.dropped == {}
  }

  /** The text of the generation in force, if any. */
  function Generation(s: Store): Option<string> {
    var v := s.Get(GenerationKey);
    if v.Some? && v.value.TokenValue? then Some(v.value.token) else None
  }

  /** No one but the holder of `token` has the count lock. */
  predicate LockedAtMostBy(s: Store, token: string) {
    s.Get(CountLockKey) in {None, Some(TokenValue(token))}
  }

  /** The reply Postgres alone would give, or, to a read out of its reach, the one it would have given. */
  ghost predicate Faithful(d: Database.Db, e: Database.Event, reply: Database.Reply)
    requires d.Valid()
  {
    reply == Database.Answered(d, e).1 || (!IsWrite(e.call) && reply == Database.Served(d, e.call, e.at).1)
  }

  /** The replies so far are faithful. */
  ghost predicate AllFaithful(d: Database.Db, events: seq<Database.Event>, replies: seq<Database.Reply>)
    requires d.Valid()
  {
    |replies| <= |events|
    && forall i :: 0 <= i < |replies| ==> Faithful(Database.Ran(d, events[..i]), events[i], replies[i])
  }

  /** Only a read out of reach of Postgres gets another reply than Postgres would have given. */
  lemma FaithfulIsEqual(d: Database.Db, events: seq<Database.Event>, replies: seq<Database.Reply>)
    requires d.Valid() && AllFaithful(d, events, replies) && |replies| == |events|
    ensures forall i :: 0 <= i < |events| && (events[i].reached || IsWrite(events[i].call)) ==>
                          replies[i] == Database.Replies(d, events)[i]
  {
    forall i | 0 <= i < |events| && (events[i].reached || IsWrite(events[i].call))
      ensures replies[i] == Database.Replies(d, events)[i]
    {
      Database.RanMore(d, events, i);
    }
  }

  class CachedDb {
    const next: PostgresDb
    const ttl: nat
    const text: Texts
    var store: Store
    var drawn: nat

    ghost predicate Valid()
      reads this, next
    {
      next.Valid() && TextsOk(store, text, drawn) && LockBounded(store)
    }

    ghost predicate Coherent()
      reads this, next
    {
      Agrees(store, next.rows)
    }

    constructor (next: PostgresDb, ttl: nat, text: Texts, now: nat)
      requires next.Valid() && NeverRepeats(text)
      ensures Valid() && Coherent() && this.next == next && this.ttl == ttl
    {
      this.next, this.ttl, this.text := next, ttl, text;
      store, drawn := Store(map[], now), 0;
    }

    // ----- commands -----

    /** Time passes and keys are forgotten before a command arrives. */
    method Travel(x: Exchange)
      modifies this`store
      ensures store == old(store).Weathered(x.lag, x.dropped)
    {
      store := store.Weathered(x.lag, x.dropped);
    }

    /** A value only if the command succeeds and finds one. */
    method Load(k: Key, x: Exchange) returns (v: Option<Value>)
      requires Valid()
      modifies this`store
      ensures Valid() && (old(Coherent()) ==> Coherent())
      ensures store == old(store).Weathered(x.lag, x.dropped)
      ensures v == if x.outcome.Acked? then store.Get(k) else None
      ensures LeaseLeft(store) <= LeaseLeft(old(store))
    {
      WeatherLeavesLease(store, x.lag, x.dropped);
      WeatherKeeps(store, next.rows, x.lag, x.dropped);
      WeatherKeepsTexts(store, text, drawn, x.lag, x.dropped);
      Travel(x);
      v := if x.outcome.Acked? then store.Get(k) else None;
    }

    // ----- GetByID -----

    method GetByID(id: int, net: Net) returns (r: Result<Task, DbError>)
      requires Valid() && Coherent()
      modifies this`store
      ensures Valid() && Coherent()
      ensures var answer := if IsLive(next.rows, id) then Ok(next.rows[id].task) else Err(NotFound);
              r == answer || (!net.up && r == Err(Unavailable))
      ensures r.Ok? ==> id in next.rows && next.rows[id].deletedAt.None? && r.value == next.rows[id].task
      ensures r == Err(NotFound) ==> id !in next.rows || next.rows[id].deletedAt.Some?
      // a hit needs no database
      ensures net.load.outcome.Acked? && old(store).Weathered(net.load.lag, net.load.dropped).Get(TaskKey(id)).Some? ==> r.Ok?
      // what was found is cached afterwards, and nothing else is
      ensures r.Ok? && net.store.outcome.Effective() && ttl > 0 ==> store.Get(TaskKey(id)) == Some(TaskValue(r.value))
      ensures r.Err? ==> store.entries.Keys <= old(store).entries.Keys
      ensures LeaseLeft(store) <= LeaseLeft(old(store))
    {
      var cached := Load(TaskKey(id), net.load);
      if cached.Some? && cached.value.TaskValue? {
        return Ok(cached.value.task);
      }
      r := next.GetByID(id, net.up);
      if r.Ok? {
        StoreTask(id, r.value, net.store);
      }
    }

    method StoreTask(id: int, task: Task, x: Exchange)
      requires Valid() && Coherent() && IsLive(next.rows, id) && task == next.rows[id].task
      modifies this`store
      ensures Valid() && Coherent()
      ensures x.outcome.Effective() && ttl > 0 ==> store.Get(TaskKey(id)) == Some(TaskValue(task))
      ensures x.outcome.Effective() ==>
                TaskKey(id) in store.entries && store.entries[TaskKey(id)].expires == store.now + ttl
      ensures LeaseLeft(store) <= LeaseLeft(old(store))
    {
      WeatherLeavesLease(store, x.lag, x.dropped);
      WeatherKeeps(store, next.rows, x.lag, x.dropped);
      WeatherKeepsTexts(store, text, drawn, x.lag, x.dropped);
      Travel(x);
      TaskStored(store, next.rows, id, ttl);
      if x.outcome.Effective() {
        store := store.Set(TaskKey(id), TaskValue(task), ttl);
      }
    }

    // ----- List -----

    /** The current generation, installing a fresh one if there is none; nothing when the script fails. */
    method ListGeneration(x: Exchange) returns (generation: Option<string>)
      requires Valid() && Coherent()
      modifies this`store, this`drawn
      ensures Valid() && Coherent()
      ensures generation.Some? ==> Generation(store) == generation
      ensures generation.Some? ==> x.outcome.Acked?
      ensures forall k :: k != GenerationKey && k in store.entries ==> k in old(store).entries
      ensures Calm(x) && old(Generation(store)).Some? ==> generation == old(Generation(store)) && store == old(store)
      ensures x.outcome.Acked? && ttl > 0 ==> generation.Some?
      ensures generation.Some? ==> forall i :: i >= drawn ==> generation.value != text(i)
      // with none in force, the text just drawn
      ensures x.outcome.Acked? && ttl > 0 && old(store).Weathered(x.lag, x.dropped).Free(GenerationKey) ==>
                && generation == Some(text(old(drawn)))
                && store.entries[GenerationKey].expires == store.now + 10 * ttl
      ensures LeaseLeft(store) <= LeaseLeft(old(store))
    {
      WeatherLeavesLease(store, x.lag, x.dropped);
      WeatherKeeps(store, next.rows, x.lag, x.dropped);
      WeatherKeepsTexts(store, text, drawn, x.lag, x.dropped);
      Travel(x);
      var draw := text(drawn);
      GenerationInstalled(store, next.rows, text, drawn, ttl * GENERATION_TTL_FACTOR);
      drawn := drawn + 1;
      if x.outcome.Effective() {
        store := store.GetOrInstall(GenerationKey, draw, ttl * GENERATION_TTL_FACTOR);
      }
      var v := store.Get(GenerationKey);
      if x.outcome.Acked? && v.Some? {
        generation := Some(v.value.token);
      } else {
        generation := None;
      }
    }

    method List(req: ListTasksRequest, net: Net) returns (r: Result<seq<Task>, DbError>)
      requires Valid() && Coherent()
      modifies this`store, this`drawn
      ensures Valid() && Coherent()
      ensures var answer := if req.limit < 0 then Err(NegativeLimit) else Ok(ListAnswer(next.rows, req));
              r == answer || (!net.up && r == Err(Unavailable))
      // by the fields of the rows: what is listed
      ensures r.Ok? ==> forall task :: task in r.value ==>
                          && task.id in next.rows && next.rows[task.id].deletedAt.None? && next.rows[task.id].task == task
                          && (req.status != "" ==> task.status == req.status)
                          && (req.assignee != "" ==> task.assignee == req.assignee)
                          && (req.cursor > 0 ==> task.id < req.cursor)
      // what is left out, in which order, and how many
      ensures r.Ok? ==> forall id :: id in next.rows && next.rows[id].deletedAt.None?
                                     && (req.status != "" ==> next.rows[id].task.status == req.status)
                                     && (req.assignee != "" ==> next.rows[id].task.assignee == req.assignee)
                                     && (req.cursor > 0 ==> id < req.cursor) ==>
                                       || next.rows[id].task in r.value
                                       || (|r.value| == req.limit && forall task :: task in r.value ==> task.id > id)
      ensures r.Ok? ==> forall i, j :: 0 <= i < j < |r.value| ==> r.value[i].id > r.value[j].id
      ensures r.Ok? ==> |r.value| <= req.limit
      // a hit under the generation in force needs no database
      ensures (Calm(net.generation) && Calm(net.load) && old(Generation(store)).Some?
               && old(store.Get(PageKey(Generation(store).value, req))).Some?) ==> r.Ok?
      // without a generation no page is kept
      ensures !net.generation.outcome.Acked? ==> forall k :: k in store.entries && k.PageKey? ==> k in old(store).entries
      // a page that was read is found again
      ensures r.Ok? && Calm(net.generation) && Calm(net.load) && Calm(net.store) && ttl > 0 ==>
                Generation(store).Some? && store.Get(PageKey(Generation(store).value, req)) == Some(PageValue(r.value))
      ensures LeaseLeft(store) <= LeaseLeft(old(store))
    {
      hide ListAnswer, Agrees, TextsOk, LockBounded;
      AnswerByFields(next.rows, req);
      var generation := ListGeneration(net.generation);
      if generation.Some? {
        var cached := LoadPage(generation.value, req, net.load);
        if cached.Some? {
          return Ok(cached.value);
        }
      }
      r := next.List(req, net.up);
      if r.Ok? && generation.Some? {
        StorePage(generation.value, req, r.value, net.store);
      }
    }

    /** The page stored under the generation in force, if the command succeeds and finds one. */
    method LoadPage(generation: string, req: ListTasksRequest, x: Exchange) returns (page: Option<seq<Task>>)
      requires Valid() && Coherent() && Generation(store) == Some(generation)
      modifies this`store
      ensures Valid() && Coherent() && LeaseLeft(store) <= LeaseLeft(old(store))
      ensures page.Some? ==> req.limit >= 0 && page.value == ListAnswer(next.rows, req)
      ensures store == old(store).Weathered(x.lag, x.dropped)
      ensures page.Some? <==> x.outcome.Acked? && store.Get(PageKey(generation, req)).Some?
      ensures Calm(x) ==> store == old(store)
      ensures page.Some? ==> store.Get(PageKey(generation, req)) == Some(PageValue(page.value))
    {
      hide ListAnswer, TasksAgree, ListsAgree, CountAgrees;
      if PageKey(generation, req) in store.entries {
        PageHeld(store, next.rows, generation, req);
      }
      CalmWeather(store);
      var cached := Load(PageKey(generation, req), x);
      page := None;
      if cached.Some? && cached.value.PageValue? {
        page := Some(cached.value.tasks);
      }
    }

    /** Stores a page that was just read under the generation it was looked up with. */
    method StorePage(generation: string, req: ListTasksRequest, page: seq<Task>, x: Exchange)
      requires Valid() && Coherent() && req.limit >= 0 && page == ListAnswer(next.rows, req)
      requires forall i :: i >= drawn ==> generation != text(i)
      modifies this`store
      ensures Valid() && Coherent()
      ensures Calm(x) && ttl > 0 ==> store == old(store).Set(PageKey(generation, req), PageValue(page), ttl)
      ensures LeaseLeft(store) <= LeaseLeft(old(store))
    {
      WeatherLeavesLease(store, x.lag, x.dropped);
      WeatherKeeps(store, next.rows, x.lag, x.dropped);
      WeatherKeepsTexts(store, text, drawn, x.lag, x.dropped);
      CalmWeather(store);
      Travel(x);
      PageStored(store, next.rows, generation, req, ttl);
      if x.outcome.Effective() {
        store := store.Set(PageKey(generation, req), PageValue(page), ttl);
      }
    }

    /** Replaces the generation, which puts every page out of reach. */
    method RetireLists(x: Exchange)
      requires Valid()
      modifies this`store, this`drawn
      ensures Valid()
      ensures x.outcome.Effective() ==> ListsAgree(store, next.rows)
      ensures x.outcome.Effective() ==>
                && GenerationKey in store.entries
                && store.entries[GenerationKey] == Entry(TokenValue(text(old(drawn))), store.now + 10 * ttl)
      ensures old(TasksAgree(store, next.rows)) ==> TasksAgree(store, next.rows)
      ensures old(CountAgrees(store, next.rows)) ==> CountAgrees(store, next.rows)
      ensures LeaseLeft(store) <= Left(LeaseLeft(old(store)), x.lag)
    {
      WeatherLeavesLease(store, x.lag, x.dropped);
      WeatherKeeps(store, next.rows, x.lag, x.dropped);
      WeatherKeepsTexts(store, text, drawn, x.lag, x.dropped);
      Travel(x);
      GenerationInstalled(store, next.rows, text, drawn, ttl * GENERATION_TTL_FACTOR);
      if x.outcome.Effective() {
        store := store.Set(GenerationKey, TokenValue(text(drawn)), ttl * GENERATION_TTL_FACTOR);
      }
      drawn := drawn + 1;
    }

    method Evict(id: int, x: Exchange)
      requires Valid()
      modifies this`store
      ensures Valid()
      ensures forall t: Table :: x.outcome.Effective() && TasksAgree(old(store).Del(TaskKey(id)), t) ==> TasksAgree(store, t)
      ensures old(CountAgrees(store, next.rows)) ==> CountAgrees(store, next.rows)
      ensures LeaseLeft(store) <= Left(LeaseLeft(old(store)), x.lag)
    {
      WeatherLeavesLease(store, x.lag, x.dropped);
      WeatherKeeps(store, next.rows, x.lag, x.dropped);
      WeatherKeepsTexts(store, text, drawn, x.lag, x.dropped);
      Travel(x);
      if x.outcome.Effective() {
        store := store.Del(TaskKey(id));
      }
    }

    // ----- the count lock -----

    /** `SET NX` every 10 ms until the lock is free, a command fails, or the context is over at `deadline`. */
    method AcquireCountLock(deadline: nat, tries: nat -> Outcome) returns (token: Option<string>)
      requires Valid()
      modifies this`store, this`drawn
      ensures Valid()
      ensures forall k :: k != CountLockKey ==>
                            (k in store.entries <==> k in old(store.entries))
                            && (k in store.entries ==> store.entries[k] == old(store.entries)[k])
      ensures old(store.now) <= store.now && (store.now <= deadline || store.now == old(store.now))
      ensures token.Some? ==> store.Get(CountLockKey) == Some(TokenValue(token.value)) && store.now < deadline
                              && store.entries[CountLockKey].expires == store.now + 3000
      // giving up takes nothing
      ensures token.None? && (forall i :: !tries(i).Unacked?) ==> store.entries == old(store).entries
      // facing one abandoned lease and no other contender
      ensures old(store.now) <= deadline && LockComes(tries, LeaseLeft(old(store)), deadline - old(store.now)) ==>
                token.Some? && store.now == old(store.now) + Attempts(LeaseLeft(old(store))) * COUNT_LOCK_RETRY
      // in figures: a free lock at once, an abandoned one before 3 s are over or at that moment
      ensures old(store).Free(CountLockKey) && tries(0).Acked? && old(store.now) < deadline ==>
                token.Some? && store.now == old(store.now)
      ensures (forall i: nat :: tries(i).Acked?) && old(store.now) + 3000 < deadline ==>
                token.Some? && store.now <= old(store.now) + 3000
      ensures ((forall i: nat :: tries(i).Acked?) && !old(store).Free(CountLockKey)
               && old(store).entries[CountLockKey].expires + 10 <= deadline) ==>
                token.Some? && store.now < old(store).entries[CountLockKey].expires + 10
    {
      var draw, start, k := text(drawn), store.now, 0;
      drawn := drawn + 1;
      while store.now < deadline
        invariant Valid()
        invariant store.entries == old(store.entries) && store.now == start + k * COUNT_LOCK_RETRY && k >= 0
        invariant store.now <= deadline || k == 0
        invariant k <= Attempts(LeaseLeft(old(store)))
        decreases deadline - store.now
      {
        var o, free := tries(k), store.Free(CountLockKey);
        if o.Effective() {
          store := store.SetNX(CountLockKey, TokenValue(draw), COUNT_LOCK_TTL);
        }
        if !o.Acked? {
          return None;
        }
        if free {
          return Some(draw);
        }
        if store.now + COUNT_LOCK_RETRY >= deadline {
          store := store.Weathered(deadline - store.now, {});
          return None;
        }
        store := store.Weathered(COUNT_LOCK_RETRY, {});
        k := k + 1;
      }
      token := None;
    }

    /** Deletes the lock only while it holds the caller's token. */
    method ReleaseCountLock(token: string, x: Exchange)
      requires Valid()
      modifies this`store
      ensures Valid() && (old(Coherent()) ==> Coherent())
      ensures old(TasksAgree(store, next.rows)) ==> TasksAgree(store, next.rows)
      ensures old(ListsAgree(store, next.rows)) ==> ListsAgree(store, next.rows)
      ensures old(CountAgrees(store, next.rows)) ==> CountAgrees(store, next.rows)
      ensures forall k :: k != CountLockKey ==> store.Get(k) == old(store).Weathered(x.lag, x.dropped).Get(k)
      // the caller's own lock is given back, another's is left alone
      ensures x.outcome.Effective() && LockedAtMostBy(old(store), token) ==> store.Free(CountLockKey)
      ensures x.outcome.Effective() && !old(store).Free(CountLockKey) && !LockedAtMostBy(old(store), token) ==>
                store.Get(CountLockKey) == old(store).Weathered(x.lag, x.dropped).Get(CountLockKey)
      ensures LeaseLeft(store) <= LeaseLeft(old(store))
    {
      WeatherLeavesLease(store, x.lag, x.dropped);
      WeatherKeeps(store, next.rows, x.lag, x.dropped);
      WeatherKeepsTexts(store, text, drawn, x.lag, x.dropped);
      Travel(x);
      if x.outcome.Effective() {
        store := store.DelIfHolds(CountLockKey, token);
      }
    }

    // ----- Count -----

    /** `timeout` bounds the whole call. */
    method Count(net: Net, timeout: nat) returns (r: Result<int, DbError>)
      requires Valid() && Coherent()
      modifies this`store, this`drawn
      ensures Valid() && Coherent()
      ensures r == Ok(LiveCount(next.rows)) || (!net.up && r == Err(Unavailable))
      // a hit needs no database
      ensures net.load.outcome.Acked? && old(store).Weathered(net.load.lag, net.load.dropped).Get(CountKey).Some? ==> r.Ok?
      // a count that was read is found again
      ensures (r.Ok? && Calm(net.load) && Calm(net.recheck) && Calm(net.fill) && Calm(net.release) && net.tries(0).Acked?
               && old(store).Free(CountLockKey) && timeout > 0 && ttl > 0) ==>
                store.Get(CountKey) == Some(CountValue(r.value))
      // the lock is given back
      ensures old(store).Free(CountLockKey) && net.release.outcome.Effective() && (forall i :: !net.tries(i).Unacked?) ==>
                store.Free(CountLockKey)
      ensures GivesLockBack(net) ==> LeaseLeft(store) <= LeaseLeft(old(store))
      // after a failed lookup the lock is not touched
      ensures !net.load.outcome.Acked? ==> drawn == old(drawn) && store.entries.Keys <= old(store).entries.Keys
    {
      hide LiveCount, TasksAgree, ListsAgree;
      var deadline := store.now + timeout;
      var cached := Load(CountKey, net.load);
      if cached.Some? {
        return Ok(cached.value.count);
      }
      if !net.load.outcome.Acked? {
        r := next.Count(net.up);
        return;
      }
      ghost var before := store;
      var token := AcquireCountLock(deadline, net.tries);
      OtherKeysAgree(before, store, next.rows);
      if token.None? {
        r := next.Count(net.up);
        return;
      }
      r := CountLocked(net, deadline);
      ReleaseCountLock(token.value, net.release);
    }

    /** The second look and the fill, under the lock. */
    method CountLocked(net: Net, deadline: nat) returns (r: Result<int, DbError>)
      requires Valid() && Coherent()
      modifies this`store
      ensures Valid() && Coherent()
      ensures r == Ok(LiveCount(next.rows)) || (!net.up && r == Err(Unavailable))
      ensures r.Ok? && Calm(net.recheck) && Calm(net.fill) && old(store.now) < deadline && ttl > 0 ==>
                store.Get(CountKey) == Some(CountValue(r.value))
      // a hit needs no database
      ensures net.recheck.outcome.Acked? && old(store).Weathered(net.recheck.lag, net.recheck.dropped).Get(CountKey).Some? ==>
                r.Ok?
      // a fill lives for one lifetime, and there is none after a failed second look or past the deadline
      ensures (r.Ok? && net.recheck.outcome.Acked? && net.fill.outcome.Effective() && store.now < deadline
               && old(store).Weathered(net.recheck.lag, net.recheck.dropped).Free(CountKey)) ==>
                && CountKey in store.entries
                && store.entries[CountKey] == Entry(CountValue(r.value), store.now + ttl)
      ensures !net.recheck.outcome.Acked? || store.now >= deadline ==> store.entries.Keys <= old(store).entries.Keys
      ensures forall token :: LockedAtMostBy(old(store), token) ==> LockedAtMostBy(store, token)
    {
      var cached := Load(CountKey, net.recheck);
      if cached.Some? {
        return Ok(cached.value.count);
      }
      r := next.Count(net.up);
      if r.Ok? && net.recheck.outcome.Acked? {
        WeatherKeeps(store, next.rows, net.fill.lag, net.fill.dropped);
        WeatherKeepsTexts(store, text, drawn, net.fill.lag, net.fill.dropped);
        Travel(net.fill);
        if net.fill.outcome.Effective() && store.now < deadline {
          store := store.Set(CountKey, CountValue(r.value), ttl);
        }
      }
    }

    /** Takes the same lock and deletes the count, within four seconds: longer than any lease left on the lock. */
    method InvalidateCount(net: Net)
      requires Valid()
      modifies this`store, this`drawn
      ensures Valid()
      ensures old(TasksAgree(store, next.rows)) ==> TasksAgree(store, next.rows)
      ensures old(ListsAgree(store, next.rows)) ==> ListsAgree(store, next.rows)
      ensures CountGoes(net, LeaseLeft(old(store))) ==> CountAgrees(store, next.rows)
      // in figures: whatever lease is left on the lock, a deletion that takes less than a second is in time
      ensures (forall i: nat :: net.tries(i).Acked?) && net.del.outcome.Effective() && net.del.lag < 1000 ==>
                CountAgrees(store, next.rows)
      ensures CountGoes(net, LeaseLeft(old(store))) && net.release.outcome.Effective() ==> store.Free(CountLockKey)
      ensures GivesLockBack(net) ==> LeaseLeft(store) <= LeaseLeft(old(store))
    {
      var deadline := store.now + COUNT_INVALIDATION_LIMIT;
      var token := AcquireCountLock(deadline, net.tries);
      if token.Some? {
        DeleteCount(net.del, deadline);
        ReleaseCountLock(token.value, net.release);
      }
    }

    /** Deletes the count if the command arrives before the deadline. */
    method DeleteCount(x: Exchange, deadline: nat)
      requires Valid()
      modifies this`store
      ensures Valid()
      ensures old(TasksAgree(store, next.rows)) ==> TasksAgree(store, next.rows)
      ensures old(ListsAgree(store, next.rows)) ==> ListsAgree(store, next.rows)
      ensures x.outcome.Effective() && old(store.now) + x.lag < deadline ==> CountAgrees(store, next.rows)
      ensures forall token :: LockedAtMostBy(old(store), token) ==> LockedAtMostBy(store, token)
    {
      WeatherKeeps(store, next.rows, x.lag, x.dropped);
      WeatherKeepsTexts(store, text, drawn, x.lag, x.dropped);
      Travel(x);
      if x.outcome.Effective() && store.now < deadline {
        store := store.Del(CountKey);
      }
    }

    // ----- writes -----

    /** A create retires the pages and the count; no task key needs evicting, because an id that was not there is not
        cached. */
    method Create(task: Task, net: Net, at: int) returns (r: Result<Task, DbError>)
      requires Valid() && Coherent()
      modifies this`store, this`drawn, next
      ensures Valid()
      ensures next.State() == if net.io.Effective() then Database.Served(old(next.State()), Database.Create(task), at).0
                              else old(next.State())
      ensures r == if !net.io.Acked? then Err(Unavailable)
                   else if Fits(task) then Ok(task.(id := old(next.nextId))) else Err(TooLong)
      // in terms of the columns
      ensures r.Ok? ==> next.rows == old(next.rows)[r.value.id := Row(r.value, at, at, None)] && r.value.id !in old(next.rows)
      // in figures
      ensures (r.Ok? && net.retire.outcome.Effective() && (forall i: nat :: net.tries(i).Acked?)
               && net.del.outcome.Effective() && net.del.lag < 1000) ==> Coherent()
      ensures (if r.Ok? then Invalidates(Database.Create(task), net, LeaseLeft(old(store)))
               else next.rows == old(next.rows)) ==> Coherent()
      ensures GivesLockBack(net) ==> LeaseLeft(store) <= LeaseLeft(old(store))
      ensures r.Err? ==> store == old(store)
    {
      hide TasksAgree, ListsAgree, CountAgrees;
      ghost var t, id := next.rows, next.nextId;
      r := next.Create(task, at, net.io);
      if r.Err? {
        return;
      }
      WriteSparesOthers(store, t, Insert(id, task, at));
      RetireLists(net.retire);
      InvalidateCount(net);
    }

    /** An update evicts the task and retires the pages; the count is as it was. */
    method Update(req: UpdateTaskRequest, net: Net, at: int) returns (r: Result<Task, DbError>)
      requires Valid() && Coherent()
      modifies this`store, this`drawn, next
      ensures Valid()
      ensures next.State() == if net.io.Effective() then Database.Served(old(next.State()), Database.Update(req), at).0
                              else old(next.State())
      ensures r == if !net.io.Acked? then Err(Unavailable)
                   else if !IsLive(old(next.rows), req.id) then Err(NotFound)
                   else if !Fits(Patched(old(next.rows)[req.id].task, req)) then Err(TooLong)
                   else Ok(Patched(old(next.rows)[req.id].task, req))
      // field by field
      ensures r.Ok? ==> req.id in old(next.rows) && old(next.rows)[req.id].deletedAt.None? && r.value.id == req.id
      ensures r.Ok? && req.title.Some? ==> r.value.title == req.title.value
      ensures r.Ok? && req.title.None? ==> r.value.title == old(next.rows)[req.id].task.title
      ensures r.Ok? && req.description.Some? ==> r.value.description == req.description.value
      ensures r.Ok? && req.description.None? ==> r.value.description == old(next.rows)[req.id].task.description
      ensures r.Ok? && req.status.Some? ==> r.value.status == req.status.value
      ensures r.Ok? && req.status.None? ==> r.value.status == old(next.rows)[req.id].task.status
      ensures r.Ok? && req.assignee.Some? ==> r.value.assignee == req.assignee.value
      ensures r.Ok? && req.assignee.None? ==> r.value.assignee == old(next.rows)[req.id].task.assignee
      ensures r.Ok? ==> next.rows == old(next.rows)[req.id := old(next.rows)[req.id].(task := r.value, updatedAt := at)]
      ensures r.Ok? && net.evict.outcome.Effective() && net.retire.outcome.Effective() ==> Coherent()
      ensures (if r.Ok? then Invalidates(Database.Update(req), net, LeaseLeft(old(store)))
               else next.rows == old(next.rows)) ==> Coherent()
      ensures GivesLockBack(net) ==> LeaseLeft(store) <= LeaseLeft(old(store))
      ensures r.Err? ==> store == old(store)
    {
      hide TasksAgree, ListsAgree, CountAgrees;
      ghost var t := next.rows;
      r := next.Update(req, at, net.io);
      if r.Err? {
        return;
      }
      WriteSparesOthers(store, t, Patch(req, at));
      UpdateSparesCount(store, t, Patch(req, at));
      Evict(req.id, net.evict);
      RetireLists(net.retire);
    }

    method Delete(id: int, net: Net, at: int) returns (r: Option<DbError>)
      requires Valid() && Coherent()
      modifies this`store, this`drawn, next
      ensures Valid()
      ensures next.State() == if net.io.Effective() then Database.Served(old(next.State()), Database.Delete(id), at).0
                              else old(next.State())
      ensures r == if !net.io.Acked? then Some(Unavailable) else if IsLive(old(next.rows), id) then None else Some(NotFound)
      ensures r.None? ==> id in old(next.rows) && old(next.rows)[id].deletedAt.None?
      ensures r.None? ==> next.rows == old(next.rows)[id := old(next.rows)[id].(deletedAt := Some(at))]
      // in figures
      ensures (r.None? && net.evict.outcome.Effective() && net.retire.outcome.Effective()
               && (forall i: nat :: net.tries(i).Acked?) && net.del.outcome.Effective() && net.del.lag < 1000) ==> Coherent()
      ensures (if r.None? then Invalidates(Database.Delete(id), net, LeaseLeft(old(store)))
               else next.rows == old(next.rows)) ==> Coherent()
      ensures GivesLockBack(net) ==> LeaseLeft(store) <= LeaseLeft(old(store))
      ensures r.Some? ==> store == old(store)
    {
      hide TasksAgree, ListsAgree, CountAgrees;
      ghost var t := next.rows;
      r := next.Delete(id, at, net.io);
      if r.Some? {
        return;
      }
      WriteSparesOthers(store, t, Remove(id, at));
      Evict(id, net.evict);
      RetireLists(net.retire);
      InvalidateCount(net);
    }

    // ----- the decorator refines the adapter -----

    /** One call through the cache.  A read whose statement would not have reached the database may be answered from
        the cache all the same, with what the database holds. */
    method Serve(e: Database.Event, net: Net, timeout: nat) returns (reply: Database.Reply)
      requires Valid() && Coherent() && e.reached == Reaches(e.call, net)
      requires Settles(e.call, net, LeaseLeft(store))
      modifies this`store, this`drawn, next
      ensures Valid() && Coherent()
      ensures GivesLockBack(net) ==> LeaseLeft(store) <= LeaseLeft(old(store))
      ensures next.State() == Database.Answered(old(next.State()), e).0
      ensures Faithful(old(next.State()), e, reply)
    {
      match e.call
      case Create(task) =>
        var r := Create(task, net, e.at);
        reply := if r.Ok? then Database.TaskReply(r.value) else Database.Failed(r.error);
      case GetByID(id) =>
        var r := GetByID(id, net);
        reply := if r.Ok? then Database.TaskReply(r.value) else Database.Failed(r.error);
      case List(req) =>
        var r := List(req, net);
        reply := if r.Ok? then Database.PageReply(r.value) else Database.Failed(r.error);
      case Update(req) =>
        var r := Update(req, net, e.at);
        reply := if r.Ok? then Database.TaskReply(r.value) else Database.Failed(r.error);
      case Delete(id) =>
        var r := Delete(id, net, e.at);
        reply := if r.None? then Database.Deleted else Database.Failed(r.value);
      case Count =>
        var r := Count(net, timeout);
        reply := if r.Ok? then Database.CountReply(r.value) else Database.Failed(r.error);
    }

    /** Any sequence of calls through the cache leaves the database as Postgres alone would, and gets, reply by reply,
        what Postgres alone would have answered, except that a read may be answered rightly while Postgres is out of
        reach.  Keys expire and are forgotten, and any command that no invalidation depends on fails. */
    method ServeAll(events: seq<Database.Event>, nets: seq<Net>, timeout: nat) returns (replies: seq<Database.Reply>)
      requires Valid() && Coherent() && |nets| == |events|
      requires forall i :: 0 <= i < |nets| ==> Settles(events[i].call, nets[i], LeaseFound(LeaseLeft(store), nets[..i]))
      requires forall i :: 0 <= i < |nets| ==> events[i].reached == Reaches(events[i].call, nets[i])
      modifies this`store, this`drawn, next
      ensures Valid() && Coherent()
      ensures next.State() == Database.Ran(old(next.State()), events)
      ensures |replies| == |events| && AllFaithful(old(next.State()), events, replies)
      ensures forall i :: 0 <= i < |events| && (events[i].reached || IsWrite(events[i].call)) ==>
                            replies[i] == Database.Replies(old(next.State()), events)[i]
    {
      hide LeaseFound, Settles, Reaches, Database.Answered, Database.Served;
      ghost var d := next.State();
      LeaseFoundFirst(LeaseLeft(store), nets);
      replies := [];
      for i := 0 to |events|
        invariant Valid() && Coherent()
        invariant next.State() == Database.Ran(d, events[..i]) && AllFaithful(d, events, replies) && |replies| == i
        invariant LeaseLeft(store) <= LeaseFound(LeaseLeft(old(store)), nets[..i])
      {
        LeaseFoundMore(LeaseLeft(old(store)), nets, i);
        SettlesSooner(events[i].call, nets[i], LeaseFound(LeaseLeft(old(store)), nets[..i]), LeaseLeft(store));
        var reply := Serve(events[i], nets[i], timeout);
        Database.RanMore(d, events, i);
        replies := replies + [reply];
      }
      assert events[..|events|] == events;
      FaithfulIsEqual(d, events, replies);
    }
  }
}
