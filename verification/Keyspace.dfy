/** Redis knows keys only as texts.  Because key texts are injective, any sequence of commands on renderable keys gets
    the same replies from a cache keyed by texts as from the cache keyed by `Key` that the rest of the model uses. */
module Keyspace {
  import opened Prelude
  import opened Redis
  import opened CacheKeys

  /** The cache as Redis holds it. */
  datatype TextStore = TextStore(texts: map<string, Entry>, now: nat) {

    function Get(text: string): Option<Value> {
      if text in texts && now < texts[text].expires then Some(texts[text].value) else None
    }

    function Set(text: string, v: Value, ttl: nat): TextStore {
      this.(texts := texts[text := Entry(v, now + ttl)])
    }

    function Del(text: string): TextStore {
      this.(texts := texts - {text})
    }

    function SetNX(text: string, v: Value, ttl: nat): TextStore {
      if Get(text).None? then Set(text, v, ttl) else this
    }

    function DelIfHolds(text: string, token: string): TextStore {
      if Get(text) == Some(TokenValue(token)) then Del(text) else this
    }

    function GetOrInstall(text: string, draw: string, ttl: nat): TextStore {
      if Get(text).None? then Set(text, TokenValue(draw), ttl) else this
    }

    function Weathered(lag: nat, dropped: set<string>): TextStore {
      TextStore(texts - dropped, now + lag)
    }
  }

  /** The two caches hold the same entries under every key the decorator can write. */
  ghost predicate SameEntries(texts: map<string, Entry>, entries: map<Key, Entry>) {
    forall k :: Renderable(k) ==>
                  && (Render(k) in texts <==> k in entries)
                  && (k in entries ==> texts[Render(k)] == entries[k])
  }

  ghost predicate Simulates(ts: TextStore, s: Store) {
    ts.now == s.now && SameEntries(ts.texts, s.entries)
  }

  /** Writing one text writes one key and no other. */
  lemma SetAgrees(texts: map<string, Entry>, entries: map<Key, Entry>, k: Key, e: Entry)
    requires SameEntries(texts, entries) && Renderable(k)
    ensures SameEntries(texts[Render(k) := e], entries[k := e])
  {
    forall j | Renderable(j) && j != k ensures Render(j) != Render(k) {
      if Render(j) == Render(k) {
        KeysDistinct(j, k);
      }
    }
  }

  /** Deleting one text deletes one key and no other. */
  lemma DelAgrees(texts: map<string, Entry>, entries: map<Key, Entry>, k: Key)
    requires SameEntries(texts, entries) && Renderable(k)
    ensures SameEntries(texts - {Render(k)}, entries - {k})
  {
    forall j | Renderable(j) && j != k ensures Render(j) != Render(k) {
      if Render(j) == Render(k) {
        KeysDistinct(j, k);
      }
    }
  }

  lemma GetAgrees(ts: TextStore, s: Store, k: Key)
    requires Simulates(ts, s) && Renderable(k)
    ensures ts.Get(Render(k)) == s.Get(k)
  {
  }

  /** Every command on the text of a key is the command on the key: same reply, and the caches stay the same. */
  lemma CommandsAgree(ts: TextStore, s: Store, k: Key, v: Value, ttl: nat, token: string)
    requires Simulates(ts, s) && Renderable(k)
    ensures ts.Get(Render(k)) == s.Get(k)
    ensures Simulates(ts.Set(Render(k), v, ttl), s.Set(k, v, ttl))
    ensures Simulates(ts.Del(Render(k)), s.Del(k))
    ensures Simulates(ts.SetNX(Render(k), v, ttl), s.SetNX(k, v, ttl))
    ensures Simulates(ts.DelIfHolds(Render(k), token), s.DelIfHolds(k, token))
    ensures Simulates(ts.GetOrInstall(Render(k), token, ttl), s.GetOrInstall(k, token, ttl))
  {
    GetAgrees(ts, s, k);
    SetAgrees(ts.texts, s.entries, k, Entry(v, s.now + ttl));
    SetAgrees(ts.texts, s.entries, k, Entry(TokenValue(token), s.now + ttl));
    DelAgrees(ts.texts, s.entries, k);
  }

  /** Time passes alike, and the texts forgotten are those of the keys forgotten. */
  lemma WeatherAgrees(ts: TextStore, s: Store, lag: nat, texts: set<string>, keys: set<Key>)
    requires Simulates(ts, s) && forall k :: Renderable(k) ==> (Render(k) in texts <==> k in keys)
    ensures Simulates(ts.Weathered(lag, texts), s.Weathered(lag, keys))
  {
  }

  // ----- sequences of commands -----

  datatype Command =
    | Look(k: Key)
    | Put(k: Key, v: Value, ttl: nat)
    | PutNew(k: Key, v: Value, ttl: nat)
    | Forget(k: Key)
    | ForgetIfHolds(k: Key, token: string)
    | Install(k: Key, draw: string, ttl: nat)
    | Weather(lag: nat, dropped: set<Key>)

  predicate Sendable(c: Command) {
    if c.Weather? then forall k :: k in c.dropped ==> Renderable(k) else Renderable(c.k)
  }

  /** The cache after a command, and what the command found under its key, which decides its reply. */
  function Sent(s: Store, c: Command): (Store, Option<Value>) {
    match c
    case Look(k) => (s, s.Get(k))
    case Put(k, v, ttl) => (s.Set(k, v, ttl), s.Get(k))
    case PutNew(k, v, ttl) => (s.SetNX(k, v, ttl), s.Get(k))
    case Forget(k) => (s.Del(k), s.Get(k))
    case ForgetIfHolds(k, token) => (s.DelIfHolds(k, token), s.Get(k))
    case Install(k, draw, ttl) => (s.GetOrInstall(k, draw, ttl), s.Get(k))
    case Weather(lag, dropped) => (s.Weathered(lag, dropped), None)
  }

  /** The same command on texts. */
  function SentAsText(ts: TextStore, c: Command): (TextStore, Option<Value>)
    requires Sendable(c)
  {
    match c
    case Look(k) => (ts, ts.Get(Render(k)))
    case Put(k, v, ttl) => (ts.Set(Render(k), v, ttl), ts.Get(Render(k)))
    case PutNew(k, v, ttl) => (ts.SetNX(Render(k), v, ttl), ts.Get(Render(k)))
    case Forget(k) => (ts.Del(Render(k)), ts.Get(Render(k)))
    case ForgetIfHolds(k, token) => (ts.DelIfHolds(Render(k), token), ts.Get(Render(k)))
    case Install(k, draw, ttl) => (ts.GetOrInstall(Render(k), draw, ttl), ts.Get(Render(k)))
    case Weather(lag, dropped) => (ts.Weathered(lag, set k | k in dropped :: Render(k)), None)
  }

  function Found(s: Store, cs: seq<Command>): seq<Option<Value>>
    decreases |cs|
  {
    if cs == [] then [] else [Sent(s, cs[0]).1] + Found(Sent(s, cs[0]).0, cs[1..])
  }

  function FoundAsText(ts: TextStore, cs: seq<Command>): seq<Option<Value>>
    requires forall i :: 0 <= i < |cs| ==> Sendable(cs[i])
    decreases |cs|
  {
    if cs == [] then [] else [SentAsText(ts, cs[0]).1] + FoundAsText(SentAsText(ts, cs[0]).0, cs[1..])
  }

  lemma CommandAgrees(ts: TextStore, s: Store, c: Command)
    requires Simulates(ts, s) && Sendable(c)
    ensures Simulates(SentAsText(ts, c).0, Sent(s, c).0) && SentAsText(ts, c).1 == Sent(s, c).1
  {
    hide Simulates;
    match c
    case Look(k) => CommandsAgree(ts, s, k, CountValue(0), 0, "");
    case Put(k, v, ttl) => CommandsAgree(ts, s, k, v, ttl, "");
    case PutNew(k, v, ttl) => CommandsAgree(ts, s, k, v, ttl, "");
    case Forget(k) => CommandsAgree(ts, s, k, CountValue(0), 0, "");
    case ForgetIfHolds(k, token) => CommandsAgree(ts, s, k, CountValue(0), 0, token);
    case Install(k, draw, ttl) => CommandsAgree(ts, s, k, CountValue(0), ttl, draw);
    case Weather(lag, dropped) =>
      DroppedTexts(dropped);
      WeatherAgrees(ts, s, lag, set k | k in dropped :: Render(k), dropped);
  }

  lemma DroppedTexts(keys: set<Key>)
    requires forall k :: k in keys ==> Renderable(k)
    ensures forall k :: Renderable(k) ==> (Render(k) in (set j | j in keys :: Render(j)) <==> k in keys)
  {
    forall k | Renderable(k) && Render(k) in (set j | j in keys :: Render(j)) ensures k in keys {
      var j :| j in keys && Render(j) == Render(k);
      KeysDistinct(j, k);
    }
  }

  /** Any sequence of commands, with time passing and keys forgotten between them, finds the same on both sides. */
  lemma {:induction false} SequencesAgree(ts: TextStore, s: Store, cs: seq<Command>)
    requires Simulates(ts, s) && forall i :: 0 <= i < |cs| ==> Sendable(cs[i])
    ensures FoundAsText(ts, cs) == Found(s, cs)
    decreases |cs|
  {
    if cs != [] {
      CommandAgrees(ts, s, cs[0]);
      SequencesAgree(SentAsText(ts, cs[0]).0, Sent(s, cs[0]).0, cs[1..]);
    }
  }
}
