/** The cache as the adapter sees it: keys with an expiry, and one function per command or script. */
module Redis {
  import opened Prelude
  import opened Tasks

  /** Times are in milliseconds. */
  const GENERATION_TTL_FACTOR := 10
  const COUNT_LOCK_TTL := 3000
  const COUNT_LOCK_RETRY := 10
  const COUNT_INVALIDATION_LIMIT := COUNT_LOCK_TTL + 1000

  datatype Key =
    | TaskKey(id: int)
    | GenerationKey
    | PageKey(generation: string, req: ListTasksRequest)
    | CountKey
    | CountLockKey

  datatype Value =
    | TokenValue(token: string)
    | TaskValue(task: Task)
    | PageValue(tasks: seq<Task>)
    | CountValue(count: int)

  datatype Entry = Entry(value: Value, expires: nat)

  /** `now` is the server's clock in milliseconds.  An entry whose time has come is no longer visible. */
  datatype Store = Store(entries: map<Key, Entry>, now: nat) {

    function Get(k: Key): Option<Value> {
      if k in entries && now < entries[k].expires then Some(entries[k].value) else None
    }

    function Set(k: Key, v: Value, ttl: nat): Store {
      this.(entries := entries[k := Entry(v, now + ttl)])
    }

    function Del(k: Key): Store {
      this.(entries := entries - {k})
    }

    /** `SET NX`: taken only when the key is free. */
    predicate Free(k: Key) {
      Get(k).None?
    }

    function SetNX(k: Key, v: Value, ttl: nat): Store {
      if Free(k) then Set(k, v, ttl) else this
    }

    /** The release script: delete the key only while it holds the caller's token. */
    function DelIfHolds(k: Key, token: string): Store {
      if Get(k) == Some(TokenValue(token)) then Del(k) else this
    }

    /** The generation script: keep the token that is there, or install `text`. */
    function GetOrInstall(k: Key, text: string, ttl: nat): Store {
      if Free(k) then Set(k, TokenValue(text), ttl) else this
    }

    /** Time passes, and the server forgets some keys under memory pressure. */
    function Weathered(lag: nat, dropped: set<Key>): Store {
      Store(entries - dropped, now + lag)
    }
  }
}
