/**
  The part of Redis the limiters rely on: integer counters that may carry a
  deadline.  Every function below is one command (or one MULTI pipeline), which
  Redis runs atomically.  Times are in milliseconds.
*/
module Redis {
  import opened Wrappers

  /** The three fixed windows of the gateway limits. */
  datatype Period = Minute | Hour | Day

  function PeriodSeconds(p: Period): int {
    match p
    case Minute => 60
    case Hour => 3600
    case Day => 86400
  }

  datatype Counter = Counter(value: int, deadline: Option<int>)

  type Store<!K> = map<K, Counter>

  function Alive(c: Counter, now: int): bool {
    c.deadline.None? || now < c.deadline.value
  }

  /** What is left of the store once the clock shows `now`. */
  function Purge<K>(store: Store<K>, now: int): Store<K> {
    map k | k in store && Alive(store[k], now) :: store[k]
  }

  /** INCRBY: a missing key counts as zero and is created without a deadline. */
  function IncrBy<K>(store: Store<K>, key: K, amount: int): Store<K> {
    if key in store
    then store[key := store[key].(value := store[key].value + amount)]
    else store[key := Counter(amount, None)]
  }

  /** EXPIRE: replaces the deadline of an existing key; a deadline that has already passed deletes the key. */
  function Expire<K>(store: Store<K>, now: int, key: K, seconds: int): Store<K> {
    if key !in store then store
    else if seconds <= 0 then map k | k in store && k != key :: store[k]
    else store[key := store[key].(deadline := Some(now + 1000 * seconds))]
  }

  /** TTL: whole seconds left, -1 for a key without a deadline, -2 for a missing key. */
  function Ttl<K>(store: Store<K>, now: int, key: K): int {
    if key !in store then -2
    else if store[key].deadline.None? then -1
    else (store[key].deadline.value - now + 500) / 1000
  }

  /**
    What a refused caller is told: waiting so long passes the counter's deadline to
    within half a second, and is never less than a second; without a deadline it is one.
  */
  predicate TellsWait<K>(store: Store<K>, now: int, key: K, seconds: int) {
    if key in store && store[key].deadline.Some? then
      var rest := store[key].deadline.value - now;
      seconds >= 1 && (rest - 500 <= 1000 * seconds <= rest + 500 || (seconds == 1 && rest < 500))
    else seconds == 1
  }

  lemma TtlTellsWait<K>(store: Store<K>, now: int, key: K)
    ensures TellsWait(store, now, key, Max(Ttl(store, now, key), 1))
  {
  }
}
