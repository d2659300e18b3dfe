/** One Redis key: absent, or holding a value, with an optional expiry on an integer clock. */
module TtlStore {
  import opened Wrappers

  datatype Cell<+V> = Absent | Held(value: V, expiry: Option<int>)

  /** A key answers reads strictly before its expiry; a key without expiry always does. */
  predicate Live<V>(c: Cell<V>, now: int) {
    c.Held? && (c.expiry.Some? ==> now < c.expiry.value)
  }

  function SetEx<V>(value: V, ttl: int, now: int): Cell<V> {
    Held(value, Some(now + ttl))
  }

  /** INCR: counts a live key up and keeps its expiry, starts a dead one at 1 without expiry. */
  function Incr(c: Cell<nat>, now: int): Cell<nat> {
    if Live(c, now) then Held(c.value + 1, c.expiry) else Held(1, None)
  }

  /** EXPIRE on an existing key. */
  function Expire<V>(c: Cell<V>, ttl: int, now: int): Cell<V> {
    if Live(c, now) then Held(c.value, Some(now + ttl)) else c
  }

  /** The INCR of a caller that sends EXPIRE at once when the count comes back as 1. */
  function Bump(c: Cell<nat>, window: int, now: int): (b: Cell<nat>) {
    var counted := Incr(c, now);
    if counted.value == 1 then Expire(counted, window, now) else counted
  }
}
