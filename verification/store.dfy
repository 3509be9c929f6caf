/** The Redis key space as the server uses it: an immutable map from key to a
    value and an expiry tick on a logical clock. A key is live while the clock
    is strictly before its expiry. Each Redis transaction of the source is one
    update of this map. */
module Store {
  import opened Wrappers
  import opened Records

  /** What a key holds: a code pointer (the secret it addresses) or a record blob. */
  datatype Value = Pointer(target: string) | Blob(rec: Record)

  datatype Entry = Entry(value: Value, expiry: int)

  type Store = map<string, Entry>

  predicate Live(st: Store, now: int, k: string) {
    k in st && now < st[k].expiry
  }

  /** `GET key`: the value of a live key; an expired key reads as absent. */
  function Get(st: Store, now: int, k: string): (v: Option<Value>)
    ensures v.Some? <==> Live(st, now, k)
    ensures v.Some? ==> v.value == st[k].value
  {
    if Live(st, now, k) then Some(st[k].value) else None
  }

  /** `SET key value` followed by `EXPIRE key ttl`: the key holds `v` until
      `now + ttl`. A non-positive `ttl` leaves the key dead at once, as Redis
      deletes a key given a non-positive expiry. */
  function SetEx(st: Store, now: int, ttl: int, k: string, v: Value): Store {
    st[k := Entry(v, now + ttl)]
  }

  /** `st'` differs from `st` at most on the keys in `keys`. */
  ghost predicate UnchangedExcept(st: Store, st': Store, keys: set<string>) {
    forall k :: k !in keys ==> (k in st <==> k in st') && (k in st ==> st'[k] == st[k])
  }

  /** A written key reads back its value exactly until its new expiry; every
      other key reads as before. */
  lemma GetAfterSetEx(st: Store, now: int, ttl: int, k: string, v: Value, t: int, k': string)
    ensures Get(SetEx(st, now, ttl, k, v), t, k) == (if t < now + ttl then Some(v) else None)
    ensures k' != k ==> Get(SetEx(st, now, ttl, k, v), t, k') == Get(st, t, k')
    ensures UnchangedExcept(st, SetEx(st, now, ttl, k, v), {k})
  {
  }

  /** Once the clock reaches a key's expiry the key reads as absent, and stays so. */
  lemma ExpiredStaysAbsent(st: Store, k: string, t: int, t': int)
    requires k in st && st[k].expiry <= t <= t'
    ensures Get(st, t, k) == None && Get(st, t', k) == None
  {
  }
}
