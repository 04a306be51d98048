/** The two cache layers and the proxy in front of them: `pkg/cache`. */
module Cache {
  import opened Wrappers
  import opened GoIntegers

  type Key = seq<byte>
  type Value = seq<byte>

  /** A Redis string with the time from which it is gone; the local cache has no such time. */
  datatype Entry = Entry(value: Value, until: int)

  type Shared = map<Key, Entry>
  type Local = map<Key, Value>

  datatype Error = Miss | Backend

  /** The least TTL the shared layer can be given: its jitter is drawn from below a tenth of it. */
  const MIN_TTL: int := 10

  predicate JitterOk(ttl: int, jitter: int)
    requires ttl >= MIN_TTL
  {
    0 <= jitter < ttl / 10
  }

  function SharedGet(shared: Shared, now: int, k: Key): Option<Value> {
    if k in shared && now < shared[k].until then Some(shared[k].value) else None
  }

  function LocalGet(local: Local, k: Key): Option<Value> {
    if k in local then Some(local[k]) else None
  }

  /** What an atomic Get of a proxy answers when the shared layer is reachable. */
  function ProxyGet(shared: Shared, local: Local, now: int, k: Key): Option<Value> {
    if k in local then Some(local[k]) else SharedGet(shared, now, k)
  }

  /** The local layer after that Get: a non-empty value found in the shared layer is copied. */
  function Filled(shared: Shared, local: Local, now: int, k: Key): Local {
    var found := SharedGet(shared, now, k);
    if k !in local && found.Some? && |found.value| > 0 then local[k := found.value] else local
  }

  /** What a Get answers; the local layer answers alone when the shared one is out of reach. */
  function GetResult(shared: Shared, local: Local, now: int, k: Key, up: bool): Result<Value, Error> {
    if !up && k !in local then Err(Backend)
    else
      match ProxyGet(shared, local, now, k)
      case Some(v) => Ok(v)
      case None => Err(Miss)
  }

  // -------------------------------------------------------------------- layers

  class Redis {
    var entries: Shared

    constructor ()
      ensures entries == map[]
    {
      entries := map[];
    }

    method Set(now: int, k: Key, v: Value, ttl: int, jitter: int)
      requires ttl >= MIN_TTL && JitterOk(ttl, jitter)
      modifies this
      ensures entries == old(entries)[k := Entry(v, now + ttl + jitter)]
    {
      var life := ttl + jitter;
      entries := entries[k := Entry(v, now + life)];
    }

    method Get(now: int, k: Key) returns (r: Option<Value>)
      ensures r == SharedGet(entries, now, k)
      ensures r.Some? <==> k in entries && now < entries[k].until
      ensures r.Some? ==> r.value == entries[k].value
    {
      if k in entries && now < entries[k].until {
        return Some(entries[k].value);
      }
      return None;
    }

    method Del(k: Key)
      modifies this
      ensures entries == old(entries) - {k}
    {
      entries := entries - {k};
    }
  }

  class LocalCache {
    var entries: Local

    constructor ()
      ensures entries == map[]
    {
      entries := map[];
    }

    /** The time to live is not used. */
    method Set(k: Key, v: Value, ttl: int)
      modifies this
      ensures entries == old(entries)[k := v]
    {
      entries := entries[k := v];
    }

    method Get(k: Key) returns (r: Option<Value>)
      ensures r == LocalGet(entries, k)
    {
      return if k in entries then Some(entries[k]) else None;
    }

    method Del(k: Key)
      modifies this
      ensures entries == old(entries) - {k}
    {
      entries := entries - {k};
    }
  }

  /** A proxy owns its local layer and shares the distributed one. */
  class Proxy {
    const distributed: Redis
    const local: LocalCache
    const localTtl: int

    constructor (distributed: Redis, local: LocalCache, localTtl: int)
      ensures this.distributed == distributed && this.local == local && this.localTtl == localTtl
    {
      this.distributed, this.local, this.localTtl := distributed, local, localTtl;
    }

    /** Sets the shared layer, then the local one; `up` and `localUp` say whether they work. */
    method Set(now: int, k: Key, v: Value, ttl: int, jitter: int, up: bool, localUp: bool) returns (ok: bool)
      requires ttl >= MIN_TTL && JitterOk(ttl, jitter)
      modifies distributed, local
      ensures ok == (up && localUp)
      ensures distributed.entries == if up then old(distributed.entries)[k := Entry(v, now + ttl + jitter)] else old(distributed.entries)
      ensures local.entries == if up && localUp then old(local.entries)[k := v] else old(local.entries)
    {
      if !up {
        return false;
      }
      distributed.Set(now, k, v, ttl, jitter);
      if !localUp {
        return false;
      }
      local.Set(k, v, ttl);
      return true;
    }

    /**
     * Asks the local layer, then the shared one, and keeps what the shared one had.  A local
     * layer that cannot be read ends the call, one that cannot be written does not.
     */
    method Get(now: int, k: Key, up: bool, localReads: bool, localWrites: bool) returns (r: Result<Value, Error>)
      modifies local
      ensures r == if localReads then GetResult(distributed.entries, old(local.entries), now, k, up) else Err(Backend)
      ensures localReads && k in old(local.entries) ==> r == Ok(old(local.entries)[k]) && local.entries == old(local.entries)
      ensures localReads && k !in old(local.entries) && up ==>
                r == if k in distributed.entries && now < distributed.entries[k].until then Ok(distributed.entries[k].value) else Err(Miss)
      ensures r.Ok? && k !in old(local.entries) && localWrites && |r.value| > 0 ==> local.entries == old(local.entries)[k := r.value]
      ensures r == Err(Backend) <==> !localReads || (!up && k !in old(local.entries))
      ensures local.entries == if localReads && localWrites && up then Filled(distributed.entries, old(local.entries), now, k)
                               else old(local.entries)
    {
      if !localReads {
        return Err(Backend);
      }
      var long := local.Get(k);
      if long.Some? {
        return Ok(long.value);
      }
      if !up {
        return Err(Backend);
      }
      long := distributed.Get(now, k);
      if long.Some? && |long.value| > 0 && localWrites {
        local.Set(k, long.value, localTtl);
      }
      return if long.Some? then Ok(long.value) else Err(Miss);
    }

    /** Deletes from the shared layer first, then from the local one. */
    method Del(k: Key, up: bool, localUp: bool) returns (ok: bool)
      modifies distributed, local
      ensures ok == (up && localUp)
      ensures distributed.entries == if up then old(distributed.entries) - {k} else old(distributed.entries)
      ensures local.entries == if up && localUp then old(local.entries) - {k} else old(local.entries)
    {
      if !up {
        return false;
      }
      distributed.Del(k);
      if !localUp {
        return false;
      }
      local.Del(k);
      return true;
    }
  }

  /** What is set is found, by everybody whose local layer does not have the key, until its lifetime and jitter are over. */
  lemma SetIsFound(shared: Shared, local: Local, k: Key, v: Value, now: int, life: int, later: int)
    requires k !in local
    ensures var shared' := shared[k := Entry(v, now + life)];
            && GetResult(shared', local, later, k, true) == (if later < now + life then Ok(v) else Err(Miss))
            && (later < now + life && v != [] ==> Filled(shared', local, later, k) == local[k := v])
            && (later >= now + life || v == [] ==> Filled(shared', local, later, k) == local)
  {
  }

  // ----------------------------------------------------------- deletion order

  /** What can happen to a proxy's two layers while one of its deletions is under way. */
  datatype Op =
    | Get(now: int, k: Key)
    | SetShared(k: Key, e: Entry)   // by any proxy
    | SetLocal(k: Key, v: Value)
    | DelShared(k: Key)             // a deletion's first half, an expiry or an eviction
    | DelLocal(k: Key)

  datatype Layers = Layers(shared: Shared, local: Local)

  function Apply(l: Layers, op: Op): Layers {
    match op
    case Get(now, k) => l.(local := Filled(l.shared, l.local, now, k))
    case SetShared(k, e) => l.(shared := l.shared[k := e])
    case SetLocal(k, v) => l.(local := l.local[k := v])
    case DelShared(k) => l.(shared := l.shared - {k})
    case DelLocal(k) => l.(local := l.local - {k})
  }

  function After(l: Layers, ops: seq<Op>): Layers {
    if ops == [] then l else Apply(After(l, ops[..|ops| - 1]), ops[|ops| - 1])
  }

  predicate Sets(op: Op, k: Key) {
    (op.SetShared? || op.SetLocal?) && op.k == k
  }

  predicate NeverSets(ops: seq<Op>, k: Key) {
    forall i | 0 <= i < |ops| :: !Sets(ops[i], k)
  }

  /** A key the shared layer does not have cannot come back to it but by a Set. */
  lemma {:induction false} SharedStaysClear(l: Layers, ops: seq<Op>, k: Key)
    requires k !in l.shared && NeverSets(ops, k)
    ensures k !in After(l, ops).shared
    ensures k !in l.local ==> k !in After(l, ops).local
  {
    if ops != [] {
      SharedStaysClear(l, ops[..|ops| - 1], k);
    }
  }

  /**
   * After the two halves of a deletion, shared first, the key misses in the proxy until
   * somebody sets it, whatever Gets ran between the halves and since.
   */
  lemma DeletedKeyMisses(l: Layers, k: Key, between: seq<Op>, since: seq<Op>, now: int)
    requires NeverSets(between, k) && NeverSets(since, k)
    ensures var l1 := After(Apply(l, DelShared(k)), between);
            var l2 := After(Apply(l1, DelLocal(k)), since);
            ProxyGet(l2.shared, l2.local, now, k) == None
  {
    var l1 := After(Apply(l, DelShared(k)), between);
    SharedStaysClear(Apply(l, DelShared(k)), between, k);
    SharedStaysClear(Apply(l1, DelLocal(k)), since, k);
  }

  /** In the other order one Get in between would bring a shared value back for good. */
  lemma OtherOrderLeaks(l: Layers, k: Key, now: int, later: int)
    requires SharedGet(l.shared, now, k).Some? && |l.shared[k].value| > 0
    ensures var l1 := Apply(Apply(l, DelLocal(k)), Op.Get(now, k));
            var l2 := Apply(l1, DelShared(k));
            ProxyGet(l2.shared, l2.local, later, k) == Some(l.shared[k].value)
  {
    assert SharedGet(l.shared, now, k) == Some(l.shared[k].value);
  }
}
