/**
 * The code of the service, `app/turl/service.go`, over a table, a Redis and two proxies.
 *
 * A site keeps the log of the protocol events of everything that happened; its table and
 * caches are always those of the world after that log, so whatever the methods below do is
 * a run of `LinkService`.
 */
module Service {
  import opened Wrappers
  import opened GoIntegers
  import opened Storage
  import opened CacheValue
  import opened LinkService
  import opened LinkInvariant
  import opened LinkTheorems
  import opened Retrieval
  import Base58
  import Cache
  import Allocator
  import AllocatorTheorems

  const COMMAND: ProxyId := 0
  const QUERY: ProxyId := 1

  const JANITOR_BATCH_SIZE: nat := 100

  datatype RetrieveResult =
    | Answered(a: Answer)
    | BackendError
    | Panicked  // the shared cache is asked for a lifetime of less than ten nanoseconds

  datatype CreateResult =
    | Shortened(code: Key, expiresAt: Option<Time>)
    | InvalidUrl
    | NoNumber
    | NotFound
    | CreatePanicked

  datatype DeleteResult = Deleted | BadCode | NoRow | CacheError

  /** A tick of the janitor's ticker; the table may be unreachable. */
  datatype Tick = At(time: nat, up: bool)

  predicate Ascending(from: nat, ticks: seq<Tick>) {
    && (forall i | 0 <= i < |ticks| :: from <= ticks[i].time < TWO_63)
    && (forall i, j | 0 <= i < j < |ticks| :: ticks[i].time <= ticks[j].time)
  }

  /** For an ID, the expiry in the table tells whether the bound one is representable. */
  lemma TableTellsRepresentable(w: World, id: nat)
    requires Inv(w) && id in w.bound
    requires id in w.rows ==> Representable(w.rows[id].expiresAt)
    ensures Representable(w.bound[id].expiresAt)
  {
    assert BindingOk(w, id);
    if id in w.rows { assert LinkOf(w.rows[id]) == w.bound[id]; }
  }

  /**
   * A result for a key is the link its ID is bound to, live, or nothing; and unless the
   * table has a link whose expiry eight bytes cannot hold, it refines a look in the table.
   */
  predicate Right(rows: Rows, bound: map<nat, Binding>, now: Time, key: Key, result: Option<Url>) {
    && IdOf(key).Some?
    && var id := IdOf(key).value;
    && (result.Some? ==> id in bound && result.value == bound[id].url && !IsExpired(bound[id].expiresAt, now))
    && ((id in rows ==> Representable(rows[id].expiresAt)) ==> Refines(rows, id, now, result))
  }

  predicate RightNow(w: World, key: Key, result: Option<Url>) {
    Right(w.rows, w.bound, w.now, key, result)
  }

  /** Every answer that a Retrieve can settle in a reachable world is right. */
  lemma AnswersAreRight(configTtl: int, es: seq<Event>, e: Event, a: Answer)
    requires AnswerOf(After(Init(configTtl), es), e) == Some(a) && Retrieved(a)
    ensures RightNow(After(Init(configTtl), es), a.key, Outcome(a))
  {
    var w := After(Init(configTtl), es);
    Reachable(configTtl, es);
    AnswerFromBinding(w, e, a);
    var id := IdOf(a.key).value;
    if id in w.rows ==> Representable(w.rows[id].expiresAt) {
      if id in w.bound { TableTellsRepresentable(w, id); }
      RefinesTable(w, e, a);
    }
  }

  /** What fromCache finds. */
  datatype Lookup = Hit(url: Url) | Stale | Empty | Failed

  // ------------------------- what the calls answer and leave in the caches

  function LookupOf(value: Bytes, now: Time): Lookup {
    match VerdictOn(value, now)
    case Live(url) => Hit(url)
    case Dead => Stale
    case Malformed => Empty
  }

  function CacheLookup(cached: Result<Bytes, Cache.Error>, now: Time): Lookup {
    match cached
    case Ok(value) => LookupOf(value, now)
    case Err(Miss) => Empty
    case Err(Backend) => Failed
  }

  function TableReply(rows: Rows, configTtl: int, now: Time, key: Key, id: nat): RetrieveResult {
    if !Visible(rows, id) then Answered(Missing(key))
    else if IsExpired(rows[id].expiresAt, now) then Answered(Gone(key))
    else if CacheTtl(configTtl, rows[id].expiresAt, now) < Cache.MIN_TTL then Panicked
    else Answered(Resolved(key, rows[id].url))
  }

  function RetrieveReply(rows: Rows, configTtl: int, now: Time, key: Key, cached: Result<Bytes, Cache.Error>): RetrieveResult {
    match Base58.Decode(key)
    case Err(_) => Answered(Invalid(key))
    case Ok(id) =>
      match CacheLookup(cached, now)
      case Failed => BackendError
      case Stale => Answered(Gone(key))
      case Hit(url) => Answered(Resolved(key, url))
      case Empty => TableReply(rows, configTtl, now, key, id)
  }

  /** A Retrieve writes the caches after a miss that the table answers with a live row. */
  function Fills(key: Key, cached: Result<Bytes, Cache.Error>, now: Time, r: RetrieveResult): bool {
    Base58.Decode(key).Ok? && CacheLookup(cached, now).Empty? && r.Answered? && r.a.Resolved?
  }

  /** The entry of a link, with a jitter drawn from below a tenth of its lifetime. */
  function EntryOf(configTtl: int, now: Time, link: Binding, roll: nat): Cache.Entry
    requires CacheTtl(configTtl, link.expiresAt, now) >= Cache.MIN_TTL
  {
    var ttl := CacheTtl(configTtl, link.expiresAt, now);
    Cache.Entry(ValueOf(link), now + ttl + roll % (ttl / 10))
  }

  /** The lifetimes that the draws of the jitter can give an entry. */
  lemma EntryLives(configTtl: int, now: Time, link: Binding, roll: nat)
    requires CacheTtl(configTtl, link.expiresAt, now) >= 10
    ensures var e := EntryOf(configTtl, now, link, roll); var ttl := CacheTtl(configTtl, link.expiresAt, now);
            && e.value == EncodeValue(link.url, link.expiresAt)
            && now + ttl <= e.until < now + ttl + ttl / 10
            && (roll < ttl / 10 ==> e.until == now + ttl + roll)
  {
  }

  /** A shared entry that can still be read. */
  predicate IsThere(shared: Cache.Shared, key: Key, now: Time) {
    key in shared && now < shared[key].until
  }

  /** The answer from a cached value. */
  predicate FromValue(r: RetrieveResult, key: Key, value: Bytes, now: Time) {
    && DecodeValue(value).Some?
    && var (url, expiresAt) := DecodeValue(value).value;
    r == Answered(if IsOver(expiresAt, now) then Gone(key) else Resolved(key, url))
  }

  /** The answer from the table; the call panics when a live row would be cached for less than ten nanoseconds. */
  predicate FromRows(r: RetrieveResult, key: Key, rows: Rows, id: nat, configTtl: int, now: Time) {
    if id !in rows || rows[id].deleted then r == Answered(Missing(key))
    else if IsOver(rows[id].expiresAt, now) then r == Answered(Gone(key))
    else if configTtl < 10 || (rows[id].expiresAt.Some? && rows[id].expiresAt.value - now < 10) then r == Panicked
    else r == Answered(Resolved(key, rows[id].url))
  }

  /** Every way through a Retrieve, from what is in the layers and in the table. */
  ghost predicate Serves(r: RetrieveResult, rows: Rows, shared: Cache.Shared, local: Cache.Local, configTtl: int, now: Time, key: Key, up: bool) {
    match IdOf(key)
    case None => r == Answered(Invalid(key))
    case Some(id) =>
      if key in local then FromValue(r, key, local[key], now)
      else if !up then r == BackendError
      else if IsThere(shared, key, now) then FromValue(r, key, shared[key].value, now)
      else FromRows(r, key, rows, id, configTtl, now)
  }

  lemma CachedIsSound(w: World, key: Key, p: ProxyId, value: Bytes)
    requires Inv(w) && IdOf(key).Some?
    requires (key in LocalOf(w, p) && value == LocalOf(w, p)[key]) || (key in w.shared && value == w.shared[key].value)
    ensures DecodeValue(value).Some?
  {
    LocalOfBound(w, p);
    var link := w.bound[IdOf(key).value];
    DecodeOfEncode(link.url, link.expiresAt);
  }

  lemma ValueServes(rows: Rows, configTtl: int, key: Key, value: Bytes, now: Time)
    requires IdOf(key).Some? && DecodeValue(value).Some?
    ensures FromValue(RetrieveReply(rows, configTtl, now, key, Ok(value)), key, value, now)
  {
  }

  lemma RowsServe(rows: Rows, configTtl: int, key: Key, now: Time)
    requires IdOf(key).Some?
    ensures FromRows(RetrieveReply(rows, configTtl, now, key, Err(Cache.Miss)), key, rows, IdOf(key).value, configTtl, now)
  {
  }

  lemma ReplyServes(w: World, key: Key, up: bool)
    requires Inv(w)
    ensures var local := LocalOf(w, QUERY); var cached := Cache.GetResult(w.shared, local, w.now, key, up);
            Serves(RetrieveReply(w.rows, w.configTtl, w.now, key, cached), w.rows, w.shared, local, w.configTtl, w.now, key, up)
  {
    var local := LocalOf(w, QUERY);
    if IdOf(key).Some? {
      RowsServe(w.rows, w.configTtl, key, w.now);
      if key in local {
        CachedIsSound(w, key, QUERY, local[key]);
        ValueServes(w.rows, w.configTtl, key, local[key], w.now);
      } else if up && IsThere(w.shared, key, w.now) {
        CachedIsSound(w, key, QUERY, w.shared[key].value);
        ValueServes(w.rows, w.configTtl, key, w.shared[key].value, w.now);
      }
    }
  }

  /** A Retrieve that answers gives the machine's answer to it. */
  lemma ServedIsAnswer(w: World, t: TaskId, key: Key, up: bool, r: RetrieveResult)
    requires Inv(w) && t !in w.tasks && r.Answered?
    requires Serves(r, w.rows, w.shared, LocalOf(w, QUERY), w.configTtl, w.now, key, up)
    ensures AnswerNow(w, t, QUERY, key) == Some(r.a)
  {
    if IdOf(key).Some? {
      if Cache.ProxyGet(w.shared, LocalOf(w, QUERY), w.now, key).Some? {
        AnswerFromCache(w, t, QUERY, key);
      } else {
        AnswerFromRow(w, t, QUERY, key);
      }
    }
  }

  /** The record of a URL that is not soft-deleted. */
  predicate Recorded(rows: Rows, url: Url, id: nat) {
    Visible(rows, id) && rows[id].url == url
  }

  /** The record of a URL is soft-deleted, and keeps the URL in its index. */
  predicate Blocked(rows: Rows, url: Url) {
    exists id | id in rows :: rows[id].deleted && rows[id].url == url
  }

  /**
   * What a Create would publish has less than ten nanoseconds to go: the record of the URL,
   * if the URL is taken, and its own record otherwise.
   */
  predicate TooLate(rows: Rows, configTtl: int, now: Time, url: Url, own: Option<Time>) {
    if UrlTaken(rows, url) then
      exists id | id in rows :: Recorded(rows, url, id) && CacheTtl(configTtl, rows[id].expiresAt, now) < Cache.MIN_TTL
    else CacheTtl(configTtl, own, now) < Cache.MIN_TTL
  }

  lemma FoundIsTheRecord(rows: Rows, url: Url, found: Option<nat>)
    requires UniqueUrls(rows) && UrlTaken(rows, url) && FoundByUrl(rows, url, found)
    ensures found.None? <==> Blocked(rows, url)
    ensures forall id: nat | Recorded(rows, url, id) :: found == Some(id)
  {
  }

  class Site {
    const configTtl: int
    const db: Table
    const redis: Cache.Redis
    const writeCache: Cache.Proxy
    const readCache: Cache.Proxy
    const codec: Base58.Tables
    ghost var w: World
    ghost var log: seq<Event>

    ghost predicate Wired()
      reads codec.indices, codec.pow58
    {
      && writeCache.distributed == redis == readCache.distributed
      && writeCache.local != readCache.local
      && codec.Filled()
    }

    ghost predicate Valid()
      reads this, db, redis, writeCache.local, readCache.local, codec.indices, codec.pow58
    {
      && Wired()
      && w == After(Init(configTtl), log) && w.configTtl == configTtl
      && db.rows == w.rows
      && redis.entries == w.shared
      && writeCache.local.entries == LocalOf(w, COMMAND)
      && readCache.local.entries == LocalOf(w, QUERY)
    }

    constructor (configTtl: int, localTtl: int)
      ensures Valid() && log == [] && fresh({db, redis, writeCache.local, readCache.local})
    {
      this.configTtl := configTtl;
      db := new Table();
      var r := new Cache.Redis();
      var l1 := new Cache.LocalCache();
      var l2 := new Cache.LocalCache();
      redis := r;
      writeCache := new Cache.Proxy(r, l1, localTtl);
      readCache := new Cache.Proxy(r, l2, localTtl);
      codec := new Base58.Tables();
      w, log := Init(configTtl), [];
    }

    /** Notes that an event has happened. */
    ghost method Happen(e: Event)
      requires w == After(Init(configTtl), log) && w.configTtl == configTtl
      modifies this`w, this`log
      ensures w == Apply(old(w), e) && log == old(log) + [e]
      ensures w == After(Init(configTtl), log) && w.configTtl == configTtl
    {
      assert (log + [e])[..|log|] == log;
      ConfigStays(w, e);
      w, log := Apply(w, e), log + [e];
    }

    /** Anything else happens: events of the allocator, other nodes, other calls, evictions, time. */
    method Others(ghost es: seq<Event>, rows: Rows, shared: Cache.Shared, command: Cache.Local, query: Cache.Local)
      requires Valid()
      requires var w' := After(w, es);
               rows == w'.rows && shared == w'.shared && command == LocalOf(w', COMMAND) && query == LocalOf(w', QUERY)
      modifies this`w, this`log, db, redis, writeCache.local, readCache.local
      ensures Valid() && w == After(old(w), es) && log == old(log) + es
    {
      AfterConcat(Init(configTtl), log, es);
      ConfigStaysForever(w, es);
      w, log := After(w, es), log + es;
      db.rows, redis.entries := rows, shared;
      writeCache.local.entries, readCache.local.entries := command, query;
    }

    /** Puts a record into a proxy's layers; a lifetime of less than ten nanoseconds makes the draw of the jitter panic. */
    method Publish(ghost t: TaskId, ghost p: ProxyId, cache: Cache.Proxy, now: nat, key: Key, link: Binding, roll: nat, up: bool)
      returns (panicked: bool)
      requires Valid() && now == w.now
      requires (p == COMMAND && cache == writeCache) || (p == QUERY && cache == readCache)
      requires t in w.tasks && w.tasks[t].PuttingShared? && w.tasks[t].p == p
               && w.tasks[t].key == key && w.tasks[t].link == link
      modifies this`w, this`log, redis, cache.local
      ensures Valid() && w.now == now && w.tasks == old(w.tasks) - {t} && w.bound == old(w.bound) && w.rows == old(w.rows)
      ensures panicked <==> CacheTtl(configTtl, link.expiresAt, now) < Cache.MIN_TTL
      ensures !panicked && up ==>
                && redis.entries == old(redis.entries)[key := EntryOf(configTtl, now, link, roll)]
                && cache.local.entries == old(cache.local.entries)[key := ValueOf(link)]
      ensures panicked || !up ==> redis.entries == old(redis.entries) && cache.local.entries == old(cache.local.entries)
    {
      var ttl := CacheTtl(configTtl, link.expiresAt, now);
      if ttl < Cache.MIN_TTL {
        NoteAbandon(t);
        return true;
      }
      PutBoth(t, p, cache, now, key, link, roll % (ttl / 10), up);
      return false;
    }

    ghost method NoteAbandon(t: TaskId)
      requires w == After(Init(configTtl), log) && w.configTtl == configTtl && t in w.tasks
      modifies this`w, this`log
      ensures w == After(Init(configTtl), log) && w == old(w).(tasks := old(w).tasks - {t})
    {
      Happen(Abandon(t));
    }

    /** The proxy's Set. */
    method PutBoth(ghost t: TaskId, ghost p: ProxyId, cache: Cache.Proxy, now: nat, key: Key, link: Binding, jitter: nat, up: bool)
      requires Valid() && now == w.now
      requires (p == COMMAND && cache == writeCache) || (p == QUERY && cache == readCache)
      requires t in w.tasks && w.tasks[t].PuttingShared? && w.tasks[t].p == p
               && w.tasks[t].key == key && w.tasks[t].link == link
      requires var ttl := CacheTtl(configTtl, link.expiresAt, now); ttl >= Cache.MIN_TTL && Cache.JitterOk(ttl, jitter)
      modifies this`w, this`log, redis, cache.local
      ensures Valid() && w.now == now && w.tasks == old(w.tasks) - {t} && w.bound == old(w.bound) && w.rows == old(w.rows)
      ensures up ==>
                && redis.entries == old(redis.entries)[key := Cache.Entry(ValueOf(link), now + CacheTtl(configTtl, link.expiresAt, now) + jitter)]
                && cache.local.entries == old(cache.local.entries)[key := ValueOf(link)]
      ensures !up ==> redis.entries == old(redis.entries) && cache.local.entries == old(cache.local.entries)
    {
      var ok := SetRecord(cache, now, key, link, jitter, up);
      NotePut(t, p, jitter, ok);
    }

    /** The proxy's Set with the encoded record. */
    method SetRecord(cache: Cache.Proxy, now: nat, key: Key, link: Binding, jitter: nat, up: bool) returns (ok: bool)
      requires var ttl := CacheTtl(configTtl, link.expiresAt, now); ttl >= Cache.MIN_TTL && Cache.JitterOk(ttl, jitter)
      modifies cache.distributed, cache.local
      ensures ok == up
      ensures cache.distributed.entries ==
              if up then old(cache.distributed.entries)[key := Cache.Entry(ValueOf(link), now + CacheTtl(configTtl, link.expiresAt, now) + jitter)]
              else old(cache.distributed.entries)
      ensures cache.local.entries == if up then old(cache.local.entries)[key := ValueOf(link)] else old(cache.local.entries)
    {
      var buf := EncodeCacheValue(link.url, link.expiresAt);
      ok := cache.Set(now, key, buf[..], CacheTtl(configTtl, link.expiresAt, now), jitter, up, true);
    }

    /** A proxy's Set, as the protocol sees it. */
    ghost method NotePut(t: TaskId, p: ProxyId, jitter: int, ok: bool)
      requires w == After(Init(configTtl), log) && w.configTtl == configTtl
      requires t in w.tasks && w.tasks[t].PuttingShared? && w.tasks[t].p == p
      requires TtlOf(w, w.tasks[t].link) >= Cache.MIN_TTL && Cache.JitterOk(TtlOf(w, w.tasks[t].link), jitter)
      modifies this`w, this`log
      ensures w == After(Init(configTtl), log)
      ensures var PuttingShared(_, key, _, link, _) := old(w).tasks[t];
              w == if ok then old(w).(shared := old(w).shared[key := Cache.Entry(ValueOf(link), old(w).now + TtlOf(old(w), link) + jitter)],
                                      locals := old(w).locals[p := LocalOf(old(w), p)[key := ValueOf(link)]],
                                      tasks := old(w).tasks - {t})
                   else old(w).(tasks := old(w).tasks - {t})
    {
      if ok {
        Happen(PutShared(t, jitter));
        assert w == DoPutShared(old(w), t, jitter);
        ghost var task := w.tasks[t];
        Happen(PutLocal(t));
        RemoveReplaced(old(w).tasks, t, task);
      } else {
        Happen(PutFails(t));
      }
    }

    ghost method NoteGet(t: TaskId, p: ProxyId, key: Key)
      requires w == After(Init(configTtl), log) && w.configTtl == configTtl && t !in w.tasks && IdOf(key).Some?
      modifies this`w, this`log
      ensures w == After(Init(configTtl), log)
      ensures w == old(w).(locals := old(w).locals[p := Cache.Filled(old(w).shared, LocalOf(old(w), p), old(w).now, key)],
                           tasks := old(w).tasks[t := match Cache.ProxyGet(old(w).shared, LocalOf(old(w), p), old(w).now, key)
                                                      case Some(value) => Judging(p, key, value)
                                                      case None => Reading(p, key)])
    {
      Happen(BeginRetrieve(t, p, key));
    }

    /** The step after a hit, and what can be answered then. */
    ghost method NoteJudge(t: TaskId)
      requires w == After(Init(configTtl), log) && w.configTtl == configTtl && t in w.tasks && w.tasks[t].Judging?
      modifies this`w, this`log
      ensures w == After(Init(configTtl), log) && w == DoJudge(old(w), t)
      ensures var v := VerdictOn(old(w).tasks[t].value, old(w).now); var key := old(w).tasks[t].key;
              && (v.Live? ==> RightNow(old(w), key, Some(v.url)))
              && (v.Dead? ==> RightNow(old(w), key, None))
    {
      AnswerAtHit(t);
      Happen(Judge(t));
    }

    ghost method NoteRead(t: TaskId, id: nat)
      requires w == After(Init(configTtl), log) && w.configTtl == configTtl && t in w.tasks && w.tasks[t].Reading?
      modifies this`w, this`log
      requires IdOf(w.tasks[t].key) == Some(id)
      ensures w == After(Init(configTtl), log)
      ensures var Reading(p, key) := old(w).tasks[t];
              if Visible(old(w).rows, id) then
                w == old(w).(tasks := old(w).tasks[t := Checking(p, key, id, LinkOf(old(w).rows[id]))])
              else
                w == old(w).(tasks := old(w).tasks - {t}) && RightNow(w, key, None)
    {
      if !Visible(w.rows, id) { AnswerAtRow(t); }
      Happen(ReadRow(t));
    }

    ghost method NoteCheck(t: TaskId)
      requires w == After(Init(configTtl), log) && w.configTtl == configTtl && t in w.tasks && w.tasks[t].Checking?
      modifies this`w, this`log
      ensures w == After(Init(configTtl), log)
      ensures var Checking(p, key, id, link) := old(w).tasks[t];
              if IsExpired(link.expiresAt, w.now) then
                w == old(w).(tasks := old(w).tasks - {t}) && RightNow(w, key, None)
              else
                w == old(w).(tasks := old(w).tasks[t := PuttingShared(p, key, id, link, None)]) && RightNow(w, key, Some(link.url))
    {
      AnswerAtCheck(t);
      Happen(Check(t));
    }

    /** fromCache: a live hit, an expired one, nothing usable, or a failing cache. */
    method FromCache(ghost t: TaskId, now: nat, key: Key, up: bool) returns (r: Lookup)
      requires Valid() && now == w.now && t !in w.tasks && IdOf(key).Some?
      modifies this`w, this`log, readCache.local
      ensures Valid() && w.now == now && w.rows == old(w.rows) && w.bound == old(w.bound)
      ensures r == CacheLookup(Cache.GetResult(redis.entries, old(readCache.local.entries), now, key, up), now)
      ensures readCache.local.entries == if up then Cache.Filled(redis.entries, old(readCache.local.entries), now, key)
                                         else old(readCache.local.entries)
      ensures r.Failed? ==> w == old(w)
      ensures r.Hit? ==> w.tasks == old(w.tasks) && RightNow(w, key, Some(r.url))
      ensures r.Stale? ==> w.tasks == old(w.tasks) && RightNow(w, key, None)
      ensures r.Empty? ==> w.tasks == old(w.tasks)[t := Reading(QUERY, key)]
    {
      var cached := Ask(t, now, key, up);
      if cached.Err? {
        return if cached.error.Backend? then Failed else Empty;
      }
      r := Judged(t, now, key, cached.value);
      AddRemove(old(w.tasks), t, Judging(QUERY, key, cached.value));
    }

    /** The proxy's Get. */
    method Ask(ghost t: TaskId, now: nat, key: Key, up: bool) returns (r: Result<Bytes, Cache.Error>)
      requires Valid() && now == w.now && t !in w.tasks && IdOf(key).Some?
      modifies this`w, this`log, readCache.local
      ensures Valid() && w == old(w).(locals := w.locals, tasks := w.tasks)
      ensures r == Cache.GetResult(redis.entries, old(readCache.local.entries), now, key, up)
      ensures readCache.local.entries == if up then Cache.Filled(redis.entries, old(readCache.local.entries), now, key)
                                         else old(readCache.local.entries)
      ensures r == Err(Cache.Backend) ==> w == old(w)
      ensures r == Err(Cache.Miss) ==> w.tasks == old(w.tasks)[t := Reading(QUERY, key)]
      ensures r.Ok? ==> w.tasks == old(w.tasks)[t := Judging(QUERY, key, r.value)]
    {
      r := readCache.Get(now, key, up, true, true);
      if r != Err(Cache.Backend) {
        NoteGet(t, QUERY, key);
      }
    }

    /** The second half of fromCache: decodes the value and checks its expiry. */
    method Judged(ghost t: TaskId, now: nat, key: Key, cached: Bytes) returns (r: Lookup)
      requires Valid() && now == w.now && t in w.tasks && w.tasks[t] == Judging(QUERY, key, cached)
      modifies this`w, this`log
      ensures Valid() && w == old(w).(tasks := w.tasks)
      ensures r == LookupOf(cached, now)
      ensures r.Hit? ==> w.tasks == old(w.tasks) - {t} && RightNow(w, key, Some(r.url))
      ensures r.Stale? ==> w.tasks == old(w.tasks) - {t} && RightNow(w, key, None)
      ensures r.Empty? ==> w.tasks == old(w.tasks)[t := Reading(QUERY, key)]
    {
      var decoded := DecodeValue(cached);
      NoteJudge(t);
      if decoded.None? {
        return Empty;
      }
      var (long, expiresAt) := decoded.value;
      if IsExpired(expiresAt, now) {
        return Stale;
      }
      return Hit(long);
    }

    lemma AnswerAtHit(t: TaskId)
      requires w == After(Init(configTtl), log) && t in w.tasks && w.tasks[t].Judging?
      ensures var v := VerdictOn(w.tasks[t].value, w.now); var key := w.tasks[t].key;
              && (v.Live? ==> RightNow(w, key, Some(v.url)))
              && (v.Dead? ==> RightNow(w, key, None))
    {
      var v, key := VerdictOn(w.tasks[t].value, w.now), w.tasks[t].key;
      if v.Live? { AnswersAreRight(configTtl, log, Judge(t), Resolved(key, v.url)); }
      if v.Dead? { AnswersAreRight(configTtl, log, Judge(t), Gone(key)); }
    }

    /** The read side's caches after a Retrieve: what the Get copied, and what was put in the end. */
    ghost predicate CachesAfter(shared: Cache.Shared, local: Cache.Local, now: nat, key: Key, roll: nat, up: bool, fills: bool)
      reads db, redis, readCache.local
    {
      var asked := if up && IdOf(key).Some? then Cache.Filled(shared, local, now, key) else local;
      if up && fills then
        && IdOf(key).Some? && IdOf(key).value in db.rows
        && var link := LinkOf(db.rows[IdOf(key).value]);
        && CacheTtl(configTtl, link.expiresAt, now) >= Cache.MIN_TTL
        && redis.entries == shared[key := EntryOf(configTtl, now, link, roll)]
        && readCache.local.entries == asked[key := ValueOf(link)]
      else
        redis.entries == shared && readCache.local.entries == asked
    }

    /**
     * Retrieve: the code, the proxy, the table, and the proxy again.  Whatever the caches
     * hold, an answer is right; a panic means that the link is about to expire.
     */
    method Retrieve(ghost t: TaskId, now: nat, short: Key, roll: nat, up: bool) returns (r: RetrieveResult)
      requires Valid() && now == w.now && t !in w.tasks
      modifies this`w, this`log, redis, readCache.local
      ensures Valid() && w.now == now && w.rows == old(w.rows) && w.tasks == old(w.tasks)
      ensures r.Answered? ==> (r.a.Invalid? || Retrieved(r.a)) && r.a.key == short
      ensures r.Answered? && Retrieved(r.a) ==> RightNow(w, short, Outcome(r.a))
      ensures var cached := Cache.GetResult(old(redis.entries), old(readCache.local.entries), now, short, up);
              && r == RetrieveReply(db.rows, configTtl, now, short, cached)
              && CachesAfter(old(redis.entries), old(readCache.local.entries), now, short, roll, up, Fills(short, cached, now, r))
      ensures Serves(r, db.rows, old(redis.entries), old(readCache.local.entries), configTtl, now, short, up)
      ensures r.Answered? ==> AnswerNow(old(w), t, QUERY, short) == Some(r.a)
      ensures up && r.Answered? && r.a.Resolved? && short !in old(readCache.local.entries) && !IsThere(old(redis.entries), short, now) ==>
                BothHold(short)
    {
      Reachable(configTtl, log);
      ReplyServes(w, short, up);
      r := Served(t, now, short, roll, up);
      if r.Answered? {
        ServedIsAnswer(old(w), t, short, up, r);
        FilledMeans(old(redis.entries), old(readCache.local.entries), now, short, roll, up, r);
      }
    }

    /** Both layers of the query side have the row of a code under it. */
    predicate BothHold(short: Key)
      reads db, redis, readCache.local
    {
      && IdOf(short).Some? && IdOf(short).value in db.rows
      && var row := db.rows[IdOf(short).value];
      && short in redis.entries && redis.entries[short].value == EncodeValue(row.url, row.expiresAt)
      && short in readCache.local.entries && readCache.local.entries[short] == EncodeValue(row.url, row.expiresAt)
    }

    lemma FilledMeans(shared: Cache.Shared, local: Cache.Local, now: nat, key: Key, roll: nat, up: bool, r: RetrieveResult)
      requires CachesAfter(shared, local, now, key, roll, up, Fills(key, Cache.GetResult(shared, local, now, key, up), now, r))
      requires r.Answered?
      ensures up && r.a.Resolved? && key !in local && !IsThere(shared, key, now) && IdOf(key).Some? ==> BothHold(key)
    {
    }

    /** Retrieve proper. */
    method Served(ghost t: TaskId, now: nat, short: Key, roll: nat, up: bool) returns (r: RetrieveResult)
      requires Valid() && now == w.now && t !in w.tasks
      modifies this`w, this`log, redis, readCache.local
      ensures Valid() && w.now == now && w.rows == old(w.rows) && w.tasks == old(w.tasks)
      ensures r.Answered? ==> (r.a.Invalid? || Retrieved(r.a)) && r.a.key == short
      ensures r.Answered? && Retrieved(r.a) ==> RightNow(w, short, Outcome(r.a))
      ensures var cached := Cache.GetResult(old(redis.entries), old(readCache.local.entries), now, short, up);
              && r == RetrieveReply(db.rows, configTtl, now, short, cached)
              && CachesAfter(old(redis.entries), old(readCache.local.entries), now, short, roll, up, Fills(short, cached, now, r))
    {
      var seq_ := codec.Base58Decode(short);
      if seq_.Err? {
        return Answered(Invalid(short));
      }
      r := Resolve(t, now, short, seq_.value, roll, up);
    }

    /** Retrieve for a code that decodes. */
    method Resolve(ghost t: TaskId, now: nat, short: Key, id: nat, roll: nat, up: bool) returns (r: RetrieveResult)
      requires Valid() && now == w.now && t !in w.tasks && IdOf(short) == Some(id)
      modifies this`w, this`log, redis, readCache.local
      ensures Valid() && w.now == now && w.rows == old(w.rows) && w.tasks == old(w.tasks)
      ensures r.Answered? ==> Retrieved(r.a) && r.a.key == short && RightNow(w, short, Outcome(r.a))
      ensures var cached := Cache.GetResult(old(redis.entries), old(readCache.local.entries), now, short, up);
              && r == RetrieveReply(db.rows, configTtl, now, short, cached)
              && CachesAfter(old(redis.entries), old(readCache.local.entries), now, short, roll, up, Fills(short, cached, now, r))
    {
      ghost var cached := Cache.GetResult(redis.entries, readCache.local.entries, now, short, up);
      var lookup := FromCache(t, now, short, up);
      assert lookup == CacheLookup(cached, now);
      match lookup {
        case Failed => return BackendError;
        case Stale => return Answered(Gone(short));
        case Hit(url) => return Answered(Resolved(short, url));
        case Empty =>
      }
      r := FromTable(t, now, short, id, roll, up);
      AddRemove(old(w.tasks), t, Reading(QUERY, short));
    }

    /** The rest of Retrieve after a miss: the table, and the proxy for a live row. */
    method FromTable(ghost t: TaskId, now: nat, short: Key, id: nat, roll: nat, up: bool) returns (r: RetrieveResult)
      requires Valid() && now == w.now && t in w.tasks && w.tasks[t] == Reading(QUERY, short) && IdOf(short) == Some(id)
      modifies this`w, this`log, redis, readCache.local
      ensures Valid() && w.now == now && w.rows == old(w.rows) && w.tasks == old(w.tasks) - {t}
      ensures r.Answered? ==> Retrieved(r.a) && r.a.key == short && RightNow(w, short, Outcome(r.a))
      ensures r == TableReply(db.rows, configTtl, now, short, id)
      ensures if up && r.Answered? && r.a.Resolved? then
                && redis.entries == old(redis.entries)[short := EntryOf(configTtl, now, LinkOf(db.rows[id]), roll)]
                && readCache.local.entries == old(readCache.local.entries)[short := ValueOf(LinkOf(db.rows[id]))]
              else redis.entries == old(redis.entries) && readCache.local.entries == old(readCache.local.entries)
    {
      var res := db.GetByShortID(id);
      NoteRead(t, id);
      if res.Err? {
        return Answered(Missing(short));
      }
      r := Checked(t, now, short, id, LinkOf(res.value), roll, up);
      RemoveReplaced(old(w.tasks), t, Checking(QUERY, short, id, LinkOf(res.value)));
    }

    /** The end of Retrieve: refuses an expired row and caches a live one. */
    method Checked(ghost t: TaskId, now: nat, short: Key, ghost id: nat, link: Binding, roll: nat, up: bool) returns (r: RetrieveResult)
      requires Valid() && now == w.now && t in w.tasks && w.tasks[t] == Checking(QUERY, short, id, link)
      modifies this`w, this`log, redis, readCache.local
      ensures Valid() && w.now == now && w.rows == old(w.rows) && w.tasks == old(w.tasks) - {t}
      ensures r.Answered? ==> Retrieved(r.a) && r.a.key == short && RightNow(w, short, Outcome(r.a))
      ensures r == if IsExpired(link.expiresAt, now) then Answered(Gone(short))
                   else if CacheTtl(configTtl, link.expiresAt, now) < Cache.MIN_TTL then Panicked
                   else Answered(Resolved(short, link.url))
      ensures if up && r.Answered? && r.a.Resolved? then
                && redis.entries == old(redis.entries)[short := EntryOf(configTtl, now, link, roll)]
                && readCache.local.entries == old(readCache.local.entries)[short := ValueOf(link)]
              else redis.entries == old(redis.entries) && readCache.local.entries == old(readCache.local.entries)
    {
      NoteCheck(t);
      if IsExpired(link.expiresAt, now) {
        return Answered(Gone(short));
      }
      ghost var task := w.tasks[t];
      var panicked := Publish(t, QUERY, readCache, now, short, link, roll, up);
      RemoveReplaced(old(w.tasks), t, task);
      return if panicked then Panicked else Answered(Resolved(short, link.url));
    }

    lemma AnswerAtRow(t: TaskId)
      requires w == After(Init(configTtl), log) && t in w.tasks && w.tasks[t].Reading?
      requires IdOf(w.tasks[t].key).Some? && !Visible(w.rows, IdOf(w.tasks[t].key).value)
      ensures RightNow(w, w.tasks[t].key, None)
    {
      AnswersAreRight(configTtl, log, ReadRow(t), Missing(w.tasks[t].key));
    }

    lemma AnswerAtCheck(t: TaskId)
      requires w == After(Init(configTtl), log) && t in w.tasks && w.tasks[t].Checking?
      ensures var Checking(_, key, _, link) := w.tasks[t];
              if IsExpired(link.expiresAt, w.now) then RightNow(w, key, None) else RightNow(w, key, Some(link.url))
    {
      var Checking(_, key, _, link) := w.tasks[t];
      if IsExpired(link.expiresAt, w.now) {
        AnswersAreRight(configTtl, log, Check(t), Gone(key));
      } else {
        AnswersAreRight(configTtl, log, Check(t), Resolved(key, link.url));
      }
    }

    // ------------------------------------------------------- command service

    lemma TableIsKeyed()
      requires w == After(Init(configTtl), log)
      ensures UniqueUrls(w.rows)
    {
      Reachable(configTtl, log);
    }

    lemma FreshNumber(t: TaskId)
      requires w == After(Init(configTtl), log) && t in w.tasks && w.tasks[t].Inserting?
      ensures w.tasks[t].id !in w.rows
      ensures Accepts(w.rows, w.tasks[t].id, w.tasks[t].link.url) <==> !UrlTaken(w.rows, w.tasks[t].link.url)
    {
      DuplicateMeansUrlTaken(configTtl, log, t);
    }

    /** An ID in the table fits 64 bits. */
    lemma IdFits(id: nat)
      requires w == After(Init(configTtl), log) && id in w.rows
      ensures id < TWO_64
    {
      Reachable(configTtl, log);
      assert BindingOk(w, id);
      AllocatorTheorems.DeliveredFits(w.alloc, id);
    }

    ghost method NoteNumber(t: TaskId, client: Allocator.Id, url: Url, ttl: int64)
      requires w == After(Init(configTtl), log) && w.configTtl == configTtl && t !in w.tasks
      requires client in w.alloc.clients && w.alloc.clients[client].phase.Offering?
      modifies this`w, this`log
      ensures w == After(Init(configTtl), log)
      ensures w == old(w).(alloc := w.alloc,
                           tasks := old(w).tasks[t := Inserting(COMMAND, old(w).alloc.clients[client].curr,
                                                                Binding(url, ExpiryOf(old(w).now, ttl)))])
    {
      Happen(BeginCreate(t, COMMAND, client, url, ttl));
    }

    ghost method NoteInsert(t: TaskId)
      requires w == After(Init(configTtl), log) && w.configTtl == configTtl && t in w.tasks && w.tasks[t].Inserting?
      modifies this`w, this`log
      ensures w == After(Init(configTtl), log) && w == DoInsert(old(w), t)
    {
      Happen(Insert(t));
    }

    ghost method NoteLookUp(t: TaskId, found: Option<nat>)
      requires w == After(Init(configTtl), log) && w.configTtl == configTtl && t in w.tasks && w.tasks[t].LookingUp?
      requires FoundByUrl(w.rows, w.tasks[t].url, found)
      modifies this`w, this`log
      ensures w == After(Init(configTtl), log) && w == DoLookUp(old(w), t, found)
    {
      Happen(LookUp(t, found));
    }

    /** A code is the code of the record of its URL, which has time left to be cached. */
    ghost predicate Published(url: Url, code: Key, expiresAt: Option<Time>, now: nat)
      reads db
    {
      && (exists id :: Recorded(db.rows, url, id) && code == Base58.Encode(id) && expiresAt == db.rows[id].expiresAt)
      && CacheTtl(configTtl, expiresAt, now) >= Cache.MIN_TTL
    }

    /** The write side's caches after a Create: the published record on top of what was there, or just that. */
    ghost predicate CachesAfterCreate(shared: Cache.Shared, local: Cache.Local, r: CreateResult, url: Url, now: nat, roll: nat, up: bool)
      reads redis, writeCache.local
    {
      if up && r.Shortened? then
        && CacheTtl(configTtl, r.expiresAt, now) >= Cache.MIN_TTL
        && redis.entries == shared[r.code := EntryOf(configTtl, now, Binding(url, r.expiresAt), roll)]
        && writeCache.local.entries == local[r.code := EncodeValue(url, r.expiresAt)]
      else redis.entries == shared && writeCache.local.entries == local
    }

    /**
     * Create with the number that Next returned: inserts, or falls back on the record that
     * has the URL, and publishes the code.  The table changes only if it does not have the URL.
     */
    method Create(ghost t: TaskId, ghost client: Allocator.Id, now: nat, url: Url, wellFormed: bool, number: Option<nat>,
                  ttl: int64, roll: nat, up: bool)
      returns (r: CreateResult)
      requires Valid() && now == w.now && t !in w.tasks
      requires number.Some? ==> && client in w.alloc.clients && w.alloc.clients[client].phase.Offering?
                                && w.alloc.clients[client].curr == number.value
      modifies this`w, this`log, db, redis, writeCache.local
      ensures Valid() && w.now == now && w.tasks == old(w.tasks)
      ensures r.InvalidUrl? <==> !wellFormed
      ensures r.NoNumber? <==> wellFormed && number.None?
      ensures db.rows == if wellFormed && number.Some? && !old(UrlTaken(db.rows, url))
                         then old(db.rows)[number.value := Row(url, if ttl > 0 then Some(now + ttl) else None, false)] else old(db.rows)
      ensures r.NotFound? <==> wellFormed && number.Some? && old(Blocked(db.rows, url))
      ensures r.CreatePanicked? <==>
                wellFormed && number.Some? && old(TooLate(db.rows, configTtl, now, url, if ttl > 0 then Some(now + ttl) else None))
      ensures r.Shortened? ==> Published(url, r.code, r.expiresAt, now)
      ensures r.Shortened? && !old(UrlTaken(db.rows, url)) ==>
                r.code == Base58.Encode(number.value) && r.expiresAt == if ttl > 0 then Some(now + ttl) else None
      ensures CachesAfterCreate(old(redis.entries), old(writeCache.local.entries), r, url, now, roll, up)
    {
      if !wellFormed {
        return InvalidUrl;
      }
      if number.None? {
        return NoNumber;
      }
      r := Numbered(t, client, now, url, number.value, ttl, roll, up);
    }

    /** Create with a number. */
    method Numbered(ghost t: TaskId, ghost client: Allocator.Id, now: nat, url: Url, number: nat, ttl: int64, roll: nat, up: bool)
      returns (r: CreateResult)
      requires Valid() && now == w.now && t !in w.tasks
      requires client in w.alloc.clients && w.alloc.clients[client].phase.Offering?
               && w.alloc.clients[client].curr == number
      modifies this`w, this`log, db, redis, writeCache.local
      ensures Valid() && w.now == now && w.tasks == old(w.tasks)
      ensures db.rows == if old(UrlTaken(db.rows, url)) then old(db.rows)
                         else old(db.rows)[number := Row(url, ExpiryOf(now, ttl), false)]
      ensures r.NotFound? || r.Shortened? || r.CreatePanicked?
      ensures r.NotFound? <==> old(Blocked(db.rows, url))
      ensures r.CreatePanicked? <==> old(TooLate(db.rows, configTtl, now, url, ExpiryOf(now, ttl)))
      ensures r.Shortened? ==> Published(url, r.code, r.expiresAt, now)
      ensures CachesAfterCreate(old(redis.entries), old(writeCache.local.entries), r, url, now, roll, up)
    {
      var expiresAt := if ttl > 0 then Some(now + ttl) else None;
      NoteNumber(t, client, url, ttl);
      assert Valid();
      r := Shorten(t, now, number, url, expiresAt, roll, up);
      AddRemove(old(w.tasks), t, Inserting(COMMAND, number, Binding(url, expiresAt)));
    }

    /** Create from the insertion on. */
    method Shorten(ghost t: TaskId, now: nat, id: nat, url: Url, expiresAt: Option<Time>, roll: nat, up: bool)
      returns (r: CreateResult)
      requires Valid() && now == w.now && t in w.tasks && w.tasks[t] == Inserting(COMMAND, id, Binding(url, expiresAt))
      modifies this`w, this`log, db, redis, writeCache.local
      ensures Valid() && w.now == now && w.tasks == old(w.tasks) - {t}
      ensures db.rows == if old(UrlTaken(db.rows, url)) then old(db.rows) else old(db.rows)[id := Row(url, expiresAt, false)]
      ensures r.NotFound? || r.Shortened? || r.CreatePanicked?
      ensures r.NotFound? <==> old(Blocked(db.rows, url))
      ensures r.CreatePanicked? <==> old(TooLate(db.rows, configTtl, now, url, expiresAt))
      ensures r.Shortened? ==> Published(url, r.code, r.expiresAt, now)
      ensures CachesAfterCreate(old(redis.entries), old(writeCache.local.entries), r, url, now, roll, up)
    {
      var found := Record(t, now, id, url, expiresAt);
      if found.None? {
        return CreateResult.NotFound;
      }
      r := Announce(t, now, found.value, url, roll, up);
      RemoveReplaced(old(w.tasks), t, LinkService.Publish(COMMAND, found.value, LinkOf(db.rows[found.value]), url));
      assert Recorded(db.rows, url, found.value);
    }

    /** The middle of Create: inserts the URL, or finds the record that has it. */
    method Record(ghost t: TaskId, now: nat, id: nat, url: Url, expiresAt: Option<Time>) returns (found: Option<nat>)
      requires Valid() && now == w.now && t in w.tasks && w.tasks[t] == Inserting(COMMAND, id, Binding(url, expiresAt))
      modifies this`w, this`log, db
      ensures Valid() && w == old(w).(rows := w.rows, bound := w.bound, tasks := w.tasks)
      ensures db.rows == if old(UrlTaken(db.rows, url)) then old(db.rows) else old(db.rows)[id := Row(url, expiresAt, false)]
      ensures found.None? <==> old(Blocked(db.rows, url))
      ensures found.None? ==> old(UrlTaken(db.rows, url)) && w.tasks == old(w.tasks) - {t}
      ensures !old(UrlTaken(db.rows, url)) ==> found == Some(id)
      ensures forall other: nat | old(Recorded(db.rows, url, other)) :: found == Some(other)
      ensures found.Some? ==>
                && Recorded(db.rows, url, found.value)
                && w.tasks == old(w.tasks)[t := LinkService.Publish(COMMAND, found.value, LinkOf(db.rows[found.value]), url)]
    {
      var ok := Inserted(t, id, url, expiresAt);
      if ok {
        return Some(id);
      }
      TableIsKeyed();
      found := db.GetByLongURL(url);
      FoundIsTheRecord(db.rows, url, found);
      NoteLookUp(t, found);
      if found.Some? {
        PutTwice(old(w.tasks), t, LookingUp(COMMAND, url), w.tasks[t]);
      } else {
        RemoveReplaced(old(w.tasks), t, LookingUp(COMMAND, url));
      }
    }

    /** The insertion; it is refused only for the URL. */
    method Inserted(ghost t: TaskId, id: nat, url: Url, expiresAt: Option<Time>) returns (ok: bool)
      requires Valid() && t in w.tasks && w.tasks[t] == Inserting(COMMAND, id, Binding(url, expiresAt))
      modifies this`w, this`log, db
      ensures Valid() && w == old(w).(rows := w.rows, bound := w.bound, tasks := w.tasks)
      ensures ok <==> !old(UrlTaken(db.rows, url))
      ensures db.rows == if ok then old(db.rows)[id := Row(url, expiresAt, false)] else old(db.rows)
      ensures w.tasks == old(w.tasks)[t := if ok then LinkService.Publish(COMMAND, id, Binding(url, expiresAt), url)
                                           else LookingUp(COMMAND, url)]
    {
      TableIsKeyed();
      FreshNumber(t);
      var record := db.Insert(id, url, expiresAt);
      NoteInsert(t);
      return record.Ok?;
    }

    /** The end of Create: encodes the ID and publishes the record. */
    method Announce(ghost t: TaskId, now: nat, id: nat, url: Url, roll: nat, up: bool) returns (r: CreateResult)
      requires Valid() && now == w.now && Recorded(db.rows, url, id)
      requires t in w.tasks && w.tasks[t] == LinkService.Publish(COMMAND, id, LinkOf(db.rows[id]), url)
      modifies this`w, this`log, redis, writeCache.local
      ensures Valid() && w.now == now && w.tasks == old(w.tasks) - {t} && w.rows == old(w.rows)
      ensures r == if CacheTtl(configTtl, db.rows[id].expiresAt, now) < Cache.MIN_TTL then CreatePanicked
                   else Shortened(Base58.Encode(id), db.rows[id].expiresAt)
      ensures CachesAfterCreate(old(redis.entries), old(writeCache.local.entries), r, url, now, roll, up)
    {
      IdFits(id);
      var code := Base58.Base58Encode(id);
      var link := LinkOf(db.rows[id]);
      var panicked := Publish(t, COMMAND, writeCache, now, code, link, roll, up);
      return if panicked then CreatePanicked else Shortened(code, link.expiresAt);
    }

    ghost method NoteDelete(t: TaskId, key: Key)
      requires w == After(Init(configTtl), log) && w.configTtl == configTtl && t !in w.tasks
      modifies this`w, this`log
      ensures w == After(Init(configTtl), log) && w == DoBeginDelete(old(w), t, COMMAND, key)
    {
      Happen(BeginDelete(t, COMMAND, key));
    }

    ghost method NoteDrop(t: TaskId, ok: bool)
      requires w == After(Init(configTtl), log) && w.configTtl == configTtl && t in w.tasks && w.tasks[t].DroppingShared?
      modifies this`w, this`log
      ensures w == After(Init(configTtl), log)
      ensures var DroppingShared(p, key) := old(w).tasks[t];
              w == if ok then old(w).(shared := old(w).shared - {key},
                                      locals := old(w).locals[p := LocalOf(old(w), p) - {key}],
                                      tasks := old(w).tasks - {t})
                   else old(w).(tasks := old(w).tasks - {t})
    {
      if ok {
        Happen(DropShared(t));
        assert w == DoDropShared(old(w), t);
        Happen(DropLocal(t));
        RemoveReplaced(old(w).tasks, t, DroppingLocal(old(w).tasks[t].p, old(w).tasks[t].key));
      } else {
        Happen(Abandon(t));
      }
    }

    /** Delete: the table first, then the shared layer, then this side's local layer. */
    method Delete(ghost t: TaskId, now: nat, short: Key, up: bool) returns (r: DeleteResult)
      requires Valid() && now == w.now && t !in w.tasks
      modifies this`w, this`log, db, redis, writeCache.local
      ensures Valid() && w.now == now && w.tasks == old(w.tasks)
      ensures r.BadCode? <==> IdOf(short).None?
      ensures r.NoRow? <==> IdOf(short).Some? && !old(Visible(db.rows, IdOf(short).value))
      ensures r.CacheError? <==> !up && IdOf(short).Some? && old(Visible(db.rows, IdOf(short).value))
      ensures db.rows == if r.Deleted? || r.CacheError? then SoftDeleted(old(db.rows), IdOf(short).value) else old(db.rows)
      ensures redis.entries == if r.Deleted? then old(redis.entries) - {short} else old(redis.entries)
      ensures writeCache.local.entries == if r.Deleted? then old(writeCache.local.entries) - {short} else old(writeCache.local.entries)
    {
      var seq_ := codec.Base58Decode(short);
      if seq_.Err? {
        return BadCode;
      }
      TableIsKeyed();
      var ok := db.Delete(seq_.value);
      NoteDelete(t, short);
      if !ok {
        return NoRow;
      }
      var dropped := writeCache.Del(short, up, true);
      NoteDrop(t, dropped);
      AddRemove(old(w.tasks), t, DroppingShared(COMMAND, short));
      return if dropped then Deleted else CacheError;
    }

    ghost method NoteTime(time: nat)
      requires w == After(Init(configTtl), log) && w.configTtl == configTtl && w.now <= time < TWO_63
      modifies this`w, this`log
      ensures w == After(Init(configTtl), log) && w == old(w).(now := time)
    {
      Happen(LinkService.Tick(time - w.now));
    }

    ghost method NoteReap(victims: set<nat>, limit: nat)
      requires w == After(Init(configTtl), log) && w.configTtl == configTtl && Reaps(w.rows, victims, w.now, limit)
      modifies this`w, this`log
      ensures w == After(Init(configTtl), log) && w == old(w).(rows := old(w).rows - victims)
    {
      Happen(Reap(victims, limit));
    }

    /** runJanitor, up to the stop signal: only rows that have expired disappear, one batch a tick. */
    method RunJanitor(ticks: seq<Tick>) returns (reaped: nat)
      requires Valid() && Ascending(w.now, ticks)
      modifies this`w, this`log, db
      ensures Valid() && w == old(w).(now := w.now, rows := w.rows)
      ensures w.now == if ticks == [] then old(w.now) else ticks[|ticks| - 1].time
      ensures Tally(old(db.rows), db.rows, ticks, w.now, reaped)
    {
      reaped := 0;
      var i := 0;
      ghost var w0, rows := w, db.rows;
      while i < |ticks|
        invariant 0 <= i <= |ticks|
        invariant Valid() && w == w0.(now := w.now, rows := w.rows)
        invariant w.now == if i == 0 then w0.now else ticks[i - 1].time
        invariant Tally(rows, db.rows, ticks[..i], w.now, reaped)
      {
        var n := Ticked(rows, ticks, i, reaped);
        reaped := reaped + n;
        i := i + 1;
      }
      assert ticks[..i] == ticks;
    }

    /** A tick, with the tally so far. */
    method Ticked(ghost rows: Rows, ticks: seq<Tick>, i: nat, ghost reaped: nat) returns (n: nat)
      requires Valid() && i < |ticks| && Ascending(w.now, ticks[i..]) && (i > 0 ==> ticks[0].time <= w.now)
      requires Tally(rows, db.rows, ticks[..i], w.now, reaped)
      modifies this`w, this`log, db
      ensures Valid() && w == old(w).(now := ticks[i].time, rows := w.rows)
      ensures Tally(rows, db.rows, ticks[..i + 1], w.now, reaped + n)
    {
      ghost var before, now := db.rows, w.now;
      assert ticks[i..][0] == ticks[i];
      n := Reaped(ticks[i]);
      TallyOn(rows, before, db.rows, ticks[..i], now, ticks[i], reaped, n);
      assert ticks[..i + 1] == ticks[..i] + [ticks[i]];
    }

    /** One tick of the janitor. */
    method Reaped(tick: Tick) returns (n: nat)
      requires Valid() && w.now <= tick.time < TWO_63
      modifies this`w, this`log, db
      ensures Valid() && w == old(w).(now := tick.time, rows := w.rows)
      ensures OnlyExpiredGone(old(db.rows), db.rows, tick.time) && n == |old(db.rows)| - |db.rows| <= JANITOR_BATCH_SIZE
      ensures !tick.up ==> n == 0
      ensures tick.up ==> n == Min(100, |old(Expired(db.rows, tick.time))|)
      ensures tick.up && n < JANITOR_BATCH_SIZE ==> Expired(db.rows, tick.time) == {}
    {
      NoteTime(tick.time);
      if !tick.up {
        return 0;
      }
      TableIsKeyed();
      ghost var victims;
      n, victims := db.DeleteExpired(tick.time, JANITOR_BATCH_SIZE);
      RowsWithout(w.rows, victims, tick.time);
      ExpiredAfterPass(w.rows, victims, tick.time);
      NoteReap(victims, JANITOR_BATCH_SIZE);
    }
  }

  /** Rows disappeared, but only expired ones, and the others are as they were. */
  ghost predicate OnlyExpiredGone(before: Rows, after: Rows, now: Time) {
    && after.Keys <= before.Keys
    && (forall id | id in after :: after[id] == before[id])
    && (forall id | id in before && id !in after :: IsExpired(before[id].expiresAt, now))
  }

  lemma GoneLater(a: Rows, b: Rows, now: Time, c: Rows, later: Time)
    requires OnlyExpiredGone(a, b, now) && OnlyExpiredGone(b, c, later) && now <= later
    ensures OnlyExpiredGone(a, c, later)
  {
  }

  function UpTicks(ticks: seq<Tick>): nat {
    if ticks == [] then 0 else UpTicks(ticks[..|ticks| - 1]) + if ticks[|ticks| - 1].up then 1 else 0
  }

  lemma {:induction false} SubsetSize(a: set<nat>, b: set<nat>)
    requires a <= b
    ensures |a| <= |b|
  {
    assert |b| == |a| + |b - a| by { assert b == a + (b - a); }
  }

  /** A batch that is not full means that nothing is left that had expired by then. */
  lemma AllGone(rows: Rows, left: Rows, t: Time, now: Time)
    requires OnlyExpiredGone(rows, left, now) && t <= now && Expired(left, now) == {}
    ensures |Expired(rows, t)| <= |rows| - |left|
  {
    var gone := Expired(rows, t);
    assert forall id | id in gone && id in left :: id in Expired(left, now);
    assert |rows.Keys - gone| == |rows| - |gone|;
    SubsetSize(left.Keys, rows.Keys - gone);
  }

  /**
   * After some ticks only expired rows are gone, a batch a tick at most; and a batch for
   * every tick that got through, or else all that had expired by the first one.
   */
  ghost predicate Tally(rows: Rows, left: Rows, ticks: seq<Tick>, now: Time, reaped: nat) {
    && OnlyExpiredGone(rows, left, now)
    && reaped == |rows| - |left| <= |ticks| * JANITOR_BATCH_SIZE
    && (ticks != [] ==> reaped >= Min(UpTicks(ticks) * JANITOR_BATCH_SIZE, |Expired(rows, ticks[0].time)|))
  }

  lemma TallyOn(rows: Rows, before: Rows, left: Rows, ticks: seq<Tick>, now: Time, tick: Tick, reaped: nat, n: nat)
    requires Tally(rows, before, ticks, now, reaped) && now <= tick.time && (ticks != [] ==> ticks[0].time <= now)
    requires OnlyExpiredGone(before, left, tick.time) && n == |before| - |left| <= JANITOR_BATCH_SIZE
    requires tick.up ==> n >= JANITOR_BATCH_SIZE || Expired(left, tick.time) == {}
    ensures Tally(rows, left, ticks + [tick], tick.time, reaped + n)
  {
    var all := ticks + [tick];
    assert all[..|ticks|] == ticks;
    GoneLater(rows, before, now, left, tick.time);
    if Expired(left, tick.time) == {} { AllGone(rows, left, all[0].time, tick.time); }
  }

  lemma RowsWithout(rows: Rows, victims: set<nat>, now: Time)
    requires victims <= Expired(rows, now)
    ensures |rows| == |rows - victims| + |victims| && OnlyExpiredGone(rows, rows - victims, now)
  {
    assert (rows - victims).Keys == rows.Keys - victims;
  }

  lemma PutTwice(tasks: map<TaskId, Task>, t: TaskId, first: Task, second: Task)
    ensures tasks[t := first][t := second] == tasks[t := second]
  {
  }

  lemma RemoveReplaced(tasks: map<TaskId, Task>, t: TaskId, task: Task)
    ensures tasks[t := task] - {t} == tasks - {t}
  {
  }

  lemma AddRemove(tasks: map<TaskId, Task>, t: TaskId, task: Task)
    requires t !in tasks
    ensures tasks[t := task] - {t} == tasks
  {
  }

  lemma ConfigStays(w: World, e: Event)
    ensures Apply(w, e).configTtl == w.configTtl
  {
  }

  lemma {:induction false} ConfigStaysForever(w: World, es: seq<Event>)
    ensures After(w, es).configTtl == w.configTtl
  {
    if es != [] {
      ConfigStaysForever(w, es[..|es| - 1]);
      ConfigStays(After(w, es[..|es| - 1]), es[|es| - 1]);
    }
  }
}
