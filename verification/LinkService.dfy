/**
 * The short-link service as a protocol: `app/turl/service.go` on top of the number
 * allocator, the table, the shared cache and one local cache per proxy.
 *
 * Calls of Create, Retrieve and Delete on any number of nodes are cut at their accesses to
 * shared state and interleave freely with each other, with reaping passes, with evictions
 * and with the clock.  As in `Allocator`, a run is any sequence of events, and an event
 * that is not enabled changes nothing.  The one access that is not cut is a proxy's Get.
 */
module LinkService {
  import opened Wrappers
  import opened GoIntegers
  import opened Storage
  import opened CacheValue
  import Base58
  import Cache
  import Allocator
  import AllocatorTheorems

  type Key = seq<byte>
  type ProxyId = nat
  type TaskId = nat

  /** What an ID was inserted with. */
  datatype Binding = Binding(url: Url, expiresAt: Option<Time>)

  /** What a Create is going to answer once its cache write is over. */
  datatype Reply = Reply(url: Url, id: nat)

  /** A call in progress, between two of its accesses. */
  datatype Task =
    | Inserting(p: ProxyId, id: nat, link: Binding)           // Create, with a number from Next
    | LookingUp(p: ProxyId, url: Url)                         // Create, after a duplicate key
    | PuttingShared(p: ProxyId, key: Key, id: nat, link: Binding, reply: Option<Reply>)
    | PuttingLocal(p: ProxyId, key: Key, value: Bytes, reply: Option<Reply>)
    | Judging(p: ProxyId, key: Key, value: Bytes)             // Retrieve, after a cache hit
    | Reading(p: ProxyId, key: Key)                           // Retrieve, after a miss
    | Checking(p: ProxyId, key: Key, id: nat, link: Binding)  // Retrieve, with the row
    | DroppingShared(p: ProxyId, key: Key)                    // Delete, after the table
    | DroppingLocal(p: ProxyId, key: Key)

  datatype World = World(
    configTtl: int,
    now: nat,
    alloc: Allocator.State,
    rows: Rows,
    bound: map<nat, Binding>,  // history: every ID ever inserted
    shared: Cache.Shared,
    locals: map<ProxyId, Cache.Local>,
    tasks: map<TaskId, Task>)

  datatype Event =
    | Tick(d: nat)
    | Allocate(e: Allocator.Event)
    | BeginCreate(t: TaskId, p: ProxyId, c: Allocator.Id, url: Url, ttl: int64)
    | Insert(t: TaskId)
    | LookUp(t: TaskId, found: Option<nat>)
    | PutShared(t: TaskId, jitter: int)
    | PutLocal(t: TaskId)
    | PutFails(t: TaskId)
    | BeginRetrieve(t: TaskId, p: ProxyId, key: Key)
    | Judge(t: TaskId)
    | ReadRow(t: TaskId)
    | Check(t: TaskId)
    | BeginDelete(t: TaskId, p: ProxyId, key: Key)
    | DropShared(t: TaskId)
    | DropLocal(t: TaskId)
    | Reap(victims: set<nat>, limit: nat)  // fewer than could go, if the clock was read earlier
    | EvictShared(key: Key)
    | EvictLocal(p: ProxyId, key: Key)
    | Abandon(t: TaskId)  // a backend error, a panic, a cancelled request or a crash

  /** What a call answers, by the event at which its answer is settled. */
  datatype Answer =
    | Created(url: Url, code: Key)
    | Resolved(key: Key, url: Url)
    | Gone(key: Key)      // ErrExpired
    | Missing(key: Key)   // ErrRecordNotFound
    | Invalid(key: Key)

  function Init(configTtl: int): World {
    World(configTtl, 0, Allocator.Init, map[], map[], map[], map[], map[])
  }

  function IdOf(k: Key): Option<nat> {
    match Base58.Decode(k)
    case Ok(id) => Some(id)
    case Err(_) => None
  }

  function LocalOf(w: World, p: ProxyId): Cache.Local {
    if p in w.locals then w.locals[p] else map[]
  }

  function ExpiryOf(now: nat, ttl: int): Option<Time> {
    if ttl > 0 then Some(now + ttl) else None
  }

  function LinkOf(row: Row): Binding {
    Binding(row.url, row.expiresAt)
  }

  function ValueOf(link: Binding): Bytes {
    EncodeValue(link.url, link.expiresAt)
  }

  datatype Verdict = Live(url: Url) | Dead | Malformed

  /** fromCache after a hit. */
  function VerdictOn(value: Bytes, now: Time): Verdict {
    match DecodeValue(value)
    case None => Malformed
    case Some((url, expiresAt)) => if IsExpired(expiresAt, now) then Dead else Live(url)
  }

  function TtlOf(w: World, link: Binding): int {
    CacheTtl(w.configTtl, link.expiresAt, w.now)
  }

  predicate Enabled(w: World, e: Event) {
    match e
    case Tick(d) => w.now + d < TWO_63
    case Allocate(ae) => !ae.Deliver?
    case BeginCreate(t, _, c, _, _) => t !in w.tasks && c in w.alloc.clients && w.alloc.clients[c].phase.Offering?
    case Insert(t) => t in w.tasks && w.tasks[t].Inserting?
    case LookUp(t, found) => t in w.tasks && w.tasks[t].LookingUp? && FoundByUrl(w.rows, w.tasks[t].url, found)
    case PutShared(t, jitter) =>
      && t in w.tasks && w.tasks[t].PuttingShared?
      && TtlOf(w, w.tasks[t].link) >= Cache.MIN_TTL
      && Cache.JitterOk(TtlOf(w, w.tasks[t].link), jitter)
    case PutLocal(t) => t in w.tasks && w.tasks[t].PuttingLocal?
    case PutFails(t) =>
      && t in w.tasks
      && (w.tasks[t].PuttingLocal? || (w.tasks[t].PuttingShared? && TtlOf(w, w.tasks[t].link) >= Cache.MIN_TTL))
    case BeginRetrieve(t, _, _) => t !in w.tasks
    case Judge(t) => t in w.tasks && w.tasks[t].Judging?
    case ReadRow(t) => t in w.tasks && w.tasks[t].Reading?
    case Check(t) => t in w.tasks && w.tasks[t].Checking?
    case BeginDelete(t, _, _) => t !in w.tasks
    case DropShared(t) => t in w.tasks && w.tasks[t].DroppingShared?
    case DropLocal(t) => t in w.tasks && w.tasks[t].DroppingLocal?
    case Reap(victims, limit) => victims <= Expired(w.rows, w.now) && |victims| <= limit
    case EvictShared(_) => true
    case EvictLocal(_, _) => true
    case Abandon(t) => t in w.tasks
  }

  /** The call that an event is a step of. */
  function CallOf(e: Event): Option<TaskId> {
    match e
    case Tick(_) => None
    case Allocate(_) => None
    case Reap(_, _) => None
    case EvictShared(_) => None
    case EvictLocal(_, _) => None
    case _ => Some(e.t)
  }

  // --------------------------------------------------------------- the steps

  function Proceed(w: World, t: TaskId, task: Task): World {
    w.(tasks := w.tasks[t := task])
  }

  function Finish(w: World, t: TaskId): World {
    w.(tasks := w.tasks - {t})
  }

  /** Create has its number from Next and works out the expiry. */
  function DoBeginCreate(w: World, t: TaskId, p: ProxyId, c: Allocator.Id, url: Url, ttl: int64): World
    requires c in w.alloc.clients
  {
    var id := w.alloc.clients[c].curr;
    Proceed(w.(alloc := Allocator.Apply(w.alloc, Allocator.Deliver(c))), t,
            Inserting(p, id, Binding(url, ExpiryOf(w.now, ttl))))
  }

  /** A row and the history of what its ID was bound to. */
  function Bind(w: World, id: nat, link: Binding): World {
    w.(rows := w.rows[id := Row(link.url, link.expiresAt, false)], bound := w.bound[id := link])
  }

  /** Create goes on to publish a record under the code of its ID. */
  function Publish(p: ProxyId, id: nat, link: Binding, url: Url): Task {
    PuttingShared(p, Base58.Encode(id), id, link, Some(Reply(url, id)))
  }

  function DoInsert(w: World, t: TaskId): World
    requires t in w.tasks && w.tasks[t].Inserting?
  {
    var Inserting(p, id, link) := w.tasks[t];
    if Accepts(w.rows, id, link.url) then Proceed(Bind(w, id, link), t, Publish(p, id, link, link.url))
    else Proceed(w, t, LookingUp(p, link.url))
  }

  function DoLookUp(w: World, t: TaskId, found: Option<nat>): World
    requires t in w.tasks && w.tasks[t].LookingUp? && (found.Some? ==> found.value in w.rows)
  {
    var LookingUp(p, url) := w.tasks[t];
    if found.Some? then Proceed(w, t, Publish(p, found.value, LinkOf(w.rows[found.value]), url))
    else Finish(w, t)
  }

  function DoPutShared(w: World, t: TaskId, jitter: int): World
    requires t in w.tasks && w.tasks[t].PuttingShared?
  {
    var PuttingShared(p, key, _, link, reply) := w.tasks[t];
    Proceed(w.(shared := w.shared[key := Cache.Entry(ValueOf(link), w.now + TtlOf(w, link) + jitter)]), t,
            PuttingLocal(p, key, ValueOf(link), reply))
  }

  function DoPutLocal(w: World, t: TaskId): World
    requires t in w.tasks && w.tasks[t].PuttingLocal?
  {
    var PuttingLocal(p, key, value, _) := w.tasks[t];
    Finish(w.(locals := w.locals[p := LocalOf(w, p)[key := value]]), t)
  }

  /** Retrieve asks its proxy. */
  function DoBeginRetrieve(w: World, t: TaskId, p: ProxyId, key: Key): World {
    Proceed(w.(locals := w.locals[p := Cache.Filled(w.shared, LocalOf(w, p), w.now, key)]), t,
            match Cache.ProxyGet(w.shared, LocalOf(w, p), w.now, key)
            case Some(value) => Judging(p, key, value)
            case None => Reading(p, key))
  }

  function DoJudge(w: World, t: TaskId): World
    requires t in w.tasks && w.tasks[t].Judging?
  {
    var Judging(p, key, value) := w.tasks[t];
    if VerdictOn(value, w.now).Malformed? then Proceed(w, t, Reading(p, key)) else Finish(w, t)
  }

  function DoReadRow(w: World, t: TaskId): World
    requires t in w.tasks && w.tasks[t].Reading?
  {
    var Reading(p, key) := w.tasks[t];
    var id := IdOf(key);
    if id.Some? && Visible(w.rows, id.value) then Proceed(w, t, Checking(p, key, id.value, LinkOf(w.rows[id.value])))
    else Finish(w, t)
  }

  function DoCheck(w: World, t: TaskId): World
    requires t in w.tasks && w.tasks[t].Checking?
  {
    var Checking(p, key, id, link) := w.tasks[t];
    if IsExpired(link.expiresAt, w.now) then Finish(w, t) else Proceed(w, t, PuttingShared(p, key, id, link, None))
  }

  function DoBeginDelete(w: World, t: TaskId, p: ProxyId, key: Key): World {
    if IdOf(key).Some? && Visible(w.rows, IdOf(key).value) then
      Proceed(w.(rows := SoftDeleted(w.rows, IdOf(key).value)), t, DroppingShared(p, key))
    else w
  }

  function DoDropShared(w: World, t: TaskId): World
    requires t in w.tasks && w.tasks[t].DroppingShared?
  {
    var DroppingShared(p, key) := w.tasks[t];
    Proceed(w.(shared := w.shared - {key}), t, DroppingLocal(p, key))
  }

  function DoDropLocal(w: World, t: TaskId): World
    requires t in w.tasks && w.tasks[t].DroppingLocal?
  {
    var DroppingLocal(p, key) := w.tasks[t];
    Finish(w.(locals := w.locals[p := LocalOf(w, p) - {key}]), t)
  }

  /** The world after one event. */
  function Apply(w: World, e: Event): World {
    if !Enabled(w, e) then w
    else
      match e
      case Tick(d) => w.(now := w.now + d)
      case Allocate(ae) => w.(alloc := Allocator.Apply(w.alloc, ae))
      case BeginCreate(t, p, c, url, ttl) => DoBeginCreate(w, t, p, c, url, ttl)
      case Insert(t) => DoInsert(w, t)
      case LookUp(t, found) => DoLookUp(w, t, found)
      case PutShared(t, jitter) => DoPutShared(w, t, jitter)
      case PutLocal(t) => DoPutLocal(w, t)
      case PutFails(t) => Finish(w, t)
      case BeginRetrieve(t, p, key) => if IdOf(key).None? then w else DoBeginRetrieve(w, t, p, key)
      case Judge(t) => DoJudge(w, t)
      case ReadRow(t) => DoReadRow(w, t)
      case Check(t) => DoCheck(w, t)
      case BeginDelete(t, p, key) => DoBeginDelete(w, t, p, key)
      case DropShared(t) => DoDropShared(w, t)
      case DropLocal(t) => DoDropLocal(w, t)
      case Reap(victims, _) => w.(rows := w.rows - victims)
      case EvictShared(key) => w.(shared := w.shared - {key})
      case EvictLocal(p, key) => w.(locals := w.locals[p := LocalOf(w, p) - {key}])
      case Abandon(t) => Finish(w, t)
  }

  /** The answer that an event settles, if it settles one. */
  function AnswerOf(w: World, e: Event): Option<Answer> {
    if !Enabled(w, e) then None
    else
      match e
      case PutLocal(t) => CreateAnswer(w.tasks[t].reply)
      case PutFails(t) => CreateAnswer(w.tasks[t].reply)
      case BeginRetrieve(_, _, key) => if IdOf(key).None? then Some(Invalid(key)) else None
      case Judge(t) =>
        (match VerdictOn(w.tasks[t].value, w.now)
         case Live(url) => Some(Resolved(w.tasks[t].key, url))
         case Dead => Some(Gone(w.tasks[t].key))
         case Malformed => None)
      case ReadRow(t) =>
        var id := IdOf(w.tasks[t].key);
        if id.Some? && Visible(w.rows, id.value) then None else Some(Missing(w.tasks[t].key))
      case Check(t) =>
        var Checking(_, key, _, link) := w.tasks[t];
        if IsExpired(link.expiresAt, w.now) then Some(Gone(key)) else Some(Resolved(key, link.url))
      case _ => None
  }

  function CreateAnswer(reply: Option<Reply>): Option<Answer> {
    if reply.Some? then Some(Created(reply.value.url, Base58.Encode(reply.value.id))) else None
  }

  /** The world at the end of a run. */
  function After(w: World, es: seq<Event>): World {
    if es == [] then w else Apply(After(w, es[..|es| - 1]), es[|es| - 1])
  }

  // --------------------------------------------------------------- invariant

  /** Under a decodable key there is only ever the value of the link its ID was bound to. */
  predicate KeyBound(bound: map<nat, Binding>, k: Key, value: Bytes) {
    IdOf(k).Some? ==> IdOf(k).value in bound && value == ValueOf(bound[IdOf(k).value])
  }

  predicate SharedBound(bound: map<nat, Binding>, shared: Cache.Shared) {
    forall k | k in shared :: KeyBound(bound, k, shared[k].value)
  }

  predicate LocalBound(bound: map<nat, Binding>, local: Cache.Local) {
    forall k | k in local :: KeyBound(bound, k, local[k])
  }

  predicate RowsBound(rows: Rows, bound: map<nat, Binding>) {
    forall id | id in rows :: id in bound && LinkOf(rows[id]) == bound[id]
  }

  /** An expiry is after the start of the clock and within two of its ranges. */
  predicate ExpiryOk(expiresAt: Option<Time>) {
    expiresAt.Some? ==> 0 < expiresAt.value < TWO_64
  }

  /** An ID that was bound was given out by the allocator, and only expiry takes its row away. */
  predicate BindingOk(w: World, id: nat)
    requires id in w.bound
  {
    && AllocatorTheorems.Delivered(w.alloc, id)
    && ExpiryOk(w.bound[id].expiresAt)
    && (id !in w.rows ==> w.bound[id].expiresAt.Some? && w.bound[id].expiresAt.value < w.now)
  }

  predicate ReplyOk(bound: map<nat, Binding>, reply: Option<Reply>) {
    reply.Some? ==> reply.value.id in bound && bound[reply.value.id].url == reply.value.url
  }

  predicate LinkBound(bound: map<nat, Binding>, id: nat, link: Binding) {
    id in bound && bound[id] == link
  }

  predicate TaskOk(w: World, task: Task) {
    match task
    case Inserting(_, id, link) =>
      AllocatorTheorems.Delivered(w.alloc, id) && id !in w.bound && ExpiryOk(link.expiresAt)
    case LookingUp(_, _) => true
    case PuttingShared(_, key, id, link, reply) =>
      LinkBound(w.bound, id, link) && (IdOf(key).Some? ==> IdOf(key).value == id) && ReplyOk(w.bound, reply)
    case PuttingLocal(_, key, value, reply) => KeyBound(w.bound, key, value) && ReplyOk(w.bound, reply)
    case Judging(_, key, value) => IdOf(key).Some? && KeyBound(w.bound, key, value)
    case Reading(_, key) => IdOf(key).Some?
    case Checking(_, key, id, link) => IdOf(key) == Some(id) && LinkBound(w.bound, id, link)
    case DroppingShared(_, _) => true
    case DroppingLocal(_, _) => true
  }

  /** No two Creates in progress hold the same number. */
  predicate NumbersDistinct(tasks: map<TaskId, Task>) {
    forall t, u | t in tasks && u in tasks && tasks[t].Inserting? && tasks[u].Inserting? && tasks[t].id == tasks[u].id :: t == u
  }

  ghost predicate Inv(w: World) {
    && w.now < TWO_63
    && Allocator.Inv(w.alloc)
    && UniqueUrls(w.rows)
    && RowsBound(w.rows, w.bound)
    && (forall id | id in w.bound :: BindingOk(w, id))
    && SharedBound(w.bound, w.shared)
    && (forall p | p in w.locals :: LocalBound(w.bound, w.locals[p]))
    && (forall t | t in w.tasks :: TaskOk(w, w.tasks[t]))
    && NumbersDistinct(w.tasks)
  }

  lemma IdOfEncode(id: nat)
    ensures IdOf(Base58.Encode(id)) == if id < Base58.Limit() then Some(id) else None
  {
    Base58.DecodeOfEncode(id);
  }
}
