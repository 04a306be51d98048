/** Every event of the short-link service keeps its invariant. */
module LinkInvariant {
  import opened Wrappers
  import opened GoIntegers
  import opened Storage
  import opened LinkService
  import Cache
  import Allocator
  import AllocatorTheorems

  predicate Extends(b: map<nat, Binding>, b': map<nat, Binding>) {
    forall id | id in b :: id in b' && b'[id] == b[id]
  }

  // ------------------------------------------------ changes to one component

  lemma TaskReplaced(w: World, t: TaskId, task: Task)
    requires Inv(w) && TaskOk(w, task) && !task.Inserting?
    ensures Inv(w.(tasks := w.tasks[t := task]))
  {
    var w' := w.(tasks := w.tasks[t := task]);
    forall u | u in w'.tasks ensures TaskOk(w', w'.tasks[u]) {
      assert u != t ==> TaskOk(w, w.tasks[u]);
    }
    forall id | id in w'.bound ensures BindingOk(w', id) { assert BindingOk(w, id); }
  }

  lemma TaskRemoved(w: World, t: TaskId)
    requires Inv(w)
    ensures Inv(w.(tasks := w.tasks - {t}))
  {
    var w' := w.(tasks := w.tasks - {t});
    forall u | u in w'.tasks ensures TaskOk(w', w'.tasks[u]) { assert TaskOk(w, w.tasks[u]); }
    forall id | id in w'.bound ensures BindingOk(w', id) { assert BindingOk(w, id); }
  }

  lemma CachesReplaced(w: World, shared: Cache.Shared, locals: map<ProxyId, Cache.Local>)
    requires Inv(w) && SharedBound(w.bound, shared)
    requires forall p | p in locals :: LocalBound(w.bound, locals[p])
    ensures Inv(w.(shared := shared, locals := locals))
  {
    var w' := w.(shared := shared, locals := locals);
    forall u | u in w'.tasks ensures TaskOk(w', w'.tasks[u]) { assert TaskOk(w, w.tasks[u]); }
    forall id | id in w'.bound ensures BindingOk(w', id) { assert BindingOk(w, id); }
  }

  lemma SharedReplaced(w: World, shared: Cache.Shared)
    requires Inv(w) && SharedBound(w.bound, shared)
    ensures Inv(w.(shared := shared))
  {
    CachesReplaced(w, shared, w.locals);
  }

  lemma LocalReplaced(w: World, p: ProxyId, local: Cache.Local)
    requires Inv(w) && LocalBound(w.bound, local)
    ensures Inv(w.(locals := w.locals[p := local]))
  {
    CachesReplaced(w, w.shared, w.locals[p := local]);
  }

  lemma LocalOfBound(w: World, p: ProxyId)
    requires Inv(w)
    ensures LocalBound(w.bound, LocalOf(w, p))
  {
  }

  lemma RowsReplaced(w: World, rows: Rows)
    requires Inv(w) && UniqueUrls(rows) && RowsBound(rows, w.bound)
    requires forall id | id in w.rows && id !in rows :: w.rows[id].expiresAt.Some? && w.rows[id].expiresAt.value < w.now
    ensures Inv(w.(rows := rows))
  {
    var w' := w.(rows := rows);
    forall u | u in w'.tasks ensures TaskOk(w', w'.tasks[u]) { assert TaskOk(w, w.tasks[u]); }
    forall id | id in w'.bound ensures BindingOk(w', id) { assert BindingOk(w, id); }
  }

  // ------------------------------------------------------------------ events

  lemma TickKeeps(w: World, d: nat)
    requires Inv(w) && w.now + d < TWO_63
    ensures Inv(w.(now := w.now + d))
  {
    var w' := w.(now := w.now + d);
    forall u | u in w'.tasks ensures TaskOk(w', w'.tasks[u]) { assert TaskOk(w, w.tasks[u]); }
    forall id | id in w'.bound ensures BindingOk(w', id) { assert BindingOk(w, id); }
  }

  lemma AllocateKeeps(w: World, ae: Allocator.Event)
    requires Inv(w)
    ensures Inv(w.(alloc := Allocator.Apply(w.alloc, ae)))
  {
    var w' := w.(alloc := Allocator.Apply(w.alloc, ae));
    Allocator.ApplyKeepsInv(w.alloc, ae);
    forall v | AllocatorTheorems.Delivered(w.alloc, v) ensures AllocatorTheorems.Delivered(w'.alloc, v) {
      AllocatorTheorems.DeliveredForever(w.alloc, ae, v);
    }
    forall u | u in w'.tasks ensures TaskOk(w', w'.tasks[u]) { assert TaskOk(w, w.tasks[u]); }
    forall id | id in w'.bound ensures BindingOk(w', id) { assert BindingOk(w, id); }
  }

  lemma InsertingAdded(w: World, t: TaskId, task: Task)
    requires Inv(w) && TaskOk(w, task) && task.Inserting? && t !in w.tasks
    requires forall u | u in w.tasks && w.tasks[u].Inserting? :: w.tasks[u].id != task.id
    ensures Inv(w.(tasks := w.tasks[t := task]))
  {
    var w' := w.(tasks := w.tasks[t := task]);
    forall u | u in w'.tasks ensures TaskOk(w', w'.tasks[u]) {
      assert u != t ==> TaskOk(w, w.tasks[u]);
    }
    forall id | id in w'.bound ensures BindingOk(w', id) { assert BindingOk(w, id); }
  }

  lemma BeginCreateKeeps(w: World, t: TaskId, p: ProxyId, c: Allocator.Id, url: Url, ttl: int64)
    requires Inv(w) && t !in w.tasks && c in w.alloc.clients && w.alloc.clients[c].phase.Offering?
    ensures Inv(DoBeginCreate(w, t, p, c, url, ttl))
  {
    var id := w.alloc.clients[c].curr;
    var w1 := w.(alloc := Allocator.Apply(w.alloc, Allocator.Deliver(c)));
    AllocateKeeps(w, Allocator.Deliver(c));
    AllocatorTheorems.FreshOffer(w.alloc, c);
    DeliverDelivers(w.alloc, c);
    forall u | u in w.tasks && w.tasks[u].Inserting? ensures w.tasks[u].id != id { assert TaskOk(w, w.tasks[u]); }
    forall b | b in w.bound ensures b != id { assert BindingOk(w, b); }
    InsertingAdded(w1, t, Inserting(p, id, Binding(url, ExpiryOf(w.now, ttl))));
  }

  lemma DeliverDelivers(s: Allocator.State, c: Allocator.Id)
    requires c in s.clients && s.clients[c].phase.Offering?
    ensures AllocatorTheorems.Delivered(Allocator.Apply(s, Allocator.Deliver(c)), s.clients[c].curr)
  {
    var got := Allocator.Apply(s, Allocator.Deliver(c)).clients[c].got;
    assert got[|got| - 1] == s.clients[c].curr;
  }

  /** The number of a Create in progress is not in the table: a duplicate key is a duplicate URL. */
  lemma InsertingIsFresh(w: World, t: TaskId)
    requires Inv(w) && t in w.tasks && w.tasks[t].Inserting?
    ensures w.tasks[t].id !in w.rows && w.tasks[t].id !in w.bound
    ensures Accepts(w.rows, w.tasks[t].id, w.tasks[t].link.url) <==> !UrlTaken(w.rows, w.tasks[t].link.url)
  {
    assert TaskOk(w, w.tasks[t]);
  }

  lemma CachesGrow(b: map<nat, Binding>, b': map<nat, Binding>, shared: Cache.Shared, local: Cache.Local)
    requires Extends(b, b')
    ensures SharedBound(b, shared) ==> SharedBound(b', shared)
    ensures LocalBound(b, local) ==> LocalBound(b', local)
  {
  }

  lemma TaskGrows(w: World, w': World, task: Task)
    requires TaskOk(w, task) && Extends(w.bound, w'.bound) && w'.alloc == w.alloc
    requires task.Inserting? ==> task.id !in w'.bound
    ensures TaskOk(w', task)
  {
  }

  lemma RowsGrow(rows: Rows, b: map<nat, Binding>, id: nat, link: Binding)
    requires UniqueUrls(rows) && RowsBound(rows, b) && id !in b && Accepts(rows, id, link.url)
    ensures var rows' := rows[id := Row(link.url, link.expiresAt, false)];
            UniqueUrls(rows') && RowsBound(rows', b[id := link])
  {
  }

  lemma BindingGrows(w: World, w': World, i: nat)
    requires i in w.bound && BindingOk(w, i) && i in w'.bound && w'.bound[i] == w.bound[i]
    requires w'.alloc == w.alloc && w'.now == w.now && w.rows.Keys <= w'.rows.Keys
    ensures BindingOk(w', i)
  {
  }

  /** A Create's number and link enter the history and the table together. */
  lemma BoundGrows(w: World, t: TaskId)
    requires Inv(w) && t in w.tasks && w.tasks[t].Inserting?
    requires Accepts(w.rows, w.tasks[t].id, w.tasks[t].link.url)
    ensures Inv(Bind(Finish(w, t), w.tasks[t].id, w.tasks[t].link))
  {
    var id, link := w.tasks[t].id, w.tasks[t].link;
    var w' := Bind(Finish(w, t), id, link);
    InsertingIsFresh(w, t);
    assert TaskOk(w, w.tasks[t]);
    assert Extends(w.bound, w'.bound);
    forall u | u in w'.tasks ensures TaskOk(w', w'.tasks[u]) {
      TaskGrows(w, w', w.tasks[u]);
    }
    forall i | i in w'.bound ensures BindingOk(w', i) {
      if i != id { BindingGrows(w, w', i); }
    }
    RowsGrow(w.rows, w.bound, id, link);
    CachesGrow(w.bound, w'.bound, w.shared, map[]);
    forall p | p in w'.locals ensures LocalBound(w'.bound, w'.locals[p]) {
      CachesGrow(w.bound, w'.bound, w.shared, w.locals[p]);
    }
  }

  lemma PublishOk(w: World, p: ProxyId, id: nat, link: Binding, url: Url)
    requires LinkBound(w.bound, id, link) && link.url == url
    ensures TaskOk(w, Publish(p, id, link, url))
  {
    IdOfEncode(id);
  }

  lemma PutBack(tasks: map<TaskId, Task>, t: TaskId, task: Task)
    ensures (tasks - {t})[t := task] == tasks[t := task]
  {
  }

  lemma InsertKeeps(w: World, t: TaskId)
    requires Inv(w) && t in w.tasks && w.tasks[t].Inserting?
    ensures Inv(DoInsert(w, t))
  {
    var Inserting(p, id, link) := w.tasks[t];
    if Accepts(w.rows, id, link.url) {
      var w1 := Bind(Finish(w, t), id, link);
      BoundGrows(w, t);
      PublishOk(w1, p, id, link, link.url);
      var task := Publish(p, id, link, link.url);
      TaskReplaced(w1, t, task);
      PutBack(w.tasks, t, task);
    } else {
      TaskReplaced(w, t, LookingUp(p, link.url));
    }
  }

  lemma LookUpKeeps(w: World, t: TaskId, found: Option<nat>)
    requires Inv(w) && t in w.tasks && w.tasks[t].LookingUp? && FoundByUrl(w.rows, w.tasks[t].url, found)
    ensures Inv(DoLookUp(w, t, found))
  {
    if found.Some? {
      var LookingUp(p, url) := w.tasks[t];
      PublishOk(w, p, found.value, LinkOf(w.rows[found.value]), url);
      TaskReplaced(w, t, Publish(p, found.value, LinkOf(w.rows[found.value]), url));
    } else {
      TaskRemoved(w, t);
    }
  }

  lemma EntryAdded(b: map<nat, Binding>, shared: Cache.Shared, key: Key, entry: Cache.Entry)
    requires SharedBound(b, shared) && KeyBound(b, key, entry.value)
    ensures SharedBound(b, shared[key := entry])
  {
  }

  lemma LinkValueBound(b: map<nat, Binding>, key: Key, id: nat, link: Binding)
    requires LinkBound(b, id, link) && (IdOf(key).Some? ==> IdOf(key).value == id)
    ensures KeyBound(b, key, ValueOf(link))
  {
  }

  lemma EntryPut(w: World, key: Key, entry: Cache.Entry)
    requires Inv(w) && KeyBound(w.bound, key, entry.value)
    ensures Inv(w.(shared := w.shared[key := entry]))
  {
    EntryAdded(w.bound, w.shared, key, entry);
    SharedReplaced(w, w.shared[key := entry]);
  }

  lemma EntryAndTask(w: World, key: Key, entry: Cache.Entry, t: TaskId, task: Task)
    requires Inv(w) && KeyBound(w.bound, key, entry.value)
    requires task.PuttingLocal? && KeyBound(w.bound, task.key, task.value) && ReplyOk(w.bound, task.reply)
    ensures Inv(w.(shared := w.shared[key := entry], tasks := w.tasks[t := task]))
  {
    EntryPut(w, key, entry);
    TaskReplaced(w.(shared := w.shared[key := entry]), t, task);
  }

  lemma PuttingSharedIsBound(w: World, t: TaskId)
    requires Inv(w) && t in w.tasks && w.tasks[t].PuttingShared?
    ensures KeyBound(w.bound, w.tasks[t].key, ValueOf(w.tasks[t].link)) && ReplyOk(w.bound, w.tasks[t].reply)
  {
    assert TaskOk(w, w.tasks[t]);
    LinkValueBound(w.bound, w.tasks[t].key, w.tasks[t].id, w.tasks[t].link);
  }

  lemma PutSharedKeeps(w: World, t: TaskId, jitter: int)
    requires Inv(w) && t in w.tasks && w.tasks[t].PuttingShared?
    ensures Inv(DoPutShared(w, t, jitter))
  {
    var task := w.tasks[t];
    var entry := Cache.Entry(ValueOf(task.link), w.now + TtlOf(w, task.link) + jitter);
    var next := PuttingLocal(task.p, task.key, ValueOf(task.link), task.reply);
    assert DoPutShared(w, t, jitter) == w.(shared := w.shared[task.key := entry], tasks := w.tasks[t := next]);
    PuttingSharedIsBound(w, t);
    EntryAndTask(w, task.key, entry, t, next);
  }

  lemma PutLocalKeeps(w: World, t: TaskId)
    requires Inv(w) && t in w.tasks && w.tasks[t].PuttingLocal?
    ensures Inv(DoPutLocal(w, t))
  {
    var PuttingLocal(p, key, value, _) := w.tasks[t];
    assert TaskOk(w, w.tasks[t]);
    LocalOfBound(w, p);
    var local := LocalOf(w, p)[key := value];
    LocalReplaced(w, p, local);
    TaskRemoved(w.(locals := w.locals[p := local]), t);
  }

  lemma FilledBound(b: map<nat, Binding>, shared: Cache.Shared, local: Cache.Local, now: int, key: Key)
    requires SharedBound(b, shared) && LocalBound(b, local)
    ensures LocalBound(b, Cache.Filled(shared, local, now, key))
    ensures Cache.ProxyGet(shared, local, now, key).Some? ==> KeyBound(b, key, Cache.ProxyGet(shared, local, now, key).value)
  {
  }

  lemma BeginRetrieveKeeps(w: World, t: TaskId, p: ProxyId, key: Key)
    requires Inv(w) && IdOf(key).Some?
    ensures Inv(DoBeginRetrieve(w, t, p, key))
  {
    LocalOfBound(w, p);
    var filled := Cache.Filled(w.shared, LocalOf(w, p), w.now, key);
    FilledBound(w.bound, w.shared, LocalOf(w, p), w.now, key);
    LocalReplaced(w, p, filled);
    var w1 := w.(locals := w.locals[p := filled]);
    match Cache.ProxyGet(w.shared, LocalOf(w, p), w.now, key) {
      case Some(value) => TaskReplaced(w1, t, Judging(p, key, value));
      case None => TaskReplaced(w1, t, Reading(p, key));
    }
  }

  lemma JudgeKeeps(w: World, t: TaskId)
    requires Inv(w) && t in w.tasks && w.tasks[t].Judging?
    ensures Inv(DoJudge(w, t))
  {
    var Judging(p, key, value) := w.tasks[t];
    assert TaskOk(w, w.tasks[t]);
    TaskReplaced(w, t, Reading(p, key));
    TaskRemoved(w, t);
  }

  lemma ReadRowKeeps(w: World, t: TaskId)
    requires Inv(w) && t in w.tasks && w.tasks[t].Reading?
    ensures Inv(DoReadRow(w, t))
  {
    var Reading(p, key) := w.tasks[t];
    assert TaskOk(w, w.tasks[t]);
    var id := IdOf(key).value;
    if Visible(w.rows, id) {
      TaskReplaced(w, t, Checking(p, key, id, LinkOf(w.rows[id])));
    } else {
      TaskRemoved(w, t);
    }
  }

  lemma CheckKeeps(w: World, t: TaskId)
    requires Inv(w) && t in w.tasks && w.tasks[t].Checking?
    ensures Inv(DoCheck(w, t))
  {
    var Checking(p, key, id, link) := w.tasks[t];
    assert TaskOk(w, w.tasks[t]);
    TaskReplaced(w, t, PuttingShared(p, key, id, link, None));
    TaskRemoved(w, t);
  }

  lemma BeginDeleteKeeps(w: World, t: TaskId, p: ProxyId, key: Key)
    requires Inv(w)
    ensures Inv(DoBeginDelete(w, t, p, key))
  {
    if IdOf(key).Some? && Visible(w.rows, IdOf(key).value) {
      var rows := SoftDeleted(w.rows, IdOf(key).value);
      RowsReplaced(w, rows);
      TaskReplaced(w.(rows := rows), t, DroppingShared(p, key));
    }
  }

  lemma DropSharedKeeps(w: World, t: TaskId)
    requires Inv(w) && t in w.tasks && w.tasks[t].DroppingShared?
    ensures Inv(DoDropShared(w, t))
  {
    var DroppingShared(p, key) := w.tasks[t];
    SharedReplaced(w, w.shared - {key});
    TaskReplaced(w.(shared := w.shared - {key}), t, DroppingLocal(p, key));
  }

  lemma EvictLocalKeeps(w: World, p: ProxyId, key: Key)
    requires Inv(w)
    ensures Inv(w.(locals := w.locals[p := LocalOf(w, p) - {key}]))
  {
    LocalOfBound(w, p);
    LocalReplaced(w, p, LocalOf(w, p) - {key});
  }

  lemma DropLocalKeeps(w: World, t: TaskId)
    requires Inv(w) && t in w.tasks && w.tasks[t].DroppingLocal?
    ensures Inv(DoDropLocal(w, t))
  {
    var DroppingLocal(p, key) := w.tasks[t];
    EvictLocalKeeps(w, p, key);
    TaskRemoved(w.(locals := w.locals[p := LocalOf(w, p) - {key}]), t);
  }

  predicate OfCreate(e: Event) {
    e.BeginCreate? || e.Insert? || e.LookUp? || e.PutShared? || e.PutLocal? || e.PutFails?
  }

  predicate OfRetrieve(e: Event) {
    e.BeginRetrieve? || e.Judge? || e.ReadRow? || e.Check?
  }

  predicate OfDelete(e: Event) {
    e.BeginDelete? || e.DropShared? || e.DropLocal?
  }

  lemma CreateKeepsInv(w: World, e: Event)
    requires Inv(w) && Enabled(w, e) && OfCreate(e)
    ensures Inv(Apply(w, e))
  {
    match e
    case BeginCreate(t, p, c, url, ttl) => BeginCreateKeeps(w, t, p, c, url, ttl);
    case Insert(t) => InsertKeeps(w, t);
    case LookUp(t, found) => LookUpKeeps(w, t, found);
    case PutShared(t, jitter) => PutSharedKeeps(w, t, jitter);
    case PutLocal(t) => PutLocalKeeps(w, t);
    case PutFails(t) => TaskRemoved(w, t);
  }

  lemma RetrieveKeepsInv(w: World, e: Event)
    requires Inv(w) && Enabled(w, e) && OfRetrieve(e)
    ensures Inv(Apply(w, e))
  {
    match e
    case BeginRetrieve(t, p, key) => if IdOf(key).Some? { BeginRetrieveKeeps(w, t, p, key); }
    case Judge(t) => JudgeKeeps(w, t);
    case ReadRow(t) => ReadRowKeeps(w, t);
    case Check(t) => CheckKeeps(w, t);
  }

  lemma DeleteKeepsInv(w: World, e: Event)
    requires Inv(w) && Enabled(w, e) && OfDelete(e)
    ensures Inv(Apply(w, e))
  {
    match e
    case BeginDelete(t, p, key) => BeginDeleteKeeps(w, t, p, key);
    case DropShared(t) => DropSharedKeeps(w, t);
    case DropLocal(t) => DropLocalKeeps(w, t);
  }

  lemma SurroundingsKeepInv(w: World, e: Event)
    requires Inv(w) && Enabled(w, e) && !OfCreate(e) && !OfRetrieve(e) && !OfDelete(e)
    ensures Inv(Apply(w, e))
  {
    match e
    case Tick(d) => TickKeeps(w, d);
    case Allocate(ae) => AllocateKeeps(w, ae);
    case Reap(victims, _) => RowsReplaced(w, w.rows - victims);
    case EvictShared(key) => SharedReplaced(w, w.shared - {key});
    case EvictLocal(p, key) => EvictLocalKeeps(w, p, key);
    case Abandon(t) => TaskRemoved(w, t);
  }

  lemma ApplyKeepsInv(w: World, e: Event)
    requires Inv(w)
    ensures Inv(Apply(w, e))
  {
    if Enabled(w, e) {
      if OfCreate(e) { CreateKeepsInv(w, e); }
      else if OfRetrieve(e) { RetrieveKeepsInv(w, e); }
      else if OfDelete(e) { DeleteKeepsInv(w, e); }
      else { SurroundingsKeepInv(w, e); }
    }
  }

  lemma {:induction false} RunsKeepInv(w: World, es: seq<Event>)
    requires Inv(w)
    ensures Inv(After(w, es))
  {
    if es != [] {
      RunsKeepInv(w, es[..|es| - 1]);
      ApplyKeepsInv(After(w, es[..|es| - 1]), es[|es| - 1]);
    }
  }

  /** The invariant holds in every reachable world. */
  lemma Reachable(configTtl: int, es: seq<Event>)
    ensures Inv(After(Init(configTtl), es))
  {
    RunsKeepInv(Init(configTtl), es);
  }

  lemma PutsBindNothing(w: World, e: Event)
    requires (OfCreate(e) && !e.Insert?) || OfDelete(e)
    ensures Apply(w, e).bound == w.bound && Apply(w, e).now == w.now
  {
  }

  lemma RetrieveBindsNothing(w: World, e: Event)
    requires OfRetrieve(e)
    ensures Apply(w, e).bound == w.bound && Apply(w, e).now == w.now
  {
  }

  lemma OnlyTickMovesTheClock(w: World, e: Event)
    ensures Apply(w, e).now == if e.Tick? && Enabled(w, e) then w.now + e.d else w.now
  {
    if OfRetrieve(e) { RetrieveBindsNothing(w, e); }
    if (OfCreate(e) && !e.Insert?) || OfDelete(e) { PutsBindNothing(w, e); }
  }

  lemma OnlyInsertBinds(w: World, e: Event)
    requires !e.Insert?
    ensures Apply(w, e).bound == w.bound
  {
    if OfRetrieve(e) { RetrieveBindsNothing(w, e); }
    if OfCreate(e) || OfDelete(e) { PutsBindNothing(w, e); }
  }

  lemma InsertBindsOnce(w: World, t: TaskId)
    requires Inv(w) && t in w.tasks && w.tasks[t].Inserting?
    ensures Extends(w.bound, DoInsert(w, t).bound)
  {
    InsertingIsFresh(w, t);
  }

  /** Bindings are written once: no event changes or removes one. */
  lemma BindingsStay(w: World, e: Event)
    requires Inv(w)
    ensures Extends(w.bound, Apply(w, e).bound)
  {
    if !e.Insert? {
      OnlyInsertBinds(w, e);
    } else if Enabled(w, e) {
      InsertBindsOnce(w, e.t);
    }
  }

  lemma {:induction false} BindingsStayForever(w: World, es: seq<Event>)
    requires Inv(w)
    ensures Extends(w.bound, After(w, es).bound)
    ensures w.now <= After(w, es).now
  {
    if es != [] {
      var front, e := es[..|es| - 1], es[|es| - 1];
      BindingsStayForever(w, front);
      RunsKeepInv(w, front);
      BindingsStay(After(w, front), e);
      OnlyTickMovesTheClock(After(w, front), e);
    }
  }

  lemma {:induction false} AfterConcat(w: World, es: seq<Event>, fs: seq<Event>)
    ensures After(w, es + fs) == After(After(w, es), fs)
  {
    if fs == [] {
      assert es + fs == es;
    } else {
      AfterConcat(w, es, fs[..|fs| - 1]);
      assert (es + fs)[..|es + fs| - 1] == es + fs[..|fs| - 1];
    }
  }
}
