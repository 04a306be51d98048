/** How long a link resolves, told from the Create that made it. */
module LinkLifetimes {
  import opened Wrappers
  import opened GoIntegers
  import opened Storage
  import opened CacheValue
  import opened LinkService
  import opened LinkInvariant
  import opened LinkTheorems
  import Allocator
  import AllocatorTheorems

  /** A number that was given out is bound to this link or not at all, and no Create in progress will bind it otherwise. */
  predicate Promised(w: World, id: nat, link: Binding) {
    && AllocatorTheorems.Delivered(w.alloc, id)
    && (id in w.bound ==> w.bound[id] == link)
    && forall u | u in w.tasks && w.tasks[u].Inserting? && w.tasks[u].id == id :: w.tasks[u].link == link
  }

  lemma OfferIsUnknown(w: World, c: Allocator.Id)
    requires Inv(w) && c in w.alloc.clients && w.alloc.clients[c].phase.Offering?
    ensures var id := w.alloc.clients[c].curr;
            && !AllocatorTheorems.Delivered(w.alloc, id) && id !in w.bound
            && forall u | u in w.tasks && w.tasks[u].Inserting? :: w.tasks[u].id != id
  {
    var id := w.alloc.clients[c].curr;
    AllocatorTheorems.FreshOffer(w.alloc, c);
    forall u | u in w.tasks && w.tasks[u].Inserting? ensures w.tasks[u].id != id { assert TaskOk(w, w.tasks[u]); }
    forall b | b in w.bound ensures b != id { assert BindingOk(w, b); }
  }

  lemma CreateFields(w: World, t: TaskId, p: ProxyId, c: Allocator.Id, url: Url, ttl: int64)
    requires Enabled(w, BeginCreate(t, p, c, url, ttl))
    ensures var w' := Apply(w, BeginCreate(t, p, c, url, ttl));
            && w'.bound == w.bound && w'.alloc == Allocator.Apply(w.alloc, Allocator.Deliver(c))
            && w'.tasks == w.tasks[t := Inserting(p, w.alloc.clients[c].curr,
                                                  Binding(url, if ttl > 0 then Some(w.now + ttl) else None))]
  {
  }

  lemma CreatePromises(w: World, t: TaskId, p: ProxyId, c: Allocator.Id, url: Url, ttl: int64)
    requires Inv(w) && Enabled(w, BeginCreate(t, p, c, url, ttl))
    ensures Promised(Apply(w, BeginCreate(t, p, c, url, ttl)), w.alloc.clients[c].curr,
                     Binding(url, if ttl > 0 then Some(w.now + ttl) else None))
  {
    OfferIsUnknown(w, c);
    CreateFields(w, t, p, c, url, ttl);
    DeliverDelivers(w.alloc, c);
  }

  lemma PutsAddNoCreate(w: World, e: Event)
    requires (OfCreate(e) && !e.BeginCreate?) || OfDelete(e)
    ensures forall u | u in Apply(w, e).tasks && Apply(w, e).tasks[u].Inserting? :: u in w.tasks && w.tasks[u] == Apply(w, e).tasks[u]
  {
  }

  lemma RetrievesAddNoCreate(w: World, e: Event)
    requires OfRetrieve(e)
    ensures forall u | u in Apply(w, e).tasks && Apply(w, e).tasks[u].Inserting? :: u in w.tasks && w.tasks[u] == Apply(w, e).tasks[u]
  {
    if e.BeginRetrieve? && IdOf(e.key).Some? && Enabled(w, e) {
      assert Apply(w, e) == DoBeginRetrieve(w, e.t, e.p, e.key);
    }
  }

  lemma OnlyBeginAddsCreate(w: World, e: Event)
    requires !e.BeginCreate?
    ensures forall u | u in Apply(w, e).tasks && Apply(w, e).tasks[u].Inserting? :: u in w.tasks && w.tasks[u] == Apply(w, e).tasks[u]
  {
    if OfRetrieve(e) { RetrievesAddNoCreate(w, e); }
    if OfCreate(e) || OfDelete(e) { PutsAddNoCreate(w, e); }
  }

  lemma DeliveredStays(w: World, e: Event, id: nat)
    requires AllocatorTheorems.Delivered(w.alloc, id)
    ensures AllocatorTheorems.Delivered(Apply(w, e).alloc, id)
  {
    if e.Allocate? && Enabled(w, e) { AllocatorTheorems.DeliveredForever(w.alloc, e.e, id); }
    if e.BeginCreate? && Enabled(w, e) {
      CreateFields(w, e.t, e.p, e.c, e.url, e.ttl);
      AllocatorTheorems.DeliveredForever(w.alloc, Allocator.Deliver(e.c), id);
    }
  }

  lemma InsertBindsItsOwn(w: World, t: TaskId)
    requires t in w.tasks && w.tasks[t].Inserting?
    ensures var b := DoInsert(w, t).bound; b == w.bound || b == w.bound[w.tasks[t].id := w.tasks[t].link]
  {
  }

  lemma PromiseStays(w: World, e: Event, id: nat, link: Binding)
    requires Inv(w) && Promised(w, id, link)
    ensures Promised(Apply(w, e), id, link)
  {
    DeliveredStays(w, e, id);
    if e.BeginCreate? {
      if Enabled(w, e) {
        OfferIsUnknown(w, e.c);
        CreateFields(w, e.t, e.p, e.c, e.url, e.ttl);
      }
    } else {
      OnlyBeginAddsCreate(w, e);
      if !e.Insert? {
        OnlyInsertBinds(w, e);
      } else if Enabled(w, e) {
        InsertBindsItsOwn(w, e.t);
      }
    }
  }

  lemma {:induction false} PromiseStaysForever(w: World, es: seq<Event>, id: nat, link: Binding)
    requires Inv(w) && Promised(w, id, link)
    ensures Promised(After(w, es), id, link)
  {
    if es != [] {
      var front := es[..|es| - 1];
      PromiseStaysForever(w, front, id, link);
      RunsKeepInv(w, front);
      PromiseStays(After(w, front), es[|es| - 1], id, link);
    }
  }

  /** The link that a Create makes of its URL and the lifetime it is asked for, if it gets to its insertion. */
  lemma {:induction false} BoundAsAsked(w0: World, e: Event, more: seq<Event>)
    requires Inv(w0) && e.BeginCreate? && Enabled(w0, e)
    ensures var w := After(Apply(w0, e), more); var id := w0.alloc.clients[e.c].curr;
            && Inv(w)
            && (id in w.bound ==> w.bound[id] == Binding(e.url, if e.ttl > 0 then Some(w0.now + e.ttl) else None))
  {
    var id, link := w0.alloc.clients[e.c].curr, Binding(e.url, if e.ttl > 0 then Some(w0.now + e.ttl) else None);
    assert e == BeginCreate(e.t, e.p, e.c, e.url, e.ttl);
    CreatePromises(w0, e.t, e.p, e.c, e.url, e.ttl);
    ApplyKeepsInv(w0, e);
    var w1 := Apply(w0, e);
    RunsKeepInv(w1, more);
    PromiseStaysForever(w1, more, id, link);
  }

  lemma {:induction false} LivesItsTime(w0: World, e: Event, more: seq<Event>, e': Event, a: Answer)
    requires Inv(w0) && e.BeginCreate? && Enabled(w0, e)
    requires AnswerOf(After(Apply(w0, e), more), e') == Some(a) && Retrieved(a)
    requires IdOf(a.key) == Some(w0.alloc.clients[e.c].curr)
    ensures var w := After(Apply(w0, e), more); var id := IdOf(a.key).value;
            && (a.Resolved? ==> a.url == e.url && (e.ttl > 0 ==> w.now < w0.now + e.ttl))
            && (id in w.bound && !(id in w.rows && w.rows[id].deleted) && w0.now + e.ttl < TWO_63 ==>
                  (a.Resolved? <==> e.ttl <= 0 || w.now < w0.now + e.ttl))
  {
    var w := After(Apply(w0, e), more);
    var id := IdOf(a.key).value;
    BoundAsAsked(w0, e, more);
    AnswerFromBinding(w, e', a);
    if id in w.bound && !IsExpired(w.bound[id].expiresAt, w.now) { RowOfLiveLink(w, id); }
  }

  /**
   * A link that was created at some time with a lifetime resolves at no time from their sum
   * on; and if it is not deleted and its end fits eight bytes, at every time before.  A link
   * without a lifetime never ends.
   */
  lemma {:induction false} LinksLiveTheirTime(configTtl: int, es: seq<Event>, e: Event, more: seq<Event>, e': Event, a: Answer)
    requires e.BeginCreate? && Enabled(After(Init(configTtl), es), e)
    requires AnswerOf(After(Apply(After(Init(configTtl), es), e), more), e') == Some(a) && Retrieved(a)
    requires IdOf(a.key) == Some(After(Init(configTtl), es).alloc.clients[e.c].curr)
    ensures var created := After(Init(configTtl), es).now; var w := After(Apply(After(Init(configTtl), es), e), more);
            var id := IdOf(a.key).value;
            && (a.Resolved? ==> a.url == e.url && (e.ttl > 0 ==> w.now < created + e.ttl))
            && (id in w.bound && !(id in w.rows && w.rows[id].deleted) && created + e.ttl < TWO_63 ==>
                  (a.Resolved? <==> e.ttl <= 0 || w.now < created + e.ttl))
  {
    Reachable(configTtl, es);
    LivesItsTime(After(Init(configTtl), es), e, more, e', a);
  }
}
