/** When a URL that had a code gets the same code again. */
module RepeatedCreation {
  import opened Wrappers
  import opened Storage
  import opened LinkService
  import opened LinkInvariant
  import Base58

  lemma EncodeIsInjective(a: nat, b: nat)
    requires Base58.Encode(a) == Base58.Encode(b)
    ensures a == b
  {
    Base58.ValueOfEncode(a);
    Base58.ValueOfEncode(b);
  }

  /** A Create has settled on answering a code. */
  predicate WillAnswer(w: World, t: TaskId, code: Key) {
    t in w.tasks && w.tasks[t].PuttingShared? && w.tasks[t].reply.Some? && Base58.Encode(w.tasks[t].reply.value.id) == code
  }

  /** None of these events is a step of a call. */
  predicate WithoutSteps(t: TaskId, es: seq<Event>) {
    forall i | 0 <= i < |es| :: CallOf(es[i]) != Some(t)
  }

  lemma TaskWaits(w: World, t: TaskId, e: Event)
    requires t in w.tasks && CallOf(e) != Some(t)
    ensures t in Apply(w, e).tasks && Apply(w, e).tasks[t] == w.tasks[t]
  {
    if OfRetrieve(e) { OtherRetrieves(w, t, e); }
    if OfDelete(e) || OfCreate(e) { OtherCalls(w, t, e); }
  }

  lemma OtherRetrieves(w: World, t: TaskId, e: Event)
    requires t in w.tasks && OfRetrieve(e) && e.t != t
    ensures t in Apply(w, e).tasks && Apply(w, e).tasks[t] == w.tasks[t]
  {
    if e.BeginRetrieve? && IdOf(e.key).Some? && Enabled(w, e) {
      assert Apply(w, e) == DoBeginRetrieve(w, e.t, e.p, e.key);
    }
  }

  lemma OtherCalls(w: World, t: TaskId, e: Event)
    requires t in w.tasks && (OfCreate(e) || OfDelete(e)) && e.t != t
    ensures t in Apply(w, e).tasks && Apply(w, e).tasks[t] == w.tasks[t]
  {
  }

  lemma {:induction false} TaskWaitsOn(w: World, t: TaskId, es: seq<Event>)
    requires t in w.tasks && WithoutSteps(t, es)
    ensures t in After(w, es).tasks && After(w, es).tasks[t] == w.tasks[t]
  {
    if es != [] {
      TaskWaitsOn(w, t, es[..|es| - 1]);
      TaskWaits(After(w, es[..|es| - 1]), t, es[|es| - 1]);
    }
  }

  /**
   * The exact condition: a Create of a URL that had a code before settles on that code if
   * and only if the row of the code is in the table and not deleted when Create looks,
   * which is at its insertion if that goes through, and at the lookup after it otherwise.
   */
  lemma RepeatedCreate(w: World, t: TaskId, id: nat, between: seq<Event>, found: Option<nat>)
    requires Inv(w) && t in w.tasks && w.tasks[t].Inserting? && WithoutSteps(t, between)
    requires id in w.bound && w.bound[id].url == w.tasks[t].link.url
    requires FoundByUrl(After(Apply(w, Insert(t)), between).rows, w.bound[id].url, found)
    ensures var later := After(Apply(w, Insert(t)), between);
            WillAnswer(Apply(later, LookUp(t, found)), t, Base58.Encode(id))
            <==> if UrlTaken(w.rows, w.bound[id].url) then Visible(later.rows, id) else Visible(w.rows, id)
  {
    var later := After(Apply(w, Insert(t)), between);
    WorldAtLookup(w, t, id, between);
    InsertionDecides(w, t);
    if UrlTaken(w.rows, w.bound[id].url) {
      LookUpSettles(later, t, id, found);
    } else {
      InsertSettles(w, t, later, id, found);
      NotInTable(w, id);
    }
  }

  lemma WorldAtLookup(w: World, t: TaskId, id: nat, between: seq<Event>)
    requires Inv(w) && t in w.tasks && w.tasks[t].Inserting? && WithoutSteps(t, between) && id in w.bound
    ensures var later := After(Apply(w, Insert(t)), between);
            && UniqueUrls(later.rows) && RowsBound(later.rows, later.bound)
            && id in later.bound && later.bound[id] == w.bound[id]
            && t in later.tasks && later.tasks[t] == DoInsert(w, t).tasks[t]
  {
    var w1 := Apply(w, Insert(t));
    assert w1 == DoInsert(w, t);
    ApplyKeepsInv(w, Insert(t));
    BindingsStay(w, Insert(t));
    RunsKeepInv(w1, between);
    BindingsStayForever(w1, between);
    TaskWaitsOn(w1, t, between);
  }

  lemma InsertionDecides(w: World, t: TaskId)
    requires Inv(w) && t in w.tasks && w.tasks[t].Inserting?
    ensures var Inserting(p, number, link) := w.tasks[t];
            DoInsert(w, t).tasks[t] == if UrlTaken(w.rows, link.url) then LookingUp(p, link.url)
                                       else Publish(p, number, link, link.url)
    ensures Accepts(w.rows, w.tasks[t].id, w.tasks[t].link.url) <==> !UrlTaken(w.rows, w.tasks[t].link.url)
  {
    InsertingIsFresh(w, t);
  }

  lemma NotInTable(w: World, id: nat)
    requires RowsBound(w.rows, w.bound) && id in w.bound && !UrlTaken(w.rows, w.bound[id].url)
    ensures id !in w.rows
  {
  }

  lemma InsertSettles(w: World, t: TaskId, later: World, id: nat, found: Option<nat>)
    requires Inv(w) && t in w.tasks && w.tasks[t].Inserting? && id in w.bound
    requires var Inserting(p, number, link) := w.tasks[t];
             t in later.tasks && later.tasks[t] == Publish(p, number, link, link.url)
    ensures !WillAnswer(Apply(later, LookUp(t, found)), t, Base58.Encode(id))
  {
    InsertingIsFresh(w, t);
    assert Apply(later, LookUp(t, found)) == later;
    if Base58.Encode(w.tasks[t].id) == Base58.Encode(id) { EncodeIsInjective(w.tasks[t].id, id); }
  }

  lemma LookUpSettles(w: World, t: TaskId, id: nat, found: Option<nat>)
    requires UniqueUrls(w.rows) && RowsBound(w.rows, w.bound)
    requires t in w.tasks && w.tasks[t].LookingUp? && id in w.bound && w.bound[id].url == w.tasks[t].url
    requires FoundByUrl(w.rows, w.tasks[t].url, found)
    ensures WillAnswer(Apply(w, LookUp(t, found)), t, Base58.Encode(id)) <==> Visible(w.rows, id)
  {
    if id in w.rows { assert LinkOf(w.rows[id]) == w.bound[id]; }
    if found.Some? && Base58.Encode(found.value) == Base58.Encode(id) { EncodeIsInjective(found.value, id); }
  }
}
