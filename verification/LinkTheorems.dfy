/** What every run of the short-link service guarantees. */
module LinkTheorems {
  import opened Wrappers
  import opened GoIntegers
  import opened Storage
  import opened CacheValue
  import opened LinkService
  import opened LinkInvariant
  import Base58

  /** The answer is a Retrieve's, for a key that decodes. */
  predicate Retrieved(a: Answer) {
    a.Resolved? || a.Gone? || a.Missing?
  }

  /** The URL an answer resolves to; "expired" and "not found" are both unresolvable. */
  function Outcome(a: Answer): Option<Url>
    requires Retrieved(a)
  {
    if a.Resolved? then Some(a.url) else None
  }

  /** What a look in the table answers now. */
  function TableAnswer(rows: Rows, id: nat, now: Time): Option<Url> {
    if Visible(rows, id) && !IsExpired(rows[id].expiresAt, now) then Some(rows[id].url) else None
  }

  /**
   * A result is what the table says; for a soft-deleted row it may also be that row's own,
   * still unexpired URL.
   */
  predicate Refines(rows: Rows, id: nat, now: Time, result: Option<Url>) {
    || result == TableAnswer(rows, id, now)
    || (id in rows && rows[id].deleted && !IsExpired(rows[id].expiresAt, now) && result == Some(rows[id].url))
  }

  // ------------------------------------------------------------ cached values

  lemma VerdictOnLink(link: Binding, now: Time)
    ensures VerdictOn(ValueOf(link), now)
         == if IsExpired(Stored(link.expiresAt), now) then Dead else Live(link.url)
  {
    DecodeOfEncode(link.url, link.expiresAt);
  }

  /** A cached value is never judged live after its link's true expiry, representable or not. */
  lemma LiveVerdictIsTrue(link: Binding, now: nat)
    requires ExpiryOk(link.expiresAt) && now < TWO_63
    ensures VerdictOn(ValueOf(link), now).Live? ==> !IsExpired(link.expiresAt, now)
  {
    VerdictOnLink(link, now);
  }

  /** The verdict on a cached value is the table's exactly when eight bytes can hold the expiry. */
  lemma VerdictIsExact(link: Binding, now: nat)
    requires ExpiryOk(link.expiresAt) && now < TWO_63
    ensures VerdictOn(ValueOf(link), now) == (if IsExpired(link.expiresAt, now) then Dead else Live(link.url))
            <==> Representable(link.expiresAt)
  {
    VerdictOnLink(link, now);
  }

  /** The start of 2024, and 250 years. */
  const IN_2024: nat := 1_704_067_200_000_000_000
  const LONG: int64 := 7_884_000_000_000_000_000

  /** A link created in 2024 to live for 250 years is judged expired as soon as it is cached. */
  lemma LongLifeLooksExpired(url: Url)
    ensures var link := Binding(url, ExpiryOf(IN_2024, LONG));
            !IsExpired(link.expiresAt, IN_2024) && VerdictOn(ValueOf(link), IN_2024) == Dead
  {
    VerdictOnLink(Binding(url, ExpiryOf(IN_2024, LONG)), IN_2024);
    LongWraps();
  }

  lemma LongWraps()
    ensures Wrap(IN_2024 + LONG) == IN_2024 + LONG - TWO_64 < 0
  {
  }

  // ---------------------------------------------------------------- theorems

  /** Write-once bindings: in every layer a decodable key holds the link its ID was first inserted with. */
  lemma CachesHoldFirstLinks(configTtl: int, es: seq<Event>, more: seq<Event>, k: Key, p: ProxyId)
    requires IdOf(k).Some?
    ensures var w, later := After(Init(configTtl), es), After(Init(configTtl), es + more); var id := IdOf(k).value;
            && Extends(w.bound, later.bound)
            && (k in later.shared ==>
                  id in later.bound && DecodeValue(later.shared[k].value)
                                       == Some((later.bound[id].url, Stored(later.bound[id].expiresAt))))
            && (p in later.locals && k in later.locals[p] ==>
                  id in later.bound && DecodeValue(later.locals[p][k])
                                       == Some((later.bound[id].url, Stored(later.bound[id].expiresAt))))
  {
    var w, later := After(Init(configTtl), es), After(Init(configTtl), es + more);
    var id := IdOf(k).value;
    Reachable(configTtl, es);
    Reachable(configTtl, es + more);
    LinkInvariant.AfterConcat(Init(configTtl), es, more);
    BindingsStayForever(w, more);
    if id in later.bound { DecodeOfEncode(later.bound[id].url, later.bound[id].expiresAt); }
  }

  lemma RowOfLiveLink(w: World, id: nat)
    requires Inv(w) && id in w.bound && !IsExpired(w.bound[id].expiresAt, w.now)
    ensures id in w.rows && LinkOf(w.rows[id]) == w.bound[id]
  {
    assert BindingOk(w, id);
  }

  /** What is behind each kind of answer of a Retrieve. */
  lemma AnswerFromBinding(w: World, e: Event, a: Answer)
    requires Inv(w) && AnswerOf(w, e) == Some(a) && Retrieved(a)
    ensures IdOf(a.key).Some?
    ensures var id := IdOf(a.key).value;
            && (a.Missing? ==> !Visible(w.rows, id))
            && (!a.Missing? ==> id in w.bound)
            && (a.Resolved? ==> a.url == w.bound[id].url && !IsExpired(w.bound[id].expiresAt, w.now))
            && (a.Gone? && (Representable(w.bound[id].expiresAt) || e.Check?) ==> IsExpired(w.bound[id].expiresAt, w.now))
  {
    var task := w.tasks[e.t];
    assert TaskOk(w, task);
    if e.Judge? || e.Check? {
      var link := w.bound[IdOf(task.key).value];
      assert BindingOk(w, IdOf(task.key).value);
      VerdictOnLink(link, w.now);
      LiveVerdictIsTrue(link, w.now);
      VerdictIsExact(link, w.now);
    }
  }

  /**
   * Retrieve never returns another link's URL, and never one at or after its expiry, in any
   * run: whatever was deleted, reaped, created again or left in a cache.
   */
  lemma ResolvesOwnLiveLinkOnly(configTtl: int, es: seq<Event>, e: Event, key: Key, url: Url)
    requires AnswerOf(After(Init(configTtl), es), e) == Some(Resolved(key, url))
    ensures var w := After(Init(configTtl), es);
            && IdOf(key).Some? && IdOf(key).value in w.bound
            && w.bound[IdOf(key).value].url == url
            && !IsExpired(w.bound[IdOf(key).value].expiresAt, w.now)
  {
    Reachable(configTtl, es);
    AnswerFromBinding(After(Init(configTtl), es), e, Resolved(key, url));
  }

  /**
   * Cache refinement: an answer of Retrieve is what the table says at that moment; if the
   * row is soft-deleted, it may also be that row's own, still unexpired URL.
   */
  lemma CacheRefinement(configTtl: int, es: seq<Event>, e: Event, a: Answer)
    requires AnswerOf(After(Init(configTtl), es), e) == Some(a) && Retrieved(a)
    requires var w := After(Init(configTtl), es);
             IdOf(a.key).Some? && IdOf(a.key).value in w.bound ==> Representable(w.bound[IdOf(a.key).value].expiresAt)
    ensures IdOf(a.key).Some?
    ensures var w := After(Init(configTtl), es); Refines(w.rows, IdOf(a.key).value, w.now, Outcome(a))
  {
    var w := After(Init(configTtl), es);
    Reachable(configTtl, es);
    RefinesTable(w, e, a);
  }

  lemma RefinesTable(w: World, e: Event, a: Answer)
    requires Inv(w) && AnswerOf(w, e) == Some(a) && Retrieved(a)
    requires IdOf(a.key).Some? && IdOf(a.key).value in w.bound ==> Representable(w.bound[IdOf(a.key).value].expiresAt)
    ensures IdOf(a.key).Some?
    ensures Refines(w.rows, IdOf(a.key).value, w.now, Outcome(a))
  {
    AnswerFromBinding(w, e, a);
    var id := IdOf(a.key).value;
    if a.Resolved? {
      RowOfLiveLink(w, id);
    } else if a.Gone? && id in w.rows {
      assert LinkOf(w.rows[id]) == w.bound[id];
    }
  }

  lemma JudgeMatchesTable(w: World, t: TaskId, id: nat)
    requires Inv(w) && t in w.tasks && w.tasks[t].Judging? && IdOf(w.tasks[t].key) == Some(id) && Visible(w.rows, id)
    ensures var a := AnswerOf(w, Judge(t));
            && a.Some? && Retrieved(a.value)
            && (Outcome(a.value) == TableAnswer(w.rows, id, w.now) <==> Representable(w.rows[id].expiresAt))
  {
    var link := w.bound[id];
    assert TaskOk(w, w.tasks[t]) && BindingOk(w, id) && LinkOf(w.rows[id]) == link;
    assert w.tasks[t].value == ValueOf(link);
    VerdictOnLink(link, w.now);
    VerdictIsExact(link, w.now);
    AnswerAtJudge(w, t);
  }

  lemma AnswerAtJudge(w: World, t: TaskId)
    requires t in w.tasks && w.tasks[t].Judging?
    ensures var Judging(_, key, value) := w.tasks[t]; var v := VerdictOn(value, w.now);
            && (v.Live? ==> AnswerOf(w, Judge(t)) == Some(Resolved(key, v.url)))
            && (v.Dead? ==> AnswerOf(w, Judge(t)) == Some(Gone(key)))
  {
  }

  /** For a link in the table, a cached answer is the table's exactly when eight bytes can hold the expiry. */
  lemma CachedAnswerIsExact(configTtl: int, es: seq<Event>, t: TaskId, id: nat)
    requires var w := After(Init(configTtl), es);
             t in w.tasks && w.tasks[t].Judging? && IdOf(w.tasks[t].key) == Some(id) && Visible(w.rows, id)
    ensures var w := After(Init(configTtl), es); var a := AnswerOf(w, Judge(t));
            && a.Some? && Retrieved(a.value)
            && (Outcome(a.value) == TableAnswer(w.rows, id, w.now) <==> Representable(w.rows[id].expiresAt))
  {
    Reachable(configTtl, es);
    JudgeMatchesTable(After(Init(configTtl), es), t, id);
  }

  /**
   * Expiry is final: once a code is answered as expired, from the table or from a cached
   * expiry that eight bytes can hold, no later Retrieve of its ID resolves.
   */
  lemma ExpiryIsFinal(configTtl: int, es: seq<Event>, e: Event, key: Key, more: seq<Event>, e': Event, a: Answer)
    requires AnswerOf(After(Init(configTtl), es), e) == Some(Gone(key))
    requires AnswerOf(After(Init(configTtl), es + more), e') == Some(a) && Retrieved(a) && IdOf(a.key) == IdOf(key)
    requires var w := After(Init(configTtl), es);
             e.Check? || (IdOf(key).Some? && IdOf(key).value in w.bound ==> Representable(w.bound[IdOf(key).value].expiresAt))
    ensures !a.Resolved?
  {
    var w, later := After(Init(configTtl), es), After(Init(configTtl), es + more);
    Reachable(configTtl, es);
    Reachable(configTtl, es + more);
    LinkInvariant.AfterConcat(Init(configTtl), es, more);
    BindingsStayForever(w, more);
    AnswerFromBinding(w, e, Gone(key));
    AnswerFromBinding(later, e', a);
  }

  // ------------------------------------------------------------------ Create

  /** A duplicate key on insertion means that the URL is in the table, live or soft-deleted, and nothing else. */
  lemma DuplicateMeansUrlTaken(configTtl: int, es: seq<Event>, t: TaskId)
    requires var w := After(Init(configTtl), es); t in w.tasks && w.tasks[t].Inserting?
    ensures var w := After(Init(configTtl), es); var task := w.tasks[t];
            && task.id !in w.rows
            && (Accepts(w.rows, task.id, task.link.url) <==> !UrlTaken(w.rows, task.link.url))
  {
    Reachable(configTtl, es);
    InsertingIsFresh(After(Init(configTtl), es), t);
  }

  lemma CreatedBinding(w: World, e: Event, url: Url, code: Key)
    requires Inv(w) && AnswerOf(w, e) == Some(Created(url, code))
    ensures exists id :: id in w.bound && w.bound[id].url == url && code == Base58.Encode(id)
  {
    var task := w.tasks[e.t];
    assert TaskOk(w, task);
    assert task.reply.value.id in w.bound;
  }

  /** Every row a URL was ever given is still in the table and not deleted. */
  predicate NeverTakenAway(w: World, url: Url) {
    forall id | id in w.bound && w.bound[id].url == url :: Visible(w.rows, id)
  }

  /** Idempotence: as long as no row of a URL is deleted or reaped, all Creates of it answer the same code. */
  lemma CreateIsIdempotent(configTtl: int, es: seq<Event>, e: Event, more: seq<Event>, e': Event, url: Url, code: Key, code': Key)
    requires AnswerOf(After(Init(configTtl), es), e) == Some(Created(url, code))
    requires AnswerOf(After(Init(configTtl), es + more), e') == Some(Created(url, code'))
    requires NeverTakenAway(After(Init(configTtl), es + more), url)
    ensures code == code'
  {
    var w, later := After(Init(configTtl), es), After(Init(configTtl), es + more);
    Reachable(configTtl, es);
    Reachable(configTtl, es + more);
    LinkInvariant.AfterConcat(Init(configTtl), es, more);
    BindingsStayForever(w, more);
    CreatedBinding(w, e, url, code);
    CreatedBinding(later, e', url, code');
    var i :| i in w.bound && w.bound[i].url == url && code == Base58.Encode(i);
    var j :| j in later.bound && later.bound[j].url == url && code' == Base58.Encode(j);
    assert later.rows[i].url == later.rows[j].url by {
      assert LinkOf(later.rows[i]) == later.bound[i] && LinkOf(later.rows[j]) == later.bound[j];
    }
  }

  /**
   * An answer about an ID is its own URL or none; and if its row is not deleted and eight
   * bytes can hold its expiry, the URL exactly while it is live.
   */
  predicate Faithful(w: World, a: Answer, id: nat, url: Url) {
    && Retrieved(a)
    && IdOf(a.key) == Some(id) && id in w.bound && w.bound[id].url == url
    && (a.Resolved? ==> a.url == url && !IsExpired(w.bound[id].expiresAt, w.now))
    && (Representable(w.bound[id].expiresAt) && !(id in w.rows && w.rows[id].deleted) ==>
          (a.Resolved? <==> !IsExpired(w.bound[id].expiresAt, w.now)))
  }

  lemma InvalidMeansUndecodable(w: World, e: Event, a: Answer)
    requires AnswerOf(w, e) == Some(a) && a.Invalid?
    ensures IdOf(a.key).None?
  {
  }

  lemma AnswerForCode(w: World, e: Event, a: Answer, id: nat, url: Url)
    requires Inv(w) && AnswerOf(w, e) == Some(a) && (Retrieved(a) || a.Invalid?)
    requires id in w.bound && w.bound[id].url == url && a.key == Base58.Encode(id)
    ensures if |a.key| > 8 then a.Invalid? else Faithful(w, a, id, url)
  {
    Base58.DecodeOfEncode(id);
    if a.Invalid? {
      InvalidMeansUndecodable(w, e, a);
    } else {
      AnswerFromBinding(w, e, a);
      if !IsExpired(w.bound[id].expiresAt, w.now) { RowOfLiveLink(w, id); }
    }
  }

  /**
   * End to end: a code that Create answered resolves, at any later time and through any
   * caches, to its own URL only, and while it is live; if it is not deleted and eight bytes
   * can hold its expiry, exactly while it is live.  A code of more than eight characters is answered as invalid.
   */
  lemma CreatedCodesResolve(configTtl: int, es: seq<Event>, e: Event, url: Url, code: Key,
                            more: seq<Event>, e': Event, a: Answer)
    requires AnswerOf(After(Init(configTtl), es), e) == Some(Created(url, code))
    requires AnswerOf(After(Init(configTtl), es + more), e') == Some(a)
    requires (Retrieved(a) || a.Invalid?) && a.key == code
    ensures |code| > 8 ==> a.Invalid?
    ensures |code| <= 8 ==> exists id :: Faithful(After(Init(configTtl), es + more), a, id, url)
  {
    var w, later := After(Init(configTtl), es), After(Init(configTtl), es + more);
    Reachable(configTtl, es);
    Reachable(configTtl, es + more);
    LinkInvariant.AfterConcat(Init(configTtl), es, more);
    BindingsStayForever(w, more);
    CreatedBinding(w, e, url, code);
    var id :| id in w.bound && w.bound[id].url == url && code == Base58.Encode(id);
    AnswerForCode(later, e', a, id, url);
  }

  /** A URL with a soft-deleted row cannot be created: the insertion is refused and the lookup finds nothing. */
  lemma SoftDeletedUrlIsBlocked(w: World, t: TaskId, id: nat, found: Option<nat>)
    requires Inv(w) && t in w.tasks && w.tasks[t].Inserting?
    requires id in w.rows && w.rows[id].deleted && w.rows[id].url == w.tasks[t].link.url
    ensures Apply(w, Insert(t)) == w.(tasks := w.tasks[t := LookingUp(w.tasks[t].p, w.rows[id].url)])
    ensures FoundByUrl(w.rows, w.rows[id].url, found) ==> found.None?
  {
  }

  /** The soft-deleted row of a link without expiry stays for ever. */
  lemma {:induction false} SoftDeletionStays(w: World, es: seq<Event>, id: nat)
    requires Inv(w) && id in w.rows && w.rows[id].deleted && w.rows[id].expiresAt.None?
    ensures var w' := After(w, es); id in w'.rows && w'.rows[id] == w.rows[id]
  {
    if es != [] {
      SoftDeletionStays(w, es[..|es| - 1], id);
      DeletedRowKept(After(w, es[..|es| - 1]), es[|es| - 1], id);
    }
  }

  lemma DeletedRowKept(w: World, e: Event, id: nat)
    requires id in w.rows && w.rows[id].deleted && w.rows[id].expiresAt.None?
    ensures var w' := Apply(w, e); id in w'.rows && w'.rows[id] == w.rows[id]
  {
  }
}
