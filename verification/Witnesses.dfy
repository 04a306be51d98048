/** Runs in which the service does not do what is promised. */
module Witnesses {
  import opened Wrappers
  import opened GoIntegers
  import opened Storage
  import opened CacheValue
  import opened LinkService
  import opened LinkInvariant
  import opened LinkTheorems
  import opened DeletedLinks
  import opened Retrieval
  import Base58
  import Cache
  import Allocator
  import Service

  lemma Then(w: World, es: seq<Event>, e: Event)
    ensures After(w, es + [e]) == Apply(After(w, es), e)
  {
    assert (es + [e])[..|es|] == es;
  }

  // ------------------------------------------------ the beginning of each run

  /** A node claims the numbers from 7 to 16. */
  const NUMBERS: seq<Event> :=
    [Allocate(Allocator.Join(0, 10, 7)), Allocate(Allocator.FindRow(0)), Allocate(Allocator.CreateRow(0))]
    + [Allocate(Allocator.ReadRow(0))] + [Allocate(Allocator.UpdateRow(0))]

  predicate Ready(a: Allocator.State, n: nat) {
    && a.clients.Keys == {0} && a.clients[0].phase.Offering?
    && a.clients[0].curr == n < 17 == a.clients[0].max
  }

  lemma Founded(configTtl: int)
    ensures var w := After(Init(configTtl), NUMBERS[..3]);
            && w == Init(configTtl).(alloc := w.alloc)
            && w.alloc.row == Some(Allocator.Row(7, 1)) && w.alloc.clients.Keys == {0}
            && w.alloc.clients[0] == Allocator.Client(10, 7, 0, 0, Allocator.Reading, false, [])
  {
    var w, es := Init(configTtl), NUMBERS[..3];
    assert es == [] + [NUMBERS[0]] + [NUMBERS[1]] + [NUMBERS[2]];
    Then(w, [], NUMBERS[0]);
    Then(w, [] + [NUMBERS[0]], NUMBERS[1]);
    Then(w, [] + [NUMBERS[0]] + [NUMBERS[1]], NUMBERS[2]);
  }

  lemma Numbers(configTtl: int)
    ensures var w := After(Init(configTtl), NUMBERS); w == Init(configTtl).(alloc := w.alloc) && Ready(w.alloc, 7)
  {
    Founded(configTtl);
    assert NUMBERS == NUMBERS[..3] + [NUMBERS[3]] + [NUMBERS[4]];
    Then(Init(configTtl), NUMBERS[..3], NUMBERS[3]);
    Then(Init(configTtl), NUMBERS[..3] + [NUMBERS[3]], NUMBERS[4]);
  }

  /** At some time a link is created, up to its publication. */
  function FirstLink(now: nat, url: Url, ttl: int64): seq<Event> {
    NUMBERS + [Tick(now)] + [BeginCreate(0, 0, 0, url, ttl)] + [Insert(0)]
  }

  function LinkAt(now: nat, url: Url, ttl: int64): Binding {
    Binding(url, ExpiryOf(now, ttl))
  }

  function RowsOf(link: Binding): Rows {
    map[7 := Row(link.url, link.expiresAt, false)]
  }

  lemma BeginsCreate(w: World, t: TaskId, url: Url, ttl: int64, n: nat)
    requires Ready(w.alloc, n) && n < 16 && t !in w.tasks
    ensures var w' := Apply(w, BeginCreate(t, 0, 0, url, ttl));
            && w' == w.(alloc := w'.alloc, tasks := w.tasks[t := Inserting(0, n, LinkAt(w.now, url, ttl))])
            && Ready(w'.alloc, n + 1)
  {
  }

  lemma AfterFirstLink(configTtl: int, now: nat, url: Url, ttl: int64)
    requires now < TWO_63
    ensures var w := After(Init(configTtl), FirstLink(now, url, ttl)); var link := LinkAt(now, url, ttl);
            && Ready(w.alloc, 8)
            && w == World(configTtl, now, w.alloc, RowsOf(link), map[7 := link], map[], map[],
                          map[0 := Publish(0, 7, link, url)])
  {
    var w, link := Init(configTtl), LinkAt(now, url, ttl);
    Numbers(configTtl);
    Then(w, NUMBERS, Tick(now));
    Then(w, NUMBERS + [Tick(now)], BeginCreate(0, 0, 0, url, ttl));
    Then(w, NUMBERS + [Tick(now)] + [BeginCreate(0, 0, 0, url, ttl)], Insert(0));
    var w1 := After(w, NUMBERS + [Tick(now)]);
    BeginsCreate(w1, 0, url, ttl, 7);
    var w2 := Apply(w1, BeginCreate(0, 0, 0, url, ttl));
    assert Apply(w2, Insert(0)) == DoInsert(w2, 0);
  }

  // ------------------------------------------------------- one URL, two codes

  /** A link that lives for 20 ns is not cached, and expires. */
  function ExpiredLink(url: Url): seq<Event> {
    FirstLink(0, url, 20) + [PutFails(0)] + [Tick(21)]
  }

  lemma AfterExpiredLink(configTtl: int, url: Url)
    requires configTtl >= Cache.MIN_TTL
    ensures AnswerOf(After(Init(configTtl), FirstLink(0, url, 20)), PutFails(0)) == Some(Created(url, Base58.Encode(7)))
    ensures var w := After(Init(configTtl), ExpiredLink(url)); var link := Binding(url, Some(20));
            && Ready(w.alloc, 8)
            && w == World(configTtl, 21, w.alloc, RowsOf(link), map[7 := link], map[], map[], map[])
  {
    var w, es := Init(configTtl), FirstLink(0, url, 20);
    AfterFirstLink(configTtl, 0, url, 20);
    Then(w, es, PutFails(0));
    Then(w, es + [PutFails(0)], Tick(21));
  }

  /** The expired link is reaped, and its URL created again. */
  function TwoLives(url: Url): seq<Event> {
    ExpiredLink(url) + [Reap({7}, 1)] + [BeginCreate(1, 0, 0, url, 20)] + [Insert(1)]
  }

  /** So the same URL does not always get the same code: a run in which it gets two. */
  lemma ReapedUrlGetsAnotherCode(configTtl: int, url: Url)
    requires configTtl >= Cache.MIN_TTL
    ensures AnswerOf(After(Init(configTtl), FirstLink(0, url, 20)), PutFails(0)) == Some(Created(url, Base58.Encode(7)))
    ensures FirstLink(0, url, 20) + [PutFails(0)] <= TwoLives(url)
    ensures AnswerOf(After(Init(configTtl), TwoLives(url)), PutFails(1)) == Some(Created(url, Base58.Encode(8)))
    ensures Base58.Encode(7) != Base58.Encode(8)
  {
    var w, es := Init(configTtl), ExpiredLink(url);
    AfterExpiredLink(configTtl, url);
    Base58.ValueOfEncode(7);
    Base58.ValueOfEncode(8);
    SecondLife(After(w, es), url);
    Then(w, es, Reap({7}, 1));
    Then(w, es + [Reap({7}, 1)], BeginCreate(1, 0, 0, url, 20));
    Then(w, es + [Reap({7}, 1)] + [BeginCreate(1, 0, 0, url, 20)], Insert(1));
  }

  lemma SecondLife(w: World, url: Url)
    requires Ready(w.alloc, 8) && w.rows == RowsOf(Binding(url, Some(20))) && w.now == 21 && w.tasks == map[]
    requires w.configTtl >= Cache.MIN_TTL
    ensures var w3 := Apply(Apply(Apply(w, Reap({7}, 1)), BeginCreate(1, 0, 0, url, 20)), Insert(1));
            AnswerOf(w3, PutFails(1)) == Some(Created(url, Base58.Encode(8)))
  {
    var w1 := Apply(w, Reap({7}, 1));
    assert Expired(w.rows, 21) == {7};
    assert w1 == w.(rows := map[]);
    BeginsCreate(w1, 1, url, 20, 8);
    InsertsAlone(Apply(w1, BeginCreate(1, 0, 0, url, 20)), url);
  }

  lemma InsertsAlone(w: World, url: Url)
    requires w.rows == map[] && w.now == 21 && w.configTtl >= Cache.MIN_TTL
    requires w.tasks == map[1 := Inserting(0, 8, LinkAt(21, url, 20))]
    ensures AnswerOf(Apply(w, Insert(1)), PutFails(1)) == Some(Created(url, Base58.Encode(8)))
  {
    assert Apply(w, Insert(1)) == DoInsert(w, 1);
    assert DoInsert(w, 1).tasks == map[1 := Publish(0, 8, Binding(url, Some(41)), url)];
  }

  // ---------------------------------------------------------- a Create that panics

  /** A call holds a link that has too little time left to be cached. */
  predicate AboutToPanic(w: World, t: TaskId) {
    t in w.tasks && w.tasks[t].PuttingShared? && TtlOf(w, w.tasks[t].link) < Cache.MIN_TTL
  }

  /** Such a call can only be abandoned: it settles no answer, and publishes nothing. */
  lemma PanicIsCertain(w: World, t: TaskId, e: Event)
    requires AboutToPanic(w, t) && CallOf(e) == Some(t) && Enabled(w, e)
    ensures e == Abandon(t)
  {
  }

  /** The expired link is not reaped, and its URL created again. */
  function ExpiredTwin(url: Url): seq<Event> {
    ExpiredLink(url) + [BeginCreate(1, 0, 0, url, 20)] + [Insert(1)] + [LookUp(1, Some(7))]
  }

  /** A run in which a Create panics; it is in the class of tables that `TooLate` describes. */
  lemma ExpiredDuplicatePanics(configTtl: int, url: Url)
    requires configTtl >= Cache.MIN_TTL
    ensures AboutToPanic(After(Init(configTtl), ExpiredTwin(url)), 1)
    ensures var w := After(Init(configTtl), ExpiredLink(url));
            Service.TooLate(w.rows, configTtl, w.now, url, ExpiryOf(w.now, 20))
  {
    var w, es := Init(configTtl), ExpiredLink(url);
    AfterExpiredLink(configTtl, url);
    var w0 := After(w, es);
    assert Service.Recorded(w0.rows, url, 7) && w0.rows[7].url == url;
    Then(w, es, BeginCreate(1, 0, 0, url, 20));
    Then(w, es + [BeginCreate(1, 0, 0, url, 20)], Insert(1));
    Then(w, es + [BeginCreate(1, 0, 0, url, 20)] + [Insert(1)], LookUp(1, Some(7)));
    BeginsCreate(w0, 1, url, 20, 8);
    FindsTheExpired(Apply(w0, BeginCreate(1, 0, 0, url, 20)), url);
  }

  lemma FindsTheExpired(w: World, url: Url)
    requires w.rows == RowsOf(Binding(url, Some(20))) && w.now == 21
    requires w.tasks == map[1 := Inserting(0, 8, LinkAt(21, url, 20))]
    ensures AboutToPanic(Apply(Apply(w, Insert(1)), LookUp(1, Some(7))), 1)
  {
    var w1 := Apply(w, Insert(1));
    assert w.rows[7].url == url;
    assert w1 == DoInsert(w, 1) && w1 == w.(tasks := map[1 := LookingUp(0, url)]);
    assert Apply(w1, LookUp(1, Some(7))) == DoLookUp(w1, 1, Some(7));
  }

  /** A Retrieve panics too, 5 ns before the link expires. */
  lemma LateRetrievePanics(configTtl: int, url: Url)
    requires configTtl >= Cache.MIN_TTL
    ensures var w := After(Init(configTtl), FirstLink(0, url, 20) + [PutFails(0)] + [Tick(15)]); var code := Base58.Encode(7);
            var cached := Cache.GetResult(w.shared, LocalOf(w, Service.QUERY), w.now, code, true);
            Service.RetrieveReply(w.rows, configTtl, w.now, code, cached) == Service.Panicked
  {
    var w, es := Init(configTtl), FirstLink(0, url, 20);
    AfterFirstLink(configTtl, 0, url, 20);
    Then(w, es, PutFails(0));
    Then(w, es + [PutFails(0)], Tick(15));
    Seven();
  }

  lemma Seven()
    ensures IdOf(Base58.Encode(7)) == Some(7)
  {
    IdOfEncode(7);
    Base58.PowersOf58();
  }

  // ------------------------------------------------------ links in the caches

  /** A link is created and published. */
  function Published(now: nat, url: Url, ttl: int64): seq<Event> {
    FirstLink(now, url, ttl) + [PutShared(0, 0)] + [PutLocal(0)]
  }

  lemma AfterPublished(configTtl: int, now: nat, url: Url, ttl: int64)
    requires now < TWO_63 && configTtl >= Cache.MIN_TTL && (ttl > 0 ==> ttl >= Cache.MIN_TTL)
    ensures var w := After(Init(configTtl), Published(now, url, ttl)); var link := LinkAt(now, url, ttl); var code := Base58.Encode(7);
            && w == World(configTtl, now, w.alloc, RowsOf(link), map[7 := link], w.shared,
                          map[0 := map[code := ValueOf(link)]], map[])
            && w.shared.Keys == {code} && w.shared[code].value == ValueOf(link) && now < w.shared[code].until
  {
    var w, es, link := Init(configTtl), FirstLink(now, url, ttl), LinkAt(now, url, ttl);
    AfterFirstLink(configTtl, now, url, ttl);
    Then(w, es, PutShared(0, 0));
    Then(w, es + [PutShared(0, 0)], PutLocal(0));
    var w0 := After(w, es);
    assert Apply(w0, PutShared(0, 0)) == DoPutShared(w0, 0, 0);
    var w1 := DoPutShared(w0, 0, 0);
    assert Apply(w1, PutLocal(0)) == DoPutLocal(w1, 0);
  }

  // ----------------------------------------------------- a deleted link resolves

  /** The other side retrieves the link, and then this side deletes it. */
  function DeletedHere(url: Url): seq<Event> {
    var code := Base58.Encode(7);
    Published(0, url, 0) + [BeginRetrieve(1, 1, code)] + [Judge(1)]
    + [BeginDelete(2, 0, code)] + [DropShared(2)] + [DropLocal(2)]
  }

  /** The deletion is over, and the other side still resolves the link. */
  lemma DeletedLinkResolves(configTtl: int, url: Url)
    requires configTtl >= Cache.MIN_TTL
    ensures var w := After(Init(configTtl), DeletedHere(url)); var code := Base58.Encode(7);
            && w.tasks == map[] && 7 in w.rows && w.rows[7].deleted
            && code !in w.shared && code !in LocalOf(w, 0)
            && AnswerNow(w, 3, 1, code) == Some(Resolved(code, url))
  {
    var w, code := Init(configTtl), Base58.Encode(7);
    Seven();
    RetrievedElsewhere(configTtl, url);
    var es := Published(0, url, 0) + [BeginRetrieve(1, 1, code)] + [Judge(1)];
    Then(w, es, BeginDelete(2, 0, code));
    Then(w, es + [BeginDelete(2, 0, code)], DropShared(2));
    Then(w, es + [BeginDelete(2, 0, code)] + [DropShared(2)], DropLocal(2));
    DeletesHere(After(w, es), code);
    Reachable(configTtl, DeletedHere(url));
    DeletedStillResolves(After(w, DeletedHere(url)), 3, 1, code);
  }

  lemma RetrievedElsewhere(configTtl: int, url: Url)
    requires configTtl >= Cache.MIN_TTL
    ensures var code := Base58.Encode(7);
            var w := After(Init(configTtl), Published(0, url, 0) + [BeginRetrieve(1, 1, code)] + [Judge(1)]);
            && w.tasks == map[] && w.rows == RowsOf(Binding(url, None)) && code in w.shared && code in LocalOf(w, 0) && code in LocalOf(w, 1)
  {
    var w, es, code := Init(configTtl), Published(0, url, 0), Base58.Encode(7);
    Seven();
    AfterPublished(configTtl, 0, url, 0);
    Then(w, es, BeginRetrieve(1, 1, code));
    Then(w, es + [BeginRetrieve(1, 1, code)], Judge(1));
    RetrievesAndResolves(After(w, es), code, Binding(url, None));
  }

  lemma RetrievesAndResolves(w: World, code: Key, link: Binding)
    requires IdOf(code).Some? && w.tasks == map[] && 1 !in w.locals && link.expiresAt.None?
    requires code in w.shared && w.now < w.shared[code].until && w.shared[code].value == ValueOf(link)
    ensures var w' := Apply(Apply(w, BeginRetrieve(1, 1, code)), Judge(1));
            w' == w.(locals := w.locals[1 := map[code := ValueOf(link)]])
  {
    VerdictOnLink(link, w.now);
    var w1 := Apply(w, BeginRetrieve(1, 1, code));
    assert w1 == DoBeginRetrieve(w, 1, 1, code);
    assert w1.tasks == map[1 := Judging(1, code, ValueOf(link))];
    assert Apply(w1, Judge(1)) == DoJudge(w1, 1);
  }

  lemma DeletesHere(w: World, code: Key)
    requires IdOf(code) == Some(7) && w.tasks == map[] && Visible(w.rows, 7)
    ensures var w' := Apply(Apply(Apply(w, BeginDelete(2, 0, code)), DropShared(2)), DropLocal(2));
            && w'.rows == SoftDeleted(w.rows, 7) && w'.tasks == map[] && w'.shared == w.shared - {code}
            && w'.locals == w.locals[0 := LocalOf(w, 0) - {code}] && w'.now == w.now
  {
    var w1 := Apply(w, BeginDelete(2, 0, code));
    assert w1 == DoBeginDelete(w, 2, 0, code) && w1.tasks == map[2 := DroppingShared(0, code)];
    DropsHere(w1, code);
  }

  lemma DropsHere(w: World, code: Key)
    requires w.tasks == map[2 := DroppingShared(0, code)]
    ensures Apply(Apply(w, DropShared(2)), DropLocal(2))
            == w.(shared := w.shared - {code}, locals := w.locals[0 := LocalOf(w, 0) - {code}], tasks := map[])
  {
    var w2 := Apply(w, DropShared(2));
    assert w2 == DoDropShared(w, 2) && w2.tasks == map[2 := DroppingLocal(0, code)];
    assert Apply(w2, DropLocal(2)) == DoDropLocal(w2, 2);
  }

  // ------------------------------------------- an expired link comes back to life

  function Outlived(url: Url): seq<Event> {
    Published(IN_2024, url, LONG) + [BeginRetrieve(1, 0, Base58.Encode(7))]
  }

  function Revived(url: Url): seq<Event> {
    var code := Base58.Encode(7);
    Outlived(url) + [Judge(1)] + [EvictShared(code)] + [EvictLocal(0, code)] + [BeginRetrieve(2, 0, code)] + [ReadRow(2)]
  }

  /** A link of 250 years is answered as expired from the cache, and resolves once it is evicted. */
  lemma LongLifeComesBack(configTtl: int, url: Url)
    requires configTtl >= Cache.MIN_TTL
    ensures AnswerOf(After(Init(configTtl), Outlived(url)), Judge(1)) == Some(Gone(Base58.Encode(7)))
    ensures AnswerOf(After(Init(configTtl), Revived(url)), Check(2)) == Some(Resolved(Base58.Encode(7), url))
    ensures Outlived(url) + [Judge(1)] <= Revived(url)
  {
    var w, code, es := Init(configTtl), Base58.Encode(7), Outlived(url);
    Seven();
    AfterPublished(configTtl, IN_2024, url, LONG);
    Then(w, Published(IN_2024, url, LONG), BeginRetrieve(1, 0, code));
    Then(w, es, Judge(1));
    Then(w, es + [Judge(1)], EvictShared(code));
    Then(w, es + [Judge(1)] + [EvictShared(code)], EvictLocal(0, code));
    Then(w, es + [Judge(1)] + [EvictShared(code)] + [EvictLocal(0, code)], BeginRetrieve(2, 0, code));
    Then(w, es + [Judge(1)] + [EvictShared(code)] + [EvictLocal(0, code)] + [BeginRetrieve(2, 0, code)], ReadRow(2));
    var w0 := After(w, Published(IN_2024, url, LONG));
    LooksExpired(w0, code, url);
    ReadsAgain(Apply(Apply(w0, BeginRetrieve(1, 0, code)), Judge(1)), code, url);
  }

  lemma LooksExpired(w: World, code: Key, url: Url)
    requires IdOf(code).Some? && w.tasks == map[] && w.now == IN_2024
    requires 0 in w.locals && code in w.locals[0] && w.locals[0][code] == ValueOf(LinkAt(IN_2024, url, LONG))
    ensures var w1 := Apply(w, BeginRetrieve(1, 0, code));
            && AnswerOf(w1, Judge(1)) == Some(Gone(code))
            && Apply(w1, Judge(1)) == w
  {
    LongLifeLooksExpired(url);
    var w1 := Apply(w, BeginRetrieve(1, 0, code));
    assert w1 == DoBeginRetrieve(w, 1, 0, code);
    assert w1.tasks == map[1 := Judging(0, code, w.locals[0][code])];
    AnswerAtJudge(w1, 1);
    assert Apply(w1, Judge(1)) == DoJudge(w1, 1);
    assert w.locals[0 := w.locals[0]] == w.locals;
  }

  lemma ReadsAgain(w: World, code: Key, url: Url)
    requires IdOf(code) == Some(7) && w.tasks == map[] && w.now == IN_2024 && w.rows == RowsOf(LinkAt(IN_2024, url, LONG))
    ensures var w' := Apply(Apply(Apply(Apply(w, EvictShared(code)), EvictLocal(0, code)), BeginRetrieve(2, 0, code)), ReadRow(2));
            AnswerOf(w', Check(2)) == Some(Resolved(code, url))
  {
    var w2 := Apply(Apply(w, EvictShared(code)), EvictLocal(0, code));
    Evicted(w, code);
    var w3 := Apply(w2, BeginRetrieve(2, 0, code));
    assert w3 == DoBeginRetrieve(w2, 2, 0, code) && w3.tasks[2] == Reading(0, code);
    ReadsAndChecks(w3, code, url);
  }

  lemma Evicted(w: World, code: Key)
    ensures var w2 := Apply(Apply(w, EvictShared(code)), EvictLocal(0, code));
            && w2.rows == w.rows && w2.now == w.now && w2.tasks == w.tasks
            && Cache.ProxyGet(w2.shared, LocalOf(w2, 0), w2.now, code).None?
  {
  }

  lemma ReadsAndChecks(w: World, code: Key, url: Url)
    requires 2 in w.tasks && w.tasks[2] == Reading(0, code) && IdOf(code) == Some(7)
    requires w.now == IN_2024 && w.rows == RowsOf(LinkAt(IN_2024, url, LONG))
    ensures AnswerOf(Apply(w, ReadRow(2)), Check(2)) == Some(Resolved(code, url))
  {
    var w' := Apply(w, ReadRow(2));
    assert w' == DoReadRow(w, 2) && w'.tasks[2] == Checking(0, code, 7, LinkAt(IN_2024, url, LONG));
  }
}
