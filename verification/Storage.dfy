/** The table of links: `pkg/storage/storage.go`. */
module Storage {
  import opened Wrappers
  import opened GoIntegers

  type Url = seq<byte>

  /** Nanoseconds since 1970. */
  type Time = int

  /** A row; soft deletion marks it and leaves it in both unique indexes. */
  datatype Row = Row(url: Url, expiresAt: Option<Time>, deleted: bool)

  /** Rows by short ID, which the first unique index makes a key. */
  type Rows = map<nat, Row>

  datatype Error = NotFound | DuplicatedKey

  /** The second unique index. */
  ghost predicate UniqueUrls(rows: Rows) {
    forall a, b | a in rows && b in rows && rows[a].url == rows[b].url :: a == b
  }

  predicate UrlTaken(rows: Rows, url: Url) {
    exists id | id in rows :: rows[id].url == url
  }

  predicate Accepts(rows: Rows, short: nat, url: Url) {
    short !in rows && !UrlTaken(rows, url)
  }

  /** What queries see: rows that are not soft-deleted. */
  predicate Visible(rows: Rows, short: nat) {
    short in rows && !rows[short].deleted
  }

  /** The scoped lookup by URL may answer `found`. */
  predicate FoundByUrl(rows: Rows, url: Url, found: Option<nat>) {
    match found
    case Some(id) => Visible(rows, id) && rows[id].url == url
    case None => forall id | id in rows :: rows[id].deleted || rows[id].url != url
  }

  function SoftDeleted(rows: Rows, short: nat): Rows
    requires short in rows
  {
    rows[short := rows[short].(deleted := true)]
  }

  /** The rows a reaping pass may remove, soft-deleted ones included. */
  function Expired(rows: Rows, now: Time): set<nat> {
    set id | id in rows && rows[id].expiresAt.Some? && rows[id].expiresAt.value < now
  }

  /** One reaping pass: as many expired rows as the limit allows, and nothing else. */
  predicate Reaps(rows: Rows, victims: set<nat>, now: Time, limit: nat) {
    victims <= Expired(rows, now) && |victims| == Min(limit, |Expired(rows, now)|)
  }

  predicate IsExpired(expiresAt: Option<Time>, now: Time) {
    expiresAt.Some? && !(expiresAt.value > now)
  }

  /** A link is expired from the very time of its expiry on; one without expiry never is. */
  lemma ExpiredFromExpiryOn(expiresAt: Option<Time>, now: Time)
    ensures IsExpired(expiresAt, now) <==> exists t :: expiresAt == Some(t) && t <= now
  {
    if IsExpired(expiresAt, now) { assert expiresAt == Some(expiresAt.value) && expiresAt.value <= now; }
  }

  /** A row is past its expiry, soft-deleted or not. */
  predicate Past(rows: Rows, id: nat, now: Time) {
    id in rows && rows[id].expiresAt.Some? && rows[id].expiresAt.value < now
  }

  /**
   * A pass takes rows past their expiry only, at most as many as the limit says; and if it
   * takes fewer it leaves none, soft-deleted ones included.
   */
  lemma ReapsExactly(rows: Rows, victims: set<nat>, now: Time, limit: nat)
    ensures Reaps(rows, victims, now, limit)
            <==> && (forall id | id in victims :: Past(rows, id, now))
                 && |victims| <= limit
                 && (|victims| < limit ==> forall id: nat | Past(rows, id, now) :: id in victims)
  {
    var all := Expired(rows, now);
    assert forall id: nat :: id in all <==> Past(rows, id, now);
    if victims <= all {
      assert |all - victims| == |all| - |victims|;
      if |victims| == |all| { assert all - victims == {}; }
      if forall id: nat | Past(rows, id, now) :: id in victims { assert victims == all; }
    }
  }

  /** A reaped row was expired at the time of the pass, and is expired at every later time. */
  lemma ReapingIsSafe(rows: Rows, victims: set<nat>, now: Time, limit: nat, later: Time, id: nat)
    requires Reaps(rows, victims, now, limit) && now <= later
    requires id in rows && id !in rows - victims
    ensures IsExpired(rows[id].expiresAt, later)
    ensures forall live | live in rows && !IsExpired(rows[live].expiresAt, now) :: live in rows - victims
  {
    assert id in victims;
  }

  lemma ExpiredAfterPass(rows: Rows, victims: set<nat>, now: Time)
    requires victims <= Expired(rows, now)
    ensures Expired(rows - victims, now) == Expired(rows, now) - victims
    ensures |Expired(rows - victims, now)| == |Expired(rows, now)| - |victims|
  {
    assert Expired(rows - victims, now) == Expired(rows, now) - victims;
  }

  /** The rows after passes at one time that remove the given victims in turn. */
  function AfterPasses(rows: Rows, passes: seq<set<nat>>): Rows {
    if passes == [] then rows else AfterPasses(rows, passes[..|passes| - 1]) - passes[|passes| - 1]
  }

  predicate ArePasses(rows: Rows, passes: seq<set<nat>>, now: Time, limit: nat) {
    forall i | 0 <= i < |passes| :: Reaps(AfterPasses(rows, passes[..i]), passes[i], now, limit)
  }

  lemma FrontArePasses(rows: Rows, passes: seq<set<nat>>, now: Time, limit: nat)
    requires ArePasses(rows, passes, now, limit) && passes != []
    ensures var n := |passes| - 1;
            ArePasses(rows, passes[..n], now, limit) && Reaps(AfterPasses(rows, passes[..n]), passes[n], now, limit)
  {
    var front := passes[..|passes| - 1];
    forall i | 0 <= i < |front| ensures Reaps(AfterPasses(rows, front[..i]), front[i], now, limit) {
      assert front[..i] == passes[..i];
    }
  }

  /** Each pass takes a full batch off the expired rows while there is one. */
  lemma {:induction false} PassesCount(rows: Rows, passes: seq<set<nat>>, now: Time, limit: nat)
    requires ArePasses(rows, passes, now, limit)
    ensures |Expired(AfterPasses(rows, passes), now)| == Max(0, |Expired(rows, now)| - |passes| * limit)
  {
    if passes != [] {
      var n := |passes| - 1;
      FrontArePasses(rows, passes, now, limit);
      PassesCount(rows, passes[..n], now, limit);
      ExpiredAfterPass(AfterPasses(rows, passes[..n]), passes[n], now);
      assert (n + 1) * limit == n * limit + limit;
    }
  }

  /** The expired rows are gone exactly when limit times the number of passes reaches their count. */
  lemma PassesDrain(rows: Rows, passes: seq<set<nat>>, now: Time, limit: nat)
    requires ArePasses(rows, passes, now, limit)
    ensures Expired(AfterPasses(rows, passes), now) == {} <==> |passes| * limit >= |Expired(rows, now)|
  {
    PassesCount(rows, passes, now, limit);
  }

  // -------------------------------------------------------------------- table

  class Table {
    var rows: Rows

    ghost predicate Valid()
      reads this
    {
      UniqueUrls(rows)
    }

    constructor ()
      ensures Valid() && rows == map[]
    {
      rows := map[];
    }

    method Insert(short: nat, url: Url, expiresAt: Option<Time>) returns (r: Result<Row, Error>)
      requires Valid()
      modifies this
      ensures Valid()
      ensures r.Ok? <==> old(Accepts(rows, short, url))
      ensures r.Ok? <==> short !in old(rows) && forall id | id in old(rows) :: old(rows)[id].url != url
      ensures r.Ok? ==> r.value == Row(url, expiresAt, false) && rows == old(rows)[short := r.value]
      ensures r.Err? ==> r.error.DuplicatedKey? && rows == old(rows)
    {
      if short in rows || UrlTaken(rows, url) {
        return Err(DuplicatedKey);
      }
      var t := Row(url, expiresAt, false);
      rows := rows[short := t];
      return Ok(t);
    }

    method GetByShortID(short: nat) returns (r: Result<Row, Error>)
      ensures r.Ok? <==> short in rows && !rows[short].deleted
      ensures r == if Visible(rows, short) then Ok(rows[short]) else Err(NotFound)
    {
      if short in rows && !rows[short].deleted {
        return Ok(rows[short]);
      }
      return Err(NotFound);
    }

    /** Scans for the URL; the unique index makes the answer the only one. */
    method GetByLongURL(url: Url) returns (r: Option<nat>)
      requires Valid()
      ensures FoundByUrl(rows, url, r)
      ensures r.Some? ==> r.value in rows && rows[r.value].url == url && !rows[r.value].deleted
      ensures r.None? ==> forall id | id in rows && rows[id].url == url :: rows[id].deleted
      ensures forall other | FoundByUrl(rows, url, other) :: other == r
    {
      r := None;
      var todo := rows.Keys;
      while todo != {}
        invariant todo <= rows.Keys
        invariant forall id | id in rows && id !in todo :: rows[id].deleted || rows[id].url != url
        decreases todo
      {
        var id :| id in todo;
        if rows[id].url == url && !rows[id].deleted {
          return Some(id);
        }
        todo := todo - {id};
      }
    }

    method Delete(short: nat) returns (ok: bool)
      requires Valid()
      modifies this
      ensures Valid()
      ensures ok <==> short in old(rows) && !old(rows)[short].deleted
      ensures rows == if ok then SoftDeleted(old(rows), short) else old(rows)
      ensures ok ==> rows == old(rows)[short := old(rows)[short].(deleted := true)]
    {
      if short !in rows || rows[short].deleted {
        return false;
      }
      rows := rows[short := rows[short].(deleted := true)];
      return true;
    }

    method DeleteExpired(now: Time, limit: nat) returns (n: nat, ghost victims: set<nat>)
      requires Valid()
      modifies this
      ensures Valid()
      ensures Reaps(old(rows), victims, now, limit) && n == |victims| <= limit
      ensures forall id | id in victims :: Past(old(rows), id, now)
      ensures n < limit ==> forall id: nat | Past(old(rows), id, now) :: id in victims
      ensures rows == old(rows) - victims
    {
      var todo := set id | id in rows && rows[id].expiresAt.Some? && rows[id].expiresAt.value < now;
      var chosen: set<nat> := {};
      while todo != {} && |chosen| < limit
        invariant todo + chosen == Expired(rows, now) && todo !! chosen
        invariant |chosen| <= limit
        decreases todo
      {
        var id :| id in todo;
        todo, chosen := todo - {id}, chosen + {id};
      }
      assert |Expired(rows, now)| == |todo| + |chosen|;
      rows := rows - chosen;
      n, victims := |chosen|, chosen;
      ReapsExactly(old(rows), victims, now, limit);
    }
  }
}
