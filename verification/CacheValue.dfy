/** What is stored under a cache key: `encodeCacheValue` and its neighbours in `app/turl/service.go`. */
module CacheValue {
  import opened Wrappers
  import opened GoIntegers
  import opened Storage

  type Bytes = seq<byte>

  const PREFIX: nat := 8

  /** The k low-order bytes of a number, most significant first. */
  function BigEndian(n: nat, k: nat): (b: Bytes)
    ensures |b| == k
    decreases k, n
  {
    if k == 0 then [] else BigEndian(n / 256, k - 1) + [n % 256]
  }

  function Number(b: Bytes): nat {
    if b == [] then 0 else 256 * Number(b[..|b| - 1]) + b[|b| - 1]
  }

  lemma {:induction false} NumberOfBigEndian(n: nat, k: nat)
    requires n < Power(256, k)
    ensures Number(BigEndian(n, k)) == n
    decreases k
  {
    if k > 0 {
      NumberOfBigEndian(n / 256, k - 1);
      assert BigEndian(n, k)[..k - 1] == BigEndian(n / 256, k - 1);
    }
  }

  /** The most significant byte comes first. */
  lemma {:induction false} MostSignificantFirst(c: byte, n: nat, k: nat)
    requires n < Power(256, k)
    ensures BigEndian(c * Power(256, k) + n, k + 1) == [c] + BigEndian(n, k)
    decreases k
  {
    if k == 0 {
      assert BigEndian(c / 256, 0) == [];
    } else {
      var x := c * Power(256, k - 1);
      assert c * Power(256, k) == 256 * x;
      assert (256 * x + n) / 256 == x + n / 256 && (256 * x + n) % 256 == n % 256;
      MostSignificantFirst(c, n / 256, k - 1);
    }
  }

  /** Eight bytes and then the URL; the bytes are 0 when there is no expiry. */
  lemma LayoutOfValue(url: Url, expiresAt: Option<Time>)
    ensures var b := EncodeValue(url, expiresAt);
            && |b| == 8 + |url| && b[8..] == url
            && b[..8] == BigEndian((if expiresAt.Some? then expiresAt.value else 0) % TWO_64, 8)
  {
  }

  lemma {:induction false} NumberBelow(b: Bytes)
    ensures Number(b) < Power(256, |b|)
  {
    if b != [] { NumberBelow(b[..|b| - 1]); }
  }

  lemma Power256Of8()
    ensures Power(256, 8) == TWO_64
  {
    assert Power(256, 2) == 0x1_0000;
    assert Power(256, 4) == 0x1_0000_0000;
    assert Power(256, 6) == 0x1_0000_0000_0000;
  }

  /** Eight bytes of expiry, 0 for never, in front of the URL. */
  function EncodeValue(url: Url, expiresAt: Option<Time>): Bytes {
    var exp := if expiresAt.Some? then expiresAt.value else 0;
    BigEndian(exp % TWO_64, PREFIX) + url
  }

  function DecodeValue(b: Bytes): Option<(Url, Option<Time>)> {
    if |b| < PREFIX then None
    else
      var exp := Wrap(Number(b[..PREFIX]));
      Some((b[PREFIX..], if exp == 0 then None else Some(exp)))
  }

  /** The expiries that eight bytes of nanoseconds can tell apart from "never" and from each other. */
  predicate Representable(expiresAt: Option<Time>) {
    expiresAt.Some? ==> expiresAt.value != 0 && -TWO_63 <= expiresAt.value < TWO_63
  }

  /** What the eight bytes make of an expiry. */
  function Stored(expiresAt: Option<Time>): Option<Time> {
    if expiresAt.None? || Wrap(expiresAt.value) == 0 then None else Some(Wrap(expiresAt.value))
  }

  lemma DecodeOfEncode(url: Url, expiresAt: Option<Time>)
    ensures DecodeValue(EncodeValue(url, expiresAt)) == Some((url, Stored(expiresAt)))
  {
    var exp := if expiresAt.Some? then expiresAt.value else 0;
    var b := EncodeValue(url, expiresAt);
    Power256Of8();
    NumberOfBigEndian(exp % TWO_64, PREFIX);
    assert b[..PREFIX] == BigEndian(exp % TWO_64, PREFIX) && b[PREFIX..] == url;
    assert exp % TWO_64 == exp + (-(exp / TWO_64)) * TWO_64;
    WrapShift(exp, -(exp / TWO_64));
  }

  /** The round trip holds exactly for representable expiries. */
  lemma RoundTrip(url: Url, expiresAt: Option<Time>)
    ensures DecodeValue(EncodeValue(url, expiresAt)) == Some((url, expiresAt)) <==> Representable(expiresAt)
  {
    DecodeOfEncode(url, expiresAt);
  }

  /** How long an entry may stay in Redis: never longer than the link has left. */
  function CacheTtl(configTtl: int, expiresAt: Option<Time>, now: Time): int
  {
    if expiresAt.None? then configTtl
    else if expiresAt.value - now < configTtl then expiresAt.value - now
    else configTtl
  }

  /** A lifetime is the lesser of the configured one and of what the link has left. */
  lemma TtlIsLesser(configTtl: int, expiresAt: Option<Time>, now: Time)
    ensures var ttl := CacheTtl(configTtl, expiresAt, now);
            && ttl <= configTtl
            && (expiresAt.Some? ==> now + ttl <= expiresAt.value)
            && (ttl == configTtl || (expiresAt.Some? && now + ttl == expiresAt.value))
  {
  }

  /** encodeCacheValue, which fills a fresh buffer. */
  method EncodeCacheValue(url: Url, expiresAt: Option<Time>) returns (buf: array<byte>)
    ensures fresh(buf) && buf[..] == EncodeValue(url, expiresAt)
  {
    var exp: int64 := if expiresAt.Some? then Wrap(expiresAt.value) else 0;
    var u: uint64 := exp % TWO_64;
    assert u == (if expiresAt.Some? then expiresAt.value else 0) % TWO_64 by {
      if expiresAt.Some? {
        var k := WrapIsCongruent(expiresAt.value);
        SameRemainder(expiresAt.value, k);
      }
    }
    buf := new byte[PREFIX + |url|];
    PutUint64(buf, u);
    var i := 0;
    while i < |url|
      invariant 0 <= i <= |url|
      invariant buf[..PREFIX] == BigEndian(u, PREFIX)
      invariant buf[PREFIX..PREFIX + i] == url[..i]
    {
      buf[PREFIX + i] := url[i];
      assert buf[PREFIX..PREFIX + i + 1] == buf[PREFIX..PREFIX + i] + [url[i]];
      i := i + 1;
    }
    assert buf[..] == buf[..PREFIX] + buf[PREFIX..PREFIX + |url|];
  }

  /** Fills the first eight bytes of a buffer, from the last one back. */
  method PutUint64(buf: array<byte>, u: uint64)
    requires buf.Length >= PREFIX
    modifies buf
    ensures buf[..PREFIX] == BigEndian(u, PREFIX)
  {
    var i, rest := PREFIX, u;
    while i > 0
      invariant 0 <= i <= PREFIX && rest >= 0
      invariant BigEndian(u, PREFIX) == BigEndian(rest, i) + buf[i..PREFIX]
    {
      i := i - 1;
      ghost var tail := buf[i + 1..PREFIX];
      buf[i] := rest % 256;
      assert buf[i..PREFIX] == [rest % 256] + tail;
      rest := rest / 256;
    }
  }

  lemma SameRemainder(x: int, k: int)
    ensures (x + k * TWO_64) % TWO_64 == x % TWO_64
  {
    var q := x / TWO_64;
    assert x + k * TWO_64 == (q + k) * TWO_64 + x % TWO_64;
  }
}
