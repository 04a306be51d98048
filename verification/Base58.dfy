/** The base-58 codec of short codes: `pkg/mapping/base58.go`. */
module Base58 {
  import opened Wrappers
  import opened GoIntegers

  const MAX_BYTES: nat := 8

  datatype Error = Overflow | InvalidCharacter

  type Code = seq<byte>

  // ---------------------------------------------------------------- alphabet

  /** The letter at a position: digits from 1, then letters without I, O and l. */
  function Letter(i: nat): char
    requires i < 58
  {
    if i < 9 then ('1' as int + i) as char
    else if i < 17 then ('A' as int + (i - 9)) as char
    else if i < 22 then ('J' as int + (i - 17)) as char
    else if i < 33 then ('P' as int + (i - 22)) as char
    else if i < 44 then ('a' as int + (i - 33)) as char
    else ('m' as int + (i - 44)) as char
  }

  function Chars(): string {
    seq(58, i requires 0 <= i < 58 => Letter(i))
  }

  lemma Alphabet()
    ensures Chars() == "123456789" + "ABCDEFGH" + "JKLMN" + "PQRSTUVWXYZ" + "abcdefghijk" + "mnopqrstuvwxyz"
  {
    assert Chars()[..9] == "123456789";
    assert Chars()[9..17] == "ABCDEFGH";
    assert Chars()[17..22] == "JKLMN";
    assert Chars()[22..33] == "PQRSTUVWXYZ";
    assert Chars()[33..44] == "abcdefghijk";
    assert Chars()[44..] == "mnopqrstuvwxyz";
  }

  function Char(i: nat): (c: byte)
    requires i < 58
  {
    Letter(i) as int
  }

  /** The position of a byte in the alphabet, or -1 if it is not there. */
  function IndexOf(c: byte): (p: int)
    ensures if p == -1 then forall i: nat | i < 58 :: Char(i) != c else 0 <= p < 58 && Char(p) == c
  {
    if i: nat :| i < 58 && Char(i) == c then i else -1
  }

  /** `IndexOf` inverts the alphabet. */
  lemma IndexOfChar(i: nat)
    requires i < 58
    ensures IndexOf(Char(i)) == i
  {
  }

  // ------------------------------------------------------------------ powers

  /** Recursive squaring in the 64-bit arithmetic of the original. */
  function Pow(x: int64, n: nat): int64
    decreases n
  {
    if n == 0 then 1
    else if n % 2 == 0 then Pow(Wrap(x * x), n / 2)
    else Wrap(x * Pow(x, n - 1))
  }

  lemma {:induction false} PowerSquares(x: int, n: nat)
    ensures Power(x * x, n) == Power(x, 2 * n)
  {
    if n > 0 {
      PowerSquares(x, n - 1);
      calc {
        Power(x, 2 * n);
        x * (x * Power(x, 2 * n - 2));
        (x * x) * Power(x, 2 * n - 2);
      }
    }
  }

  lemma {:induction false} PowerOfWrapped(x: int, n: nat)
    ensures Wrap(Power(Wrap(x), n)) == Wrap(Power(x, n))
  {
    if n > 0 {
      calc {
        Wrap(Wrap(x) * Power(Wrap(x), n - 1));
        { WrapProduct(Wrap(x), Power(Wrap(x), n - 1)); }
        Wrap(Wrap(x) * Wrap(Power(Wrap(x), n - 1)));
        { PowerOfWrapped(x, n - 1); }
        Wrap(Wrap(x) * Wrap(Power(x, n - 1)));
        { WrapProduct(x, Power(x, n - 1)); }
        Wrap(x * Power(x, n - 1));
      }
    }
  }

  /** Squaring computes the power up to wrap-around, for every base and exponent. */
  lemma {:induction false} PowIsWrappedPower(x: int64, n: nat)
    ensures Pow(x, n) == Wrap(Power(x, n))
    decreases n
  {
    if n == 0 {
    } else if n % 2 == 0 {
      PowIsWrappedPower(Wrap(x * x), n / 2);
      PowerOfWrapped(x * x, n / 2);
      PowerSquares(x, n / 2);
    } else {
      PowIsWrappedPower(x, n - 1);
      WrapProduct(x, Power(x, n - 1));
    }
  }

  lemma {:induction false} PowerGrows(m: nat, n: nat)
    requires m <= n
    ensures 1 <= Power(58, m) <= Power(58, n)
    ensures m < n ==> Power(58, m) < Power(58, n)
    decreases n
  {
    if m < n {
      PowerGrows(m, n - 1);
    } else if m > 0 {
      PowerGrows(m - 1, n - 1);
    }
  }

  function Limit(): int { Power(58, 8) }

  lemma PowersOf58()
    ensures Power(58, 5) == 656356768
    ensures Power(58, 7) == 2207984167552
    ensures Power(58, 8) == 128063081718016
  {
    assert Power(58, 2) == 3364;
    assert Power(58, 3) == 195112;
    assert Power(58, 4) == 11316496;
    assert Power(58, 6) == 38068692544;
  }

  /** No table entry overflows, so the table holds the true powers. */
  lemma PowTableExact(n: nat)
    requires n <= MAX_BYTES
    ensures Pow(58, n) == Power(58, n) <= Power(58, 8) < TWO_63
  {
    PowIsWrappedPower(58, n);
    PowerGrows(n, 8);
    PowersOf58();
  }

  // -------------------------------------------------- encoding and decoding

  function Encode(num: nat): (s: Code)
    ensures forall i | 0 <= i < |s| :: IndexOf(s[i]) >= 0
  {
    if num == 0 then []
    else
      IndexOfChar(num % 58);
      Encode(num / 58) + [Char(num % 58)]
  }

  predicate Valid(s: Code) {
    forall i | 0 <= i < |s| :: IndexOf(s[i]) != -1
  }

  /** The number a code stands for in base 58, by Horner's rule. */
  function Value(s: Code): nat
    requires Valid(s)
  {
    if s == [] then 0 else 58 * Value(s[..|s| - 1]) + IndexOf(s[|s| - 1])
  }

  function Decode(s: Code): Result<nat, Error> {
    if |s| > MAX_BYTES then Err(Overflow)
    else if !Valid(s) then Err(InvalidCharacter)
    else Ok(Value(s))
  }

  /** Every byte of a code is one of the 58 letters. */
  predicate OverAlphabet(s: Code) {
    forall i | 0 <= i < |s| :: s[i] as char in Chars()
  }

  lemma InAlphabet(c: byte)
    ensures IndexOf(c) != -1 <==> c as char in Chars()
  {
    if IndexOf(c) != -1 {
      assert Chars()[IndexOf(c)] == c as char;
    }
    if c as char in Chars() {
      var i :| 0 <= i < 58 && Chars()[i] == c as char;
      assert Char(i) == c;
    }
  }

  lemma ValidMeansOverAlphabet(s: Code)
    ensures Valid(s) <==> OverAlphabet(s)
  {
    forall i | 0 <= i < |s| ensures IndexOf(s[i]) != -1 <==> s[i] as char in Chars() {
      InAlphabet(s[i]);
    }
  }

  /** Which codes decode, leading zeros or not, and which of the two errors the others get. */
  lemma DecodesExactly(s: Code)
    ensures Decode(s).Ok? <==> |s| <= 8 && OverAlphabet(s)
    ensures Decode(s) == Err(Overflow) <==> |s| > 8
    ensures Decode(s) == Err(InvalidCharacter) <==> |s| <= 8 && !OverAlphabet(s)
  {
    ValidMeansOverAlphabet(s);
  }

  /** A code without its leading zero digits. */
  function StripZeros(s: Code): Code {
    if s != [] && s[0] == Char(0) then StripZeros(s[1..]) else s
  }

  lemma {:induction false} ValueOfEncode(n: nat)
    ensures Value(Encode(n)) == n
  {
    if n > 0 {
      ValueOfEncode(n / 58);
      IndexOfChar(n % 58);
      var s := Encode(n);
      assert s[..|s| - 1] == Encode(n / 58);
    }
  }

  /** A code has k characters exactly when 58^(k-1) <= n < 58^k. */
  lemma {:induction false} EncodeLength(n: nat, k: nat)
    ensures n > 0 ==> (|Encode(n)| == k <==> k > 0 && Power(58, k - 1) <= n < Power(58, k))
    ensures |Encode(n)| == 0 <==> n == 0
    decreases n
  {
    if 0 < n < 58 {
      assert Encode(n / 58) == [];
      if k > 1 { PowerGrows(1, k - 1); }
      assert Power(58, 1) == 58;
    } else if n >= 58 {
      if k > 1 {
        EncodeLength(n / 58, k - 1);
      } else {
        EncodeLength(n / 58, 0);
        assert Power(58, 1) == 58;
      }
    }
  }

  /** Decoding undoes encoding below 58^8 and reports an overflow from there on. */
  lemma DecodeOfEncode(n: nat)
    ensures Decode(Encode(n)) == if n < Power(58, 8) then Ok(n) else Err(Overflow)
  {
    ValueOfEncode(n);
    var k := |Encode(n)|;
    EncodeLength(n, k);
    if k > 8 {
      PowerGrows(8, k - 1);
    } else {
      PowerGrows(k, 8);
    }
  }

  lemma {:induction false} ValueBound(s: Code)
    requires Valid(s)
    ensures Value(s) < Power(58, |s|)
  {
    if s != [] {
      ValueBound(s[..|s| - 1]);
    }
  }

  lemma {:induction false} ValueOfStripped(s: Code)
    requires Valid(s)
    ensures Valid(StripZeros(s)) && Value(StripZeros(s)) == Value(s)
  {
    if s != [] && s[0] == Char(0) {
      IndexOfChar(0);
      LeadingZero(s[1..]);
      assert s == [Char(0)] + s[1..];
      ValueOfStripped(s[1..]);
    }
  }

  lemma {:induction false} LeadingZero(s: Code)
    requires Valid(s)
    ensures Valid([Char(0)] + s) && Value([Char(0)] + s) == Value(s)
  {
    IndexOfChar(0);
    var t := [Char(0)] + s;
    if s == [] {
      assert t[..0] == [];
    } else {
      LeadingZero(s[..|s| - 1]);
      assert t[..|t| - 1] == [Char(0)] + s[..|s| - 1];
    }
  }

  lemma ValueStep(front: Code, last: byte)
    requires Valid(front) && IndexOf(last) != -1
    ensures Valid(front + [last]) && Value(front + [last]) == 58 * Value(front) + IndexOf(last)
  {
    var s := front + [last];
    assert s[..|s| - 1] == front;
  }

  predicate NoLeadingZero(s: Code) {
    s != [] ==> s[0] != Char(0)
  }

  lemma {:induction false} LeadingDigit(s: Code)
    requires Valid(s) && NoLeadingZero(s) && s != []
    ensures Value(s) > 0
  {
    var front := s[..|s| - 1];
    if front != [] {
      LeadingDigit(front);
    } else {
      assert s[0] == s[|s| - 1];
    }
  }

  /** Without leading zeros, a code is determined by its value. */
  lemma {:induction false} ValueIsInjective(s: Code, t: Code)
    requires Valid(s) && Valid(t) && NoLeadingZero(s) && NoLeadingZero(t)
    requires Value(s) == Value(t)
    ensures s == t
  {
    if s != [] { LeadingDigit(s); }
    if t != [] { LeadingDigit(t); }
    if s != [] && t != [] {
      var p, q := s[..|s| - 1], t[..|t| - 1];
      var d, e := IndexOf(s[|s| - 1]), IndexOf(t[|t| - 1]);
      assert 58 * Value(p) + d == 58 * Value(q) + e;
      ValueIsInjective(p, q);
      assert s == p + [Char(d)] && t == q + [Char(e)];
    }
  }

  lemma {:induction false} EncodeHasNoLeadingZero(n: nat)
    ensures NoLeadingZero(Encode(n))
  {
    if n > 0 {
      EncodeHasNoLeadingZero(n / 58);
      if n < 58 { assert Encode(n / 58) == [] && Encode(n) == [Char(n)]; }
      IndexOfChar(0);
      IndexOfChar(n % 58);
    }
  }

  /** A code without leading zeros is the code of its value. */
  lemma EncodeOfValue(s: Code)
    requires Valid(s) && NoLeadingZero(s)
    ensures Encode(Value(s)) == s
  {
    var n := Value(s);
    ValueOfEncode(n);
    EncodeHasNoLeadingZero(n);
    ValueIsInjective(Encode(n), s);
  }

  lemma {:induction false} StripZerosLeavesNone(s: Code)
    ensures NoLeadingZero(StripZeros(s))
  {
    if s != [] && s[0] == Char(0) {
      StripZerosLeavesNone(s[1..]);
    }
  }

  /** Encoding undoes decoding up to leading zeros. */
  lemma EncodeOfDecode(s: Code)
    requires |s| <= 8 && OverAlphabet(s)
    ensures Decode(s).Ok? && Encode(Decode(s).value) == StripZeros(s)
  {
    DecodesExactly(s);
    ValueOfStripped(s);
    StripZerosLeavesNone(s);
    EncodeOfValue(StripZeros(s));
  }

  /** What is stripped are '1's, and what is left does not begin with one. */
  lemma {:induction false} StrippedAreOnes(s: Code)
    ensures var t := StripZeros(s); var k := |s| - |t|;
            && k >= 0 && s[k..] == t && (forall i | 0 <= i < k :: s[i] == '1' as int)
            && (t != [] ==> t[0] != '1' as int)
  {
    if s != [] && s[0] == Char(0) { StrippedAreOnes(s[1..]); }
  }

  /** Two codes name the same number exactly when they differ in leading zeros only. */
  lemma DecodeAlike(s: Code, t: Code)
    requires |s| <= 8 && OverAlphabet(s) && |t| <= 8 && OverAlphabet(t)
    ensures Decode(s).Ok? && Decode(t).Ok?
    ensures Decode(s) == Decode(t) <==> StripZeros(s) == StripZeros(t)
  {
    DecodesExactly(s);
    DecodesExactly(t);
    ValueOfStripped(s);
    ValueOfStripped(t);
    EncodeOfDecode(s);
    EncodeOfDecode(t);
  }

  // ------------------------------------------------------------------- order

  predicate LexLess(s: Code, t: Code) {
    |s| == |t| && exists k | 0 <= k < |s| :: s[..k] == t[..k] && IndexOf(s[k]) < IndexOf(t[k])
  }

  predicate ShortlexLess(s: Code, t: Code) {
    |s| < |t| || LexLess(s, t)
  }

  lemma AgreeBefore(s: Code, t: Code, k: nat, l: nat)
    requires k < l <= |s| && l <= |t| && s[..l] == t[..l]
    ensures s[k] == t[k]
  {
    assert s[k] == s[..l][k];
  }

  /** The first position where two codes differ decides their order. */
  lemma LexLessIsAsymmetric(s: Code, t: Code)
    requires LexLess(s, t)
    ensures !LexLess(t, s)
  {
    var k :| 0 <= k < |s| && s[..k] == t[..k] && IndexOf(s[k]) < IndexOf(t[k]);
    forall l | 0 <= l < |t| && t[..l] == s[..l]
      ensures !(IndexOf(t[l]) < IndexOf(s[l]))
    {
      if l < k { AgreeBefore(s, t, l, k); }
      if k < l { AgreeBefore(s, t, k, l); }
    }
  }

  lemma LexLessExtends(p: Code, q: Code, a: byte, b: byte)
    requires LexLess(p, q)
    ensures LexLess(p + [a], q + [b])
  {
    var k :| 0 <= k < |p| && p[..k] == q[..k] && IndexOf(p[k]) < IndexOf(q[k]);
    var s, t := p + [a], q + [b];
    assert s[..k] == p[..k] && t[..k] == q[..k];
  }

  lemma LexLessLast(p: Code, i: nat, j: nat)
    requires i < j < 58
    ensures LexLess(p + [Char(i)], p + [Char(j)])
  {
    IndexOfChar(i);
    IndexOfChar(j);
    var s, t := p + [Char(i)], p + [Char(j)];
    assert s[..|p|] == p == t[..|p|];
  }

  lemma {:induction false} EncodeIncreases(m: nat, n: nat)
    requires m < n
    ensures ShortlexLess(Encode(m), Encode(n))
    decreases n
  {
    EncodeLength(m, 0);
    EncodeLength(n, 0);
    if m > 0 {
      var p, q := Encode(m / 58), Encode(n / 58);
      if m / 58 < n / 58 {
        EncodeIncreases(m / 58, n / 58);
        if LexLess(p, q) { LexLessExtends(p, q, Char(m % 58), Char(n % 58)); }
      } else {
        LexLessLast(p, m % 58, n % 58);
      }
    }
  }

  /** Numeric order is shortlex order of the codes. */
  lemma EncodeOrder(m: nat, n: nat)
    ensures m < n <==> ShortlexLess(Encode(m), Encode(n))
  {
    if m < n {
      EncodeIncreases(m, n);
    } else {
      if n < m { EncodeIncreases(n, m); }
      if LexLess(Encode(m), Encode(n)) { LexLessIsAsymmetric(Encode(m), Encode(n)); }
    }
  }

  /** The length window that the redirect handler accepts. */
  predicate RedirectAccepts(s: Code) {
    !(|s| > 8 || |s| < 6)
  }

  /** The numbers whose codes pass the redirect handler are those in [58^5, 58^8); all of them decode. */
  lemma RedirectWindow(n: nat)
    ensures RedirectAccepts(Encode(n)) <==> Power(58, 5) <= n < Power(58, 8)
    ensures RedirectAccepts(Encode(n)) ==> Decode(Encode(n)) == Ok(n)
  {
    DecodeOfEncode(n);
    var k := |Encode(n)|;
    EncodeLength(n, k);
    PowersOf58();
    if k >= 6 { PowerGrows(5, k - 1); } else { PowerGrows(k, 5); }
    if k > 8 { PowerGrows(8, k - 1); } else { PowerGrows(k, 8); }
  }

  // ------------------------------------------------- the imperative algorithms

  function Reversed(s: Code): Code {
    seq(|s|, i requires 0 <= i < |s| => s[|s| - 1 - i])
  }

  method Reverse(a: array<byte>)
    modifies a
    ensures a[..] == Reversed(old(a[..]))
  {
    var left, right := 0, a.Length - 1;
    while left < right
      invariant 0 <= left && right == a.Length - 1 - left && left <= right + 1
      invariant forall k | 0 <= k < left || right < k < a.Length :: a[k] == old(a[a.Length - 1 - k])
      invariant forall k | left <= k <= right :: a[k] == old(a[k])
    {
      a[left], a[right] := a[right], a[left];
      left, right := left + 1, right - 1;
    }
  }

  method Base58Encode(num: uint64) returns (s: Code)
    ensures s == Encode(num)
  {
    var b: Code := [];
    var n := num;
    while n > 0
      invariant 0 <= n
      invariant Encode(num) == Encode(n) + Reversed(b)
    {
      b := b + [Char(n % 58)];
      assert Reversed(b) == [Char(n % 58)] + Reversed(b[..|b| - 1]);
      n := n / 58;
    }
    var a := new byte[|b|](i requires 0 <= i < |b| => b[i]);
    assert a[..] == b;
    Reverse(a);
    return a[..];
  }

  /** The two lookup tables that the package fills when it is loaded. */
  class Tables {
    const indices: array<int>
    const pow58: array<int64>

    ghost predicate Filled()
      reads indices, pow58
    {
      && indices.Length == 256 && pow58.Length == 9
      && (forall c: byte :: indices[c] == IndexOf(c))
      && (forall n | 0 <= n < 9 :: pow58[n] == Power(58, n))
    }

    constructor ()
      ensures Filled() && fresh(indices) && fresh(pow58)
    {
      var ind := new int[256](_ => -1);
      var pows := new int64[9];
      indices, pow58 := ind, pows;
      new;
      FillIndices();
      FillPowers();
    }

    method FillIndices()
      requires indices.Length == 256 && forall c: byte :: indices[c] == -1
      modifies indices
      ensures forall c: byte :: indices[c] == IndexOf(c)
    {
      var i := 0;
      while i < 58
        invariant 0 <= i <= 58
        invariant forall c: byte :: indices[c] == if IndexOf(c) < i then IndexOf(c) else -1
      {
        IndexOfChar(i);
        indices[Char(i)] := i;
        i := i + 1;
      }
    }

    method FillPowers()
      requires pow58.Length == 9
      modifies pow58
      ensures forall n | 0 <= n < 9 :: pow58[n] == Power(58, n)
    {
      var i := 0;
      while i < 9
        invariant 0 <= i <= 9
        invariant forall n | 0 <= n < i :: pow58[n] == Power(58, n)
      {
        PowTableExact(i);
        pow58[i] := Pow(58, i);
        i := i + 1;
      }
    }

    method Base58Decode(b: Code) returns (r: Result<uint64, Error>)
      requires Filled()
      ensures r == Decode(b)
    {
      var n := |b|;
      if n > MAX_BYTES { return Err(Overflow); }
      var num: uint64 := 0;
      var i := 0;
      while i < n
        invariant 0 <= i <= n
        invariant Valid(b[..i])
        invariant num == Scaled(b[..i], n)
      {
        var pos := indices[b[i]];
        if pos == -1 { return Err(InvalidCharacter); }
        assert b[..i + 1] == b[..i] + [b[i]];
        PartialSum(b[..i], b[i], n);
        var term: int64 := pow58[n - i - 1] * pos;
        num := num + term;
        i := i + 1;
      }
      assert b[..n] == b;
      return Ok(num);
    }
  }

  /** The Horner value of the digits read so far, scaled by the digits still to come. */
  ghost function Scaled(s: Code, n: nat): int
    requires Valid(s) && |s| <= n
  {
    Value(s) * Power(58, n - |s|)
  }

  /**
   * One turn of the table-driven loop is one Horner step; neither the term it adds
   * nor the sum it reaches gets to 58^8.
   */
  lemma PartialSum(front: Code, last: byte, n: nat)
    requires Valid(front) && IndexOf(last) != -1 && |front| < n <= MAX_BYTES
    ensures var s := front + [last];
            var term := Power(58, n - |s|) * IndexOf(last);
            && Valid(s)
            && Scaled(s, n) == Scaled(front, n) + term
            && 0 <= term <= Scaled(s, n) < Power(58, 8) < TWO_63
  {
    var s := front + [last];
    var head, pos, scale := Value(front), IndexOf(last), Power(58, n - |s|);
    ValueStep(front, last);
    assert Power(58, n - |front|) == 58 * scale;
    Distribute(head, pos, scale);
    ValueBound(s);
    PowerSplits(|s|, n - |s|);
    PowerGrows(0, n - |s|);
    PowerGrows(n, 8);
    PowersOf58();
    ScaledBounds(pos, Value(s), Power(58, |s|), scale);
  }

  lemma Distribute(head: int, pos: int, scale: int)
    ensures (58 * head + pos) * scale == head * (58 * scale) + scale * pos
  {
  }

  lemma ScaledBounds(a: nat, b: nat, c: nat, scale: int)
    requires a <= b < c && scale >= 1
    ensures 0 <= scale * a <= b * scale < c * scale
  {
  }

  lemma {:induction false} PowerSplits(m: nat, n: nat)
    ensures Power(58, m + n) == Power(58, m) * Power(58, n)
  {
    if m > 0 {
      PowerSplits(m - 1, n);
      assert 58 * (Power(58, m - 1) * Power(58, n)) == (58 * Power(58, m - 1)) * Power(58, n);
    }
  }
}
