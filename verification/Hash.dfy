/** The routing hash: a shift-and-add loop that computes a polynomial of base 65599 modulo 2^64. */
module Hash {
  import opened Utf8

  const WORD_SIZE: int := 0x1_0000_0000_0000_0000

  // The base of the polynomial is 65599.

  /** What is left of a number in a 64-bit word. */
  function Wrap(x: int): (w: nat)
    ensures w < WORD_SIZE
  {
    x % WORD_SIZE
  }

  /** A number of whole words. */
  function Words(k: int): int {
    k * WORD_SIZE
  }

  /** The first NUL at or after a position, or the length. */
  function NulAt(data: seq<Byte>, from: nat): (i: nat)
    requires from <= |data|
    ensures from <= i <= |data| && (i < |data| ==> data[i] == 0)
    ensures forall j :: from <= j < i ==> data[j] != 0
    decreases |data| - from
  {
    if from == |data| || data[from] == 0 then from else NulAt(data, from + 1)
  }

  /** The bytes before the first NUL. */
  function BeforeNul(data: seq<Byte>): seq<Byte> {
    data[..NulAt(data, 0)]
  }

  /** The bytes as digits of base 65599. */
  function Poly(s: seq<Byte>): nat {
    if s == [] then 0 else Poly(s[..|s| - 1]) * 65599 + s[|s| - 1]
  }

  function HashOf(data: seq<Byte>): nat {
    Wrap(Poly(BeforeNul(data)))
  }

  function HashOfText(key: string): nat {
    HashOf(Encode(key))
  }

  /** The loop of the source on 64-bit words with wrap-around. */
  method GenHash(data: seq<Byte>) returns (hash: nat)
    ensures hash == HashOf(data)
  {
    hash := 0;
    var prefix := BeforeNul(data);
    var i := 0;
    while i < |data|
      invariant 0 <= i <= |prefix|
      invariant hash == Wrap(Poly(prefix[..i]))
    {
      if data[i] == 0 { break; }
      var c := data[i];
      assert prefix[..i + 1][..i] == prefix[..i];
      WrappedStep(Poly(prefix[..i]), hash, c);
      hash := WrappedNext(hash, c);
      i := i + 1;
    }
    assert prefix[..|prefix|] == prefix;
  }

  /** `c + (hash << 6) + (hash << 16) - hash`, with every shift, sum and difference wrapping. */
  function WrappedNext(hash: nat, c: Byte): nat {
    Wrap(Wrap(Wrap(c + Wrap(hash * 64)) + Wrap(hash * 65536)) - hash)
  }

  lemma WrappedStep(p: nat, h: nat, c: Byte)
    requires h == Wrap(p)
    ensures WrappedNext(h, c) == Wrap(p * 65599 + c)
  {
    var shifted6, shifted16 := h * 64, h * 65536;
    var sum := c + Wrap(shifted6);
    var total := Wrap(sum) + Wrap(shifted16);
    var wraps := Overflow(shifted6) + Overflow(sum) + Overflow(shifted16) + Overflow(total);
    assert Wrap(total) - h == (p * 65599 + c) + Words(-(wraps + Overflow(p) * 65599));
    SameModulo(p * 65599 + c, -(wraps + Overflow(p) * 65599));
  }

  /** What does not fit. */
  function Overflow(x: int): (k: int)
    ensures x == Words(k) + Wrap(x)
  {
    x / WORD_SIZE
  }

  lemma SameModulo(x: int, k: int)
    ensures Wrap(x + Words(k)) == Wrap(x)
  {
  }

  /** x * 65599^n. */
  function Shifted(x: int, n: nat): int {
    if n == 0 then x else Shifted(x, n - 1) * 65599
  }

  lemma {:induction false} PolyOfConcat(a: seq<Byte>, b: seq<Byte>)
    ensures Poly(a + b) == Shifted(Poly(a), |b|) + Poly(b)
  {
    if b == [] {
      assert a + b == a;
    } else {
      assert (a + b)[..|a + b| - 1] == a + b[..|b| - 1];
      PolyOfConcat(a, b[..|b| - 1]);
    }
  }

  lemma NulFree(s: seq<Byte>)
    requires 0 !in s
    ensures BeforeNul(s) == s
  {
    assert forall i :: 0 <= i < |s| ==> s[i] != 0;
  }

  lemma {:induction false} ShiftModulo(x: int, n: nat)
    ensures Wrap(Shifted(x, n)) == Wrap(Shifted(Wrap(x), n))
  {
    if n > 0 {
      ShiftModulo(x, n - 1);
      TimesBase(Shifted(x, n - 1), Shifted(Wrap(x), n - 1));
    }
  }

  lemma TimesBase(x: int, y: int)
    requires Wrap(x) == Wrap(y)
    ensures Wrap(x * 65599) == Wrap(y * 65599)
  {
    var k := Overflow(x) - Overflow(y);
    assert x * 65599 == y * 65599 + Words(k * 65599);
    SameModulo(y * 65599, k * 65599);
  }

  lemma AddModulo(x: int, y: int, x': int, y': int)
    requires Wrap(x) == Wrap(x') && Wrap(y) == Wrap(y')
    ensures Wrap(x + y) == Wrap(x' + y')
  {
    var k := Overflow(x) - Overflow(x') + Overflow(y) - Overflow(y');
    assert x + y == x' + y' + Words(k);
    SameModulo(x' + y', k);
  }

  lemma ConcatModulo(a: seq<Byte>, b: seq<Byte>)
    ensures Wrap(Poly(a + b)) == Wrap(Shifted(Wrap(Poly(a)), |b|) + Wrap(Poly(b)))
  {
    hide Poly, Shifted;
    PolyOfConcat(a, b);
    ShiftModulo(Poly(a), |b|);
    AddModulo(Shifted(Poly(a), |b|), Poly(b), Shifted(Wrap(Poly(a)), |b|), Wrap(Poly(b)));
  }

  /** Hashing a concatenation from the hashes of its parts. */
  lemma HashOfConcat(a: seq<Byte>, b: seq<Byte>)
    requires 0 !in a && 0 !in b
    ensures HashOf(a + b) == Wrap(Shifted(HashOf(a), |b|) + HashOf(b))
  {
    hide Poly, Shifted, NulAt;
    NulFree(a);
    NulFree(b);
    NulFree(a + b);
    ConcatModulo(a, b);
  }

  lemma RemainderIs(x: nat, t: nat, q: nat, r: nat)
    requires x == q * t + r && r < t
    ensures x % t == r
  {
    var p, s := x / t, x % t;
    assert x == p * t + s;
    assert (p - q) * t == r - s;
    NoMultiple(p - q, t, r - s);
  }

  lemma NoMultiple(k: int, t: nat, d: int)
    requires k * t == d && -(t as int) < d < t
    ensures k == 0
  {
  }

  /** Nothing after a NUL matters. */
  lemma NulEndsKey(a: seq<Byte>, b: seq<Byte>)
    ensures HashOf(a + [0] + b) == HashOf(a)
  {
    var s := a + [0] + b;
    var i, j := NulAt(s, 0), NulAt(a, 0);
    assert s[|a|] == 0 && forall n :: 0 <= n < |a| ==> s[n] == a[n];
    assert i <= |a| && (i < |a| ==> a[i] == 0);
    assert j < |a| ==> s[j] == 0;
    assert i == j;
    assert s[..i] == a[..j];
  }

  // ---------- separation ----------

  lemma BaseIsInvertible(d: int)
    requires Wrap(d * 65599) == 0
    ensures Wrap(d) == 0
  {
    var k := Overflow(d * 65599);
    assert d * 65599 == Words(k);
    // The inverse of the base modulo 2^64.
    assert 16079000890114764735 * 65599 == 1 + Words(57179);
    assert d == Words(k * 16079000890114764735 - d * 57179);
    SameModulo(0, k * 16079000890114764735 - d * 57179);
  }

  lemma {:induction false} ShiftCancels(d: int, n: nat)
    ensures Wrap(Shifted(d, n)) == 0 <==> Wrap(d) == 0
  {
    if n > 0 {
      ShiftCancels(d, n - 1);
      if Wrap(Shifted(d, n)) == 0 {
        BaseIsInvertible(Shifted(d, n - 1));
      }
      if Wrap(d) == 0 {
        TimesBase(Shifted(d, n - 1), 0);
      }
    }
  }

  lemma {:induction false} ShiftOfDifference(x: int, y: int, n: nat)
    ensures Shifted(x, n) - Shifted(y, n) == Shifted(x - y, n)
  {
    if n > 0 {
      ShiftOfDifference(x, y, n - 1);
    }
  }

  lemma Congruent(a: int, b: int)
    ensures Wrap(a) == Wrap(b) <==> Wrap(a - b) == 0
  {
  }

  lemma ConcatDifference(a: seq<Byte>, b: seq<Byte>, q: seq<Byte>)
    ensures Poly(a + q) - Poly(b + q) == Shifted(Poly(a) - Poly(b), |q|)
  {
    hide Poly, Shifted;
    PolyOfConcat(a, q);
    PolyOfConcat(b, q);
    ShiftOfDifference(Poly(a), Poly(b), |q|);
  }

  lemma PolyDifference(p: seq<Byte>, x: seq<Byte>, y: seq<Byte>, q: seq<Byte>)
    requires |x| == |y|
    ensures Poly(p + x + q) - Poly(p + y + q) == Shifted(Poly(x) - Poly(y), |q|)
  {
    assert Poly(p + x) - Poly(p + y) == Poly(x) - Poly(y) by {
      PolyOfConcat(p, x);
      PolyOfConcat(p, y);
    }
    ConcatDifference(p + x, p + y, q);
  }

  /** Whether two keys that share a prefix and a suffix collide depends on their middles alone. */
  lemma CollisionIsLocal(p: seq<Byte>, x: seq<Byte>, y: seq<Byte>, q: seq<Byte>)
    requires |x| == |y|
    requires 0 !in p && 0 !in x && 0 !in y && 0 !in q
    ensures HashOf(p + x + q) == HashOf(p + y + q) <==> HashOf(x) == HashOf(y)
  {
    hide Poly, Shifted, NulAt;
    NulFree(x);
    NulFree(y);
    NulFree(p + x + q);
    NulFree(p + y + q);
    PolyDifference(p, x, y, q);
    Congruent(Poly(p + x + q), Poly(p + y + q));
    Congruent(Poly(x), Poly(y));
    ShiftCancels(Poly(x) - Poly(y), |q|);
  }

  lemma {:induction false} PolyIsInjective(x: seq<Byte>, y: seq<Byte>)
    requires |x| == |y| && Poly(x) == Poly(y)
    ensures x == y
  {
    if x != [] {
      var n := |x| - 1;
      assert Poly(x[..n]) * 65599 + x[n] == Poly(y[..n]) * 65599 + y[n];
      PolyIsInjective(x[..n], y[..n]);
      assert x == x[..n] + [x[n]] && y == y[..n] + [y[n]];
    }
  }

  /** The largest value of n bytes for n up to four; it is below 2^64. */
  function Most(n: nat): nat {
    if n == 0 then 0
    else if n == 1 then 255
    else if n == 2 then 16728000
    else if n == 3 then 1097340072255
    else 71984411399856000
  }

  lemma {:induction false} FourBytesFit(x: seq<Byte>)
    requires |x| <= 4
    ensures Poly(x) <= Most(|x|) < WORD_SIZE
  {
    if x != [] {
      FourBytesFit(x[..|x| - 1]);
    }
  }

  /** Two middles of up to four bytes collide only when they are the same. */
  lemma ShortCollision(x: seq<Byte>, y: seq<Byte>)
    requires |x| == |y| <= 4 && 0 !in x && 0 !in y
    ensures HashOf(x) == HashOf(y) <==> x == y
  {
    NulFree(x);
    NulFree(y);
    FourBytesFit(x);
    FourBytesFit(y);
    if Poly(x) == Poly(y) {
      PolyIsInjective(x, y);
    }
  }

  /** Equal-length NUL-free keys that differ only within four consecutive bytes collide only when they are equal. */
  lemma WindowSeparates(a: seq<Byte>, b: seq<Byte>, at: nat, width: nat)
    requires |a| == |b| && at + width <= |a| && width <= 4
    requires 0 !in a && 0 !in b
    requires forall j :: (0 <= j < at || at + width <= j < |a|) ==> a[j] == b[j]
    ensures HashOf(a) == HashOf(b) <==> a == b
  {
    if a != b {
      var p, x, y, q := a[..at], a[at..at + width], b[at..at + width], a[at + width..];
      assert a == p + x + q;
      assert b == p + y + q;
      CollisionIsLocal(p, x, y, q);
      ShortCollision(x, y);
    }
  }
}
