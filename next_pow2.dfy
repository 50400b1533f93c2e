/**
 * NextPow2 (ref_vk/vk_common.c:983-993): the bit-smearing round-up to a
 * power of two on the source's 32-bit `int`. A 32-bit word is modelled as
 * its 32 bits, least significant first, so that the decrement, the five
 * shift-and-or steps and the increment are each written out.
 */
module PowerOfTwo {

  const WORD_BITS: nat := 32
  const WORD_MODULUS: nat := 0x1_0000_0000

  function Exp2(k: nat): (r: nat)
    ensures r >= 1
  {
    if k == 0 then 1 else 2 * Exp2(k - 1)
  }

  /** n is 1, 2, 4, 8, ... */
  ghost predicate IsPowerOfTwo(n: int)
  {
    exists k: nat :: n == Exp2(k)
  }

  /** The n low bits of a, least significant first. */
  function ToBits(a: nat, n: nat): (w: seq<bool>)
    ensures |w| == n
  {
    if n == 0 then [] else [a % 2 == 1] + ToBits(a / 2, n - 1)
  }

  /** The unsigned value of a bit sequence, least significant bit first. */
  function Value(w: seq<bool>): nat
  {
    if w == [] then 0 else (if w[0] then 1 else 0) + 2 * Value(w[1..])
  }

  /** `x >> s` on a signed word: the vacated high bits copy the sign bit. */
  function ShiftRight(w: seq<bool>, s: nat): (r: seq<bool>)
    requires |w| == WORD_BITS
    ensures |r| == WORD_BITS
  {
    seq(WORD_BITS, i requires 0 <= i < WORD_BITS => if i + s < WORD_BITS then w[i + s] else w[WORD_BITS - 1])
  }

  /** `x | y` on words. */
  function Or(x: seq<bool>, y: seq<bool>): (r: seq<bool>)
    requires |x| == WORD_BITS && |y| == WORD_BITS
    ensures |r| == WORD_BITS
  {
    seq(WORD_BITS, i requires 0 <= i < WORD_BITS => x[i] || y[i])
  }

  /** `v |= v >> s`. */
  function Smear(w: seq<bool>, s: nat): (r: seq<bool>)
    requires |w| == WORD_BITS
    ensures |r| == WORD_BITS
  {
    Or(w, ShiftRight(w, s))
  }

  /**
   * The steps `v |= v >> s` for s = s, 2s, ... below the word width; from
   * s = 1 these are the five steps with shifts 1, 2, 4, 8 and 16.
   */
  function SmearFrom(w: seq<bool>, s: nat): (r: seq<bool>)
    requires |w| == WORD_BITS && s >= 1
    ensures |r| == WORD_BITS
    decreases WORD_BITS - s
  {
    if s >= WORD_BITS then w else SmearFrom(Smear(w, s), 2 * s)
  }

  /**
   * The smeared word plus one, before the increment wraps: 2^BitLength(a),
   * the least power of two above a.
   */
  function SmearedPlusOne(a: nat): (p: nat)
    requires a < WORD_MODULUS
    ensures p == Exp2(BitLength(a))
  {
    SmearFillsBelowTop(a);
    Value(SmearFrom(ToBits(a, WORD_BITS), 1)) + 1
  }

  /**
   * NextPow2 for the arguments its callers can pass: a 64-bit size narrowed
   * to a signed 32-bit int whose round-up does not overflow, 0 <= v <= 2^30.
   * The decrement and the increment wrap modulo 2^32, so 0 maps to 0.
   */
  function NextPow2(v: nat): (r: nat)
    requires v <= 0x4000_0000
    ensures v == 0 ==> r == 0
    ensures v >= 1 ==> IsPowerOfTwo(r) && v <= r < 2 * v
  {
    var a: nat := (v - 1) % 0x1_0000_0000;
    NextPow2Wraps(v, a);
    SmearedPlusOne(a) % 0x1_0000_0000
  }

  /** The cases of NextPow2: 0 wraps round to 0, anything else gets 2^BitLength(v - 1). */
  lemma NextPow2Wraps(v: nat, a: nat)
    requires v <= 0x4000_0000 && a == (v - 1) % 0x1_0000_0000
    ensures v == 0 ==> SmearedPlusOne(a) % 0x1_0000_0000 == 0
    ensures v >= 1 ==> var r := SmearedPlusOne(a) % 0x1_0000_0000;
      r == Exp2(BitLength(v - 1)) && IsPowerOfTwo(r) && v <= r < 2 * v
  {
    if v == 0 {
      ZeroWraps(a);
    } else {
      PositiveDoesNotWrap(v, a);
    }
  }

  /** 0 - 1 wraps to the all-ones word, which smears to itself, and + 1 wraps back to 0. */
  lemma ZeroWraps(a: nat)
    requires a == (0 - 1) % 0x1_0000_0000
    ensures SmearedPlusOne(a) % 0x1_0000_0000 == 0
  {
    Exp2Literals();
    AllOnesLength(a);
  }

  lemma PositiveDoesNotWrap(v: nat, a: nat)
    requires 1 <= v <= 0x4000_0000 && a == (v - 1) % 0x1_0000_0000
    ensures var r := SmearedPlusOne(a) % 0x1_0000_0000;
      r == Exp2(BitLength(v - 1)) && IsPowerOfTwo(r) && v <= r < 2 * v
  {
    assert a == v - 1;
    var p := SmearedPlusOne(a);
    PositiveRoundUp(v);
    ModSmall(p);
  }

  lemma ModSmall(x: nat)
    requires x < 0x1_0000_0000
    ensures x % 0x1_0000_0000 == x
  {
  }

  lemma PositiveRoundUp(v: nat)
    requires 1 <= v <= 0x4000_0000
    ensures v <= Exp2(BitLength(v - 1)) < 2 * v && Exp2(BitLength(v - 1)) < WORD_MODULUS
  {
    var t := BitLength(v - 1);
    BitLengthBounds(v - 1);
    Exp2Literals();
    if t > 30 {
      ExpMonotone(30, t - 1);
      assert false;
    }
    ExpMonotone(t, 30);
    if t > 0 {
      assert Exp2(t) == 2 * Exp2(t - 1);
    }
  }

  /** -1 as a 32-bit word has all 32 bits significant. */
  lemma AllOnesLength(a: nat)
    requires a == WORD_MODULUS - 1
    ensures BitLength(a) == WORD_BITS
  {
    BitLengthBounds(a);
    SmearFillsBelowTop(a);
    Exp2Literals();
    if BitLength(a) < WORD_BITS {
      ExpMonotone(BitLength(a), 31);
    }
  }

  lemma {:induction false} ExpAdd(j: nat, k: nat)
    ensures Exp2(j + k) == Exp2(j) * Exp2(k)
  {
    if k > 0 {
      ExpAdd(j, k - 1);
      assert Exp2(j + k) == 2 * Exp2(j + k - 1);
    }
  }

  lemma Exp2Literals()
    ensures Exp2(30) == 0x4000_0000 && Exp2(31) == 0x8000_0000 && Exp2(32) == WORD_MODULUS
  {
    assert Exp2(2) == 4;
    assert Exp2(4) == 16;
    ExpAdd(4, 4);
    ExpAdd(8, 8);
    ExpAdd(16, 16);
    ExpAdd(16, 8);
    ExpAdd(24, 4);
    ExpAdd(28, 2);
    ExpAdd(30, 1);
  }

  /** Number of significant bits of a. */
  function BitLength(a: nat): nat
  {
    if a == 0 then 0 else 1 + BitLength(a / 2)
  }

  lemma {:induction false} BitLengthBounds(a: nat)
    ensures a < Exp2(BitLength(a))
    ensures a > 0 ==> Exp2(BitLength(a) - 1) <= a
  {
    if a > 0 {
      BitLengthBounds(a / 2);
    }
  }

  /** A number below 2^n needs at most n bits. */
  lemma {:induction false} BitLengthBelow(a: nat, n: nat)
    requires a < Exp2(n)
    ensures BitLength(a) <= n
  {
    if a > 0 {
      assert n > 0;
      BitLengthBelow(a / 2, n - 1);
    }
  }

  lemma {:induction false} ExpMonotone(j: nat, k: nat)
    requires j <= k
    ensures Exp2(j) <= Exp2(k)
  {
    if j < k {
      ExpMonotone(j, k - 1);
    }
  }

  /** Some bit of w at a position in [lo, hi) is set (positions past w do not count). */
  ghost predicate AnyIn(w: seq<bool>, lo: nat, hi: nat)
  {
    exists j :: lo <= j < hi && j < |w| && w[j]
  }

  /** Bit i of ToBits(a, n) has a set bit at or above it exactly below BitLength(a). */
  lemma {:induction false} ToBitsTop(a: nat, n: nat, i: nat)
    requires a < Exp2(n) && i < n
    ensures AnyIn(ToBits(a, n), i, n) <==> i < BitLength(a)
  {
    var w := ToBits(a, n);
    assert w == [a % 2 == 1] + ToBits(a / 2, n - 1);
    if a == 0 {
      assert forall j :: 0 <= j < n ==> !w[j] by {
        ZeroBits(n);
      }
    } else if i == 0 {
      if a % 2 == 1 {
        assert w[0];
      } else {
        assert a / 2 > 0 && a / 2 < Exp2(n - 1);
        ToBitsTop(a / 2, n - 1, 0);
        var j :| 0 <= j < n - 1 && ToBits(a / 2, n - 1)[j];
        assert w[j + 1];
      }
    } else {
      ToBitsTop(a / 2, n - 1, i - 1);
      if AnyIn(w, i, n) {
        var j :| i <= j < n && w[j];
        assert ToBits(a / 2, n - 1)[j - 1];
      }
      if AnyIn(ToBits(a / 2, n - 1), i - 1, n - 1) {
        var j :| i - 1 <= j < n - 1 && ToBits(a / 2, n - 1)[j];
        assert w[j + 1];
      }
    }
  }

  lemma {:induction false} ZeroBits(n: nat)
    ensures forall j :: 0 <= j < n ==> !ToBits(0, n)[j]
  {
    if n > 0 {
      ZeroBits(n - 1);
    }
  }

  /**
   * One smearing step doubles the window: if every bit of w tells whether a
   * has a set bit in the s positions from it upwards, then so does every bit
   * of Smear(w, s) for 2s positions.
   */
  lemma SmearDoubles(a: seq<bool>, w: seq<bool>, s: nat)
    requires |a| == WORD_BITS && |w| == WORD_BITS && s >= 1
    requires forall i :: 0 <= i < WORD_BITS ==> (w[i] <==> AnyIn(a, i, i + s))
    ensures forall i :: 0 <= i < WORD_BITS ==> (Smear(w, s)[i] <==> AnyIn(a, i, i + 2 * s))
  {
    forall i | 0 <= i < WORD_BITS
      ensures Smear(w, s)[i] <==> AnyIn(a, i, i + 2 * s)
    {
      if AnyIn(a, i, i + 2 * s) {
        var j :| i <= j < i + 2 * s && j < WORD_BITS && a[j];
        if j >= i + s {
          assert i + s < WORD_BITS;
          assert AnyIn(a, i + s, i + 2 * s);
        } else {
          assert AnyIn(a, i, i + s);
        }
      }
      if i + s >= WORD_BITS && w[WORD_BITS - 1] {
        var j :| WORD_BITS - 1 <= j < WORD_BITS - 1 + s && j < WORD_BITS && a[j];
        assert AnyIn(a, i, i + 2 * s);
      }
      if i + s < WORD_BITS && w[i + s] {
        var j :| i + s <= j < i + 2 * s && j < WORD_BITS && a[j];
        assert AnyIn(a, i, i + 2 * s);
      }
    }
  }

  /** After the five steps, bit i of the smeared word tells whether w has a set bit at i or in the 31 positions above it. */
  lemma SmearCoversWord(w0: seq<bool>)
    requires |w0| == WORD_BITS
    ensures forall i :: 0 <= i < WORD_BITS ==> (SmearFrom(w0, 1)[i] <==> AnyIn(w0, i, i + 32))
  {
    forall i | 0 <= i < WORD_BITS
      ensures w0[i] <==> AnyIn(w0, i, i + 1)
    {
      if AnyIn(w0, i, i + 1) {
        var j :| i <= j < i + 1 && j < WORD_BITS && w0[j];
      }
    }
    SmearDoubles(w0, w0, 1);
    var b := Smear(w0, 1);
    SmearDoubles(w0, b, 2);
    var c := Smear(b, 2);
    SmearDoubles(w0, c, 4);
    var d := Smear(c, 4);
    SmearDoubles(w0, d, 8);
    var e := Smear(d, 8);
    SmearDoubles(w0, e, 16);
    var f := Smear(e, 16);
    assert SmearFrom(w0, 1) == SmearFrom(b, 2) == SmearFrom(c, 4) == SmearFrom(d, 8) == SmearFrom(e, 16) == SmearFrom(f, 32) == f;
  }

  /** After the five steps, bit i of the smeared word is set exactly below BitLength(a). */
  lemma SmearFillsBelowTop(a: nat)
    requires a < WORD_MODULUS
    ensures BitLength(a) <= WORD_BITS
    ensures Value(SmearFrom(ToBits(a, WORD_BITS), 1)) + 1 == Exp2(BitLength(a))
  {
    var w0 := ToBits(a, WORD_BITS);
    Exp2Literals();
    SmearCoversWord(w0);
    var f := SmearFrom(w0, 1);
    var t := BitLength(a);
    BitLengthBelow(a, WORD_BITS);
    forall i | 0 <= i < WORD_BITS
      ensures f[i] == (i < t)
    {
      ToBitsTop(a, WORD_BITS, i);
      if AnyIn(w0, i, i + 32) {
        var j :| i <= j < i + 32 && j < WORD_BITS && w0[j];
        assert AnyIn(w0, i, WORD_BITS);
      }
      if AnyIn(w0, i, WORD_BITS) {
        var j :| i <= j < WORD_BITS && j < WORD_BITS && w0[j];
        assert AnyIn(w0, i, i + 32);
      }
    }
    assert f == LowOnes(WORD_BITS, t);
    LowOnesValue(WORD_BITS, t);
  }

  /** The n-bit word whose t lowest bits are set. */
  function LowOnes(n: nat, t: nat): (w: seq<bool>)
    ensures |w| == n
  {
    seq(n, i requires 0 <= i < n => i < t)
  }

  lemma {:induction false} LowOnesValue(n: nat, t: nat)
    requires t <= n
    ensures Value(LowOnes(n, t)) + 1 == Exp2(t)
  {
    if n > 0 {
      var w := LowOnes(n, t);
      if t == 0 {
        assert w[1..] == LowOnes(n - 1, 0);
        LowOnesValue(n - 1, 0);
      } else {
        assert w[1..] == LowOnes(n - 1, t - 1);
        LowOnesValue(n - 1, t - 1);
      }
    }
  }

  /** For 1 <= v <= 2^30, no power of two at least v is below NextPow2(v): it is the least one. */
  lemma NextPow2IsLeast(v: nat, k: nat)
    requires 1 <= v <= 0x4000_0000 && v <= Exp2(k)
    ensures NextPow2(v) <= Exp2(k)
  {
    var t := BitLength(v - 1);
    NextPow2Wraps(v, (v - 1) % 0x1_0000_0000);
    BitLengthBounds(v - 1);
    if k < t {
      ExpMonotone(k, t - 1);
      assert false;
    }
    ExpMonotone(t, k);
  }

  /** From 4 on, NextPow2 is a multiple of 4, so it can hold a request rounded up to 4 bytes. */
  lemma NextPow2MultipleOfFour(v: nat)
    requires 4 <= v <= 0x4000_0000
    ensures NextPow2(v) % 4 == 0
  {
    var t := BitLength(v - 1);
    NextPow2Wraps(v, (v - 1) % 0x1_0000_0000);
    BitLengthBounds(v - 1);
    if t < 2 {
      ExpMonotone(t, 1);
      assert false;
    }
    ExpAdd(2, t - 2);
    assert Exp2(2) == 4;
    ModUnique4(Exp2(t), Exp2(t - 2));
  }

  lemma ModUnique4(x: nat, q: nat)
    requires x == 4 * q
    ensures x % 4 == 0
  {
  }
}
