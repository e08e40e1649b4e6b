/** Natural numbers as bit patterns of any width. */
module Bits {

  /** The number of binary digits: one more than the position of the highest set bit, 0 for 0. */
  function Len(n: nat): nat {
    if n == 0 then 0 else 1 + Len(n / 2)
  }

  function Pow2(k: nat): (p: nat)
    ensures p > 0
  {
    if k == 0 then 1 else 2 * Pow2(k - 1)
  }

  function Shr(n: nat, k: nat): nat {
    QuotientIsNat(n, Pow2(k));
    n / Pow2(k)
  }

  lemma QuotientIsNat(n: nat, p: nat)
    requires p > 0
    ensures n / p >= 0
  {
    MultipleFar(p, n / p);
  }

  function Shl(n: nat, k: nat): nat {
    n * Pow2(k)
  }

  predicate Bit(n: nat, i: nat) {
    if i == 0 then n % 2 == 1 else Bit(n / 2, i - 1)
  }

  function Or(a: nat, b: nat): nat
    decreases a + b
  {
    if a == 0 then b else if b == 0 then a
    else 2 * Or(a / 2, b / 2) + if a % 2 == 1 || b % 2 == 1 then 1 else 0
  }

  function And(a: nat, b: nat): nat {
    if a == 0 || b == 0 then 0
    else 2 * And(a / 2, b / 2) + if a % 2 == 1 && b % 2 == 1 then 1 else 0
  }

  // ---- lengths ----

  /** The bit length tells between which powers of two a number lies. */
  lemma {:induction false} LenBound(n: nat, k: nat)
    ensures Len(n) <= k <==> n < Pow2(k)
  {
    if k != 0 && n != 0 {
      LenBound(n / 2, k - 1);
    }
  }

  lemma {:induction false} LenShr(n: nat, k: nat)
    ensures Len(Shr(n, k)) == if Len(n) <= k then 0 else Len(n) - k
  {
    if k != 0 {
      ShrStep(n, k);
      LenShr(n / 2, k - 1);
    }
  }

  lemma {:induction false} LenShl(n: nat, k: nat)
    requires n > 0
    ensures Len(n * Pow2(k)) == Len(n) + k
  {
    if k != 0 {
      LenShl(n, k - 1);
      assert n * Pow2(k) == 2 * (n * Pow2(k - 1));
    }
  }

  /** Narrowing: moving right by `w` if the upper part is not empty accounts for `w` of the length or for none. */
  lemma NarrowStep(v: nat, w: nat, shift: nat)
    requires shift == if v >= Pow2(w) then w else 0
    ensures Len(v) == shift + Len(Shr(v, shift))
    ensures Len(v) <= 2 * w ==> Len(Shr(v, shift)) <= w
  {
    LenBound(v, w);
    LenShr(v, shift);
  }

  /** Widening: a number whose upper `s` of `width` bits are empty can move left by `s` without losing a bit. */
  lemma WidenStep(v: nat, width: nat, s: nat)
    requires s <= width && v > 0
    ensures Shr(v, width - s) == 0 <==> Len(v) + s <= width
    ensures Shl(v, s) > 0 && Len(Shl(v, s)) == Len(v) + s
    ensures Len(v) + s <= width <==> Shl(v, s) < Pow2(width)
  {
    LenShr(v, width - s);
    LenShl(v, s);
    LenBound(Shl(v, s), width);
  }

  /** One place at a time. */
  lemma ShrStep(n: nat, k: nat)
    ensures k != 0 ==> Shr(n, k) == Shr(n / 2, k - 1)
  {
    if k != 0 {
      DivTwice(n, Pow2(k - 1));
    }
  }

  lemma DivTwice(n: nat, p: nat)
    requires p > 0
    ensures n / 2 / p == n / (2 * p)
  {
    var q, r := n / 2 / p, n / 2 % p;
    assert n / 2 == p * q + r;
    var rest := 2 * r + n % 2;
    assert n == 2 * p * q + rest by {
      assert 2 * (p * q) == 2 * p * q;
    }
    DivModUnique(n, 2 * p, q, rest);
  }

  lemma DivModUnique(n: nat, p: nat, q: nat, r: nat)
    requires n == p * q + r && r < p
    ensures n / p == q && n % p == r
  {
    NoMultipleBetween(p, q - n / p, n % p - r) by {
      Distribute(p, q, n / p);
    }
  }

  lemma Distribute(p: int, a: int, b: int)
    ensures p * (a - b) == p * a - p * b
  {
  }

  lemma NoMultipleBetween(p: int, d: int, x: int)
    requires p > 0 && p * d == x && -p < x < p
    ensures d == 0 && x == 0
  {
    MultipleFar(p, d);
  }

  lemma MultipleFar(p: int, d: int)
    requires p > 0
    ensures d > 0 ==> p * d >= p
    ensures d < 0 ==> p * d <= -p
  {
    if d > 0 {
      assert p * d >= p * 1;
    } else if d < 0 {
      assert p * d <= p * -1;
    }
  }

  // ---- single bits ----

  lemma {:induction false} BitShr(n: nat, k: nat, i: nat)
    ensures Bit(Shr(n, k), i) == Bit(n, i + k)
  {
    if k != 0 {
      ShrStep(n, k);
      BitShr(n / 2, k - 1, i);
    }
  }

  lemma {:induction false} BitOr(a: nat, b: nat, i: nat)
    ensures Bit(Or(a, b), i) == (Bit(a, i) || Bit(b, i))
    decreases i
  {
    if a == 0 || b == 0 {
      NoBits(i);
    } else if i != 0 {
      BitOr(a / 2, b / 2, i - 1);
    }
  }

  /** Or with bits below a multiple of a power of two adds them. */
  lemma {:induction false} OrAbove(k: nat, high: nat, low: nat)
    requires low < Pow2(k)
    ensures Or(high * Pow2(k), low) == high * Pow2(k) + low
  {
    if k != 0 {
      var h := high * Pow2(k - 1);
      OrAbove(k - 1, high, low / 2);
      assert high * Pow2(k) == 2 * h by {
        Associate(high, Pow2(k - 1));
      }
      OrDoubled(h, low);
    }
  }

  lemma Associate(a: nat, b: nat)
    ensures a * (2 * b) == 2 * (a * b)
  {
  }

  lemma OrDoubled(h: nat, low: nat)
    ensures Or(2 * h, low) == 2 * Or(h, low / 2) + low % 2
  {
    OrHalves(2 * h, low);
  }

  lemma OrHalves(a: nat, b: nat)
    ensures Or(a, b) == 2 * Or(a / 2, b / 2) + if a % 2 == 1 || b % 2 == 1 then 1 else 0
  {
  }

  lemma {:induction false} NoBits(i: nat)
    ensures !Bit(0, i)
  {
    if i != 0 {
      NoBits(i - 1);
    }
  }

  lemma {:induction false} TopBit(n: nat, i: nat)
    ensures i >= Len(n) ==> !Bit(n, i)
    ensures i + 1 == Len(n) ==> Bit(n, i)
    decreases i
  {
    if n == 0 {
      NoBits(i);
    } else if i != 0 {
      TopBit(n / 2, i - 1);
    } else {
      assert Len(n) == 1 ==> n / 2 == 0;
    }
  }

  // ---- smearing ----

  /** The highest `k` of `len` bits are set, and none above. */
  ghost predicate Filled(n: nat, len: nat, k: nat) {
    forall i: nat ::
      && (i < len <= i + k ==> Bit(n, i))
      && (i >= len ==> !Bit(n, i))
  }

  lemma FilledAtFirst(n: nat)
    ensures Filled(n, Len(n), 1)
  {
    forall i: nat
      ensures (i < Len(n) <= i + 1 ==> Bit(n, i)) && (i >= Len(n) ==> !Bit(n, i))
    {
      TopBit(n, i);
    }
  }

  /** One step `n |= n >> k` doubles the run of ones at the top, whatever the width. */
  lemma SmearStep(n: nat, len: nat, k: nat)
    requires Filled(n, len, k)
    ensures Filled(Or(n, Shr(n, k)), len, 2 * k)
  {
    forall i: nat
      ensures i < len <= i + 2 * k ==> Bit(Or(n, Shr(n, k)), i)
      ensures i >= len ==> !Bit(Or(n, Shr(n, k)), i)
    {
      BitOr(n, Shr(n, k), i);
      BitShr(n, k, i);
    }
  }

  /** Once the run covers the whole length the number is one below a power of two. */
  lemma {:induction false} FilledCompletely(n: nat, len: nat, k: nat)
    requires Filled(n, len, k) && len <= k
    ensures n == Pow2(len) - 1
  {
    if len == 0 {
      NoBitsIsZero(n);
    } else {
      forall i: nat
        ensures (i < len - 1 <= i + k ==> Bit(n / 2, i)) && (i >= len - 1 ==> !Bit(n / 2, i))
      {
        assert Bit(n, i + 1) == Bit(n / 2, i);
      }
      FilledCompletely(n / 2, len - 1, k);
      assert Bit(n, 0);
    }
  }

  lemma {:induction false} NoBitsIsZero(n: nat)
    requires forall i: nat :: !Bit(n, i)
    ensures n == 0
  {
    if n != 0 {
      TopBit(n, Len(n) - 1);
    }
  }

  // ---- counting ones, several fields at a time ----

  function Ones(n: nat): nat {
    if n == 0 then 0 else n % 2 + Ones(n / 2)
  }

  lemma {:induction false} OnesOfFull(k: nat)
    ensures Ones(Pow2(k) - 1) == k
  {
    if k != 0 {
      OnesOfFull(k - 1);
      assert (Pow2(k) - 1) / 2 == Pow2(k - 1) - 1;
    }
  }

  /** The number with these digits, the lowest first. */
  function Value(digits: seq<nat>, base: nat): nat {
    if digits == [] then 0 else digits[0] + base * Value(digits[1..], base)
  }

  function Sum(digits: seq<nat>): nat {
    if digits == [] then 0 else digits[0] + Sum(digits[1..])
  }

  ghost predicate AtMost(digits: seq<nat>, bound: nat) {
    forall i :: 0 <= i < |digits| ==> digits[i] <= bound
  }

  /** The lowest `k` binary digits of `n`. */
  function Binary(n: nat, k: nat): (digits: seq<nat>)
    ensures |digits| == k && forall i :: 0 <= i < k ==> digits[i] <= 1
  {
    if k == 0 then [] else [n % 2] + Binary(n / 2, k - 1)
  }

  lemma {:induction false} BinaryValue(n: nat, k: nat)
    requires n < Pow2(k)
    ensures Value(Binary(n, k), 2) == n && Sum(Binary(n, k)) == Ones(n)
  {
    if k != 0 {
      BinaryValue(n / 2, k - 1);
      assert Binary(n, k)[1..] == Binary(n / 2, k - 1);
    }
  }

  lemma {:induction false} ValueBound(digits: seq<nat>, w: nat)
    requires forall i :: 0 <= i < |digits| ==> digits[i] < Pow2(w)
    ensures Value(digits, Pow2(w)) < Pow2(w * |digits|)
  {
    if digits != [] {
      var rest, upper := digits[1..], w * (|digits| - 1);
      ValueBound(rest, w);
      assert Pow2(w * |digits|) == Pow2(w) * Pow2(upper) by {
        assert w * |digits| == w + upper;
        Pow2Sum(w, upper);
      }
      BelowProduct(digits[0], Value(rest, Pow2(w)), Pow2(w), Pow2(upper));
    } else {
      assert w * |digits| == 0;
    }
  }

  lemma BelowProduct(d: nat, v: nat, p: nat, q: nat)
    requires d < p && v < q
    ensures d + p * v < p * q
  {
    assert p * v <= p * (q - 1);
    assert p * (q - 1) == p * q - p;
  }

  function Evens(digits: seq<nat>): (r: seq<nat>) {
    if |digits| < 2 then [] else [digits[0]] + Evens(digits[2..])
  }

  function Odds(digits: seq<nat>): seq<nat> {
    if |digits| < 2 then [] else [digits[1]] + Odds(digits[2..])
  }

  function PairSums(digits: seq<nat>): (r: seq<nat>)
    ensures |r| == |digits| / 2
  {
    if |digits| < 2 then [] else [digits[0] + digits[1]] + PairSums(digits[2..])
  }

  /** Ones in the lower half of every field of `2 * w` bits, for `k` fields. */
  function Mask(w: nat, k: nat): nat {
    if k == 0 then 0 else Pow2(w) - 1 + Pow2(2 * w) * Mask(w, k - 1)
  }

  lemma {:induction false} PairSumsKeepSum(digits: seq<nat>, bound: nat)
    requires |digits| % 2 == 0 && AtMost(digits, bound)
    ensures Sum(PairSums(digits)) == Sum(digits) && AtMost(PairSums(digits), 2 * bound)
  {
    if digits != [] {
      PairSumsKeepSum(digits[2..], bound);
      assert digits[1..][1..] == digits[2..];
      assert PairSums(digits)[1..] == PairSums(digits[2..]);
    }
  }

  lemma {:induction false} PairSumsValue(digits: seq<nat>, base: nat)
    requires |digits| % 2 == 0
    ensures Value(PairSums(digits), base) == Value(Evens(digits), base) + Value(Odds(digits), base)
  {
    if digits != [] {
      var rest := digits[2..];
      PairSumsValue(rest, base);
      assert Evens(digits)[1..] == Evens(rest) && Odds(digits)[1..] == Odds(rest);
      assert PairSums(digits)[1..] == PairSums(rest);
      Add(base, Value(Evens(rest), base), Value(Odds(rest), base));
    }
  }

  lemma Add(p: nat, a: nat, b: nat)
    ensures p * (a + b) == p * a + p * b
  {
  }

  /** A number is its even digits plus its odd digits moved up by one place. */
  lemma {:induction false} EvensAndOdds(digits: seq<nat>, base: nat)
    requires |digits| % 2 == 0
    ensures Value(digits, base) == Value(Evens(digits), base * base) + base * Value(Odds(digits), base * base)
  {
    if digits != [] {
      var rest := digits[2..];
      EvensAndOdds(rest, base);
      TwoDigits(digits, base);
      assert Evens(digits)[1..] == Evens(rest) && Odds(digits)[1..] == Odds(rest);
      Regroup(digits[0], digits[1], Value(Evens(rest), base * base), Value(Odds(rest), base * base), base, base * base);
    }
  }

  lemma Regroup(d0: nat, d1: nat, e: nat, o: nat, base: nat, square: nat)
    ensures d0 + base * d1 + square * (e + base * o) == d0 + square * e + base * (d1 + square * o)
  {
    Add(square, e, base * o);
    Add(base, d1, square * o);
    Swap(square, base, o);
  }

  lemma Swap(a: nat, b: nat, c: nat)
    ensures a * (b * c) == b * (a * c)
  {
  }

  lemma TwoDigits(digits: seq<nat>, base: nat)
    requires |digits| >= 2
    ensures Value(digits, base) == digits[0] + base * digits[1] + base * base * Value(digits[2..], base)
  {
    var v := Value(digits[2..], base);
    assert Value(digits[1..], base) == digits[1] + base * v by {
      assert digits[1..][1..] == digits[2..];
    }
    Multiplied(digits[1], v, base);
  }

  lemma Multiplied(d: nat, v: nat, base: nat)
    ensures base * (d + base * v) == base * d + base * base * v
  {
  }

  // ---- masks ----

  lemma {:induction false} Pow2Double(w: nat)
    ensures Pow2(2 * w) == Pow2(w) * Pow2(w)
  {
    if w != 0 {
      Pow2Double(w - 1);
      assert Pow2(2 * w) == 2 * Pow2(2 * w - 1) == 4 * Pow2(2 * (w - 1));
      assert (2 * Pow2(w - 1)) * (2 * Pow2(w - 1)) == 4 * (Pow2(w - 1) * Pow2(w - 1));
    }
  }

  /** The mask in closed form. */
  lemma {:induction false} MaskClosed(w: nat, k: nat)
    ensures Mask(w, k) * (Pow2(w) + 1) == Pow2(2 * w * k) - 1
  {
    if k != 0 {
      MaskClosed(w, k - 1);
      Pow2Double(w);
      Pow2Sum(2 * w, 2 * w * (k - 1));
      assert 2 * w * k == 2 * w + 2 * w * (k - 1);
      MaskClosedStep(Pow2(w), Mask(w, k - 1), Pow2(2 * w * (k - 1)));
    }
  }

  lemma MaskClosedStep(p: nat, mask: nat, q: nat)
    requires mask * (p + 1) == q - 1
    ensures (p - 1 + p * p * mask) * (p + 1) == p * p * q - 1
  {
    assert (p - 1) * (p + 1) == p * p - 1;
    assert (p * p * mask) * (p + 1) == p * p * (mask * (p + 1)) == p * p * (q - 1);
  }

  lemma {:induction false} Pow2Sum(a: nat, b: nat)
    ensures Pow2(a + b) == Pow2(a) * Pow2(b)
  {
    if a != 0 {
      Pow2Sum(a - 1, b);
      Double(Pow2(a - 1), Pow2(b));
    }
  }

  /** `&` works on the lower `w` bits and on the rest separately. */
  lemma {:induction false} AndSplit(w: nat, lo: nat, hi: nat, lo': nat, hi': nat)
    requires lo < Pow2(w) && lo' < Pow2(w)
    ensures And(lo + Pow2(w) * hi, lo' + Pow2(w) * hi') == And(lo, lo') + Pow2(w) * And(hi, hi')
  {
    if w != 0 {
      AndSplit(w - 1, lo / 2, hi, lo' / 2, hi');
      AndSplitStep(Pow2(w - 1), lo, hi, lo', hi', And(hi, hi'));
    }
  }

  lemma AndSplitStep(p: nat, lo: nat, hi: nat, lo': nat, hi': nat, high: nat)
    requires And(lo / 2 + p * hi, lo' / 2 + p * hi') == And(lo / 2, lo' / 2) + p * high
    ensures And(lo + 2 * p * hi, lo' + 2 * p * hi') == And(lo, lo') + 2 * p * high
  {
    AndDoubled(lo, lo', p * hi, p * hi', p * high);
    Double(p, hi);
    Double(p, hi');
    Double(p, high);
  }

  lemma Double(p: nat, x: nat)
    ensures 2 * p * x == 2 * (p * x)
  {
  }

  lemma AndDoubled(lo: nat, lo': nat, x: nat, y: nat, z: nat)
    requires And(lo / 2 + x, lo' / 2 + y) == And(lo / 2, lo' / 2) + z
    ensures And(lo + 2 * x, lo' + 2 * y) == And(lo, lo') + 2 * z
  {
    AndHalves(lo + 2 * x, lo' + 2 * y);
    AndHalves(lo, lo');
    assert (lo + 2 * x) / 2 == lo / 2 + x && (lo' + 2 * y) / 2 == lo' / 2 + y;
  }

  lemma AndHalves(a: nat, b: nat)
    ensures And(a, b) == 2 * And(a / 2, b / 2) + if a % 2 == 1 && b % 2 == 1 then 1 else 0
  {
  }

  lemma {:induction false} AndFull(w: nat, n: nat)
    requires n < Pow2(w)
    ensures And(n, Pow2(w) - 1) == n
  {
    if w != 0 {
      AndFull(w - 1, n / 2);
      AndHalves(n, Pow2(w) - 1);
      assert (Pow2(w) - 1) / 2 == Pow2(w - 1) - 1;
    }
  }

  /** Masking the lower half of every field keeps the even digits to base `Pow2(w)`. */
  lemma {:induction false} MaskKeepsEvens(digits: seq<nat>, w: nat)
    requires |digits| % 2 == 0 && forall i :: 0 <= i < |digits| ==> digits[i] < Pow2(w)
    ensures And(Value(digits, Pow2(w)), Mask(w, |digits| / 2)) == Value(Evens(digits), Pow2(2 * w))
  {
    if digits != [] {
      var rest := digits[2..];
      MaskKeepsEvens(rest, w);
      TwoDigits(digits, Pow2(w));
      MaskLowestField(w, digits[0], digits[1], Value(rest, Pow2(w)), Mask(w, |rest| / 2));
      EvensValue(digits, Pow2(2 * w));
    }
  }

  lemma EvensValue(digits: seq<nat>, base: nat)
    requires |digits| >= 2
    ensures Value(Evens(digits), base) == digits[0] + base * Value(Evens(digits[2..]), base)
  {
    assert Evens(digits)[1..] == Evens(digits[2..]);
  }

  lemma MaskLowestField(w: nat, d0: nat, d1: nat, upper: nat, mask: nat)
    requires d0 < Pow2(w) && d1 < Pow2(w)
    ensures And(d0 + Pow2(w) * d1 + Pow2(w) * Pow2(w) * upper, Pow2(w) - 1 + Pow2(2 * w) * mask)
         == d0 + Pow2(2 * w) * And(upper, mask)
  {
    Pow2Double(w);
    FieldFits(d0, d1, Pow2(w));
    AndSplit(2 * w, d0 + Pow2(w) * d1, upper, Pow2(w) - 1, mask);
    MaskKeepsLower(w, d0, d1);
  }

  lemma MaskKeepsLower(w: nat, lo: nat, hi: nat)
    requires lo < Pow2(w)
    ensures And(lo + Pow2(w) * hi, Pow2(w) - 1) == lo
  {
    AndSplit(w, lo, hi, Pow2(w) - 1, 0);
    AndFull(w, lo);
    assert Pow2(w) - 1 + Pow2(w) * 0 == Pow2(w) - 1 && And(hi, 0) == 0;
  }

  lemma FieldFits(d0: nat, d1: nat, p: nat)
    requires d0 < p && d1 < p
    ensures d0 + p * d1 < p * p && p - 1 < p * p
  {
    assert p * d1 <= p * (p - 1);
    assert p * (p - 1) == p * p - p;
  }

  // ---- adding neighbouring fields ----

  lemma ShrDigits(digits: seq<nat>, w: nat)
    requires digits != [] && digits[0] < Pow2(w)
    ensures Shr(Value(digits, Pow2(w)), w) == Value(digits[1..] + [0], Pow2(w))
  {
    var n, p := Value(digits, Pow2(w)), Pow2(w);
    DivModUnique(n, p, Value(digits[1..], p), digits[0]);
    TrailingZero(digits[1..], p);
  }

  lemma {:induction false} TrailingZero(digits: seq<nat>, base: nat)
    ensures Value(digits + [0], base) == Value(digits, base)
  {
    if digits == [] {
      assert [0][1..] == [];
      assert Value([0], base) == 0 + base * Value([], base);
    } else {
      TrailingZero(digits[1..], base);
      assert (digits + [0])[1..] == digits[1..] + [0];
    }
  }

  lemma {:induction false} EvensOfRest(digits: seq<nat>)
    requires |digits| % 2 == 0 && digits != []
    ensures Evens(digits[1..] + [0]) == Odds(digits)
  {
    var rest := digits[2..];
    assert (digits[1..] + [0])[0] == digits[1];
    assert (digits[1..] + [0])[2..] == if rest == [] then [] else rest[1..] + [0];
    if rest != [] {
      EvensOfRest(rest);
    }
  }

  /** The two masked parts of a word: its even fields, and its odd fields moved down. */
  lemma MaskedParts(digits: seq<nat>, w: nat)
    requires |digits| % 2 == 0 && digits != [] && forall i :: 0 <= i < |digits| ==> digits[i] < Pow2(w)
    ensures var n, mask := Value(digits, Pow2(w)), Mask(w, |digits| / 2);
            && And(n, mask) == Value(Evens(digits), Pow2(2 * w))
            && And(Shr(n, w), mask) == Value(Odds(digits), Pow2(2 * w))
  {
    MaskKeepsEvens(digits, w);
    ShrDigits(digits, w);
    MaskKeepsEvens(digits[1..] + [0], w);
    EvensOfRest(digits);
  }

  /** `(n & mask) + ((n >> w) & mask)` adds every field of `w` bits to its neighbour. */
  lemma AddFields(digits: seq<nat>, w: nat)
    requires |digits| % 2 == 0 && digits != [] && forall i :: 0 <= i < |digits| ==> digits[i] < Pow2(w)
    ensures var n, mask := Value(digits, Pow2(w)), Mask(w, |digits| / 2);
            And(n, mask) + And(Shr(n, w), mask) == Value(PairSums(digits), Pow2(2 * w))
  {
    MaskedParts(digits, w);
    PairSumsValue(digits, Pow2(2 * w));
  }

  /** For fields of one bit, `n - ((n >> 1) & mask)` does the same. */
  lemma SubtractFields(digits: seq<nat>)
    requires |digits| % 2 == 0 && digits != [] && forall i :: 0 <= i < |digits| ==> digits[i] < 2
    ensures var n := Value(digits, 2);
            n - And(Shr(n, 1), Mask(1, |digits| / 2)) == Value(PairSums(digits), 4)
  {
    MaskedParts(digits, 1);
    PairSumsValue(digits, 4);
    EvensAndOdds(digits, 2);
  }

  function Added(a: seq<nat>, b: seq<nat>): (r: seq<nat>)
    requires |a| == |b|
    ensures |r| == |a| && forall i :: 0 <= i < |a| ==> r[i] == a[i] + b[i]
  {
    if a == [] then [] else [a[0] + b[0]] + Added(a[1..], b[1..])
  }

  lemma {:induction false} AddedValue(a: seq<nat>, b: seq<nat>, base: nat)
    requires |a| == |b|
    ensures Value(Added(a, b), base) == Value(a, base) + Value(b, base)
  {
    if a != [] {
      AddedValue(a[1..], b[1..], base);
      assert Added(a, b)[1..] == Added(a[1..], b[1..]);
      Add(base, Value(a[1..], base), Value(b[1..], base));
    }
  }

  lemma {:induction false} EvensOfNeighbours(digits: seq<nat>)
    requires |digits| % 2 == 0 && digits != []
    ensures Evens(Added(digits, digits[1..] + [0])) == PairSums(digits)
  {
    var rest := digits[2..];
    var added := Added(digits, digits[1..] + [0]);
    assert Evens(added[2..]) == PairSums(rest) by {
      if rest == [] {
        assert added[2..] == [];
      } else {
        EvensOfNeighbours(rest);
        AddedTail(digits, digits[1..] + [0]);
        assert (digits[1..] + [0])[2..] == rest[1..] + [0];
      }
    }
    assert added[0] == digits[0] + digits[1];
  }

  lemma AddedTail(a: seq<nat>, b: seq<nat>)
    requires |a| == |b| >= 2
    ensures Added(a, b)[2..] == Added(a[2..], b[2..])
  {
  }

  /** Neighbours of fields that are small enough can be added without a carry out of any field. */
  lemma NeighboursFit(digits: seq<nat>, w: nat, bound: nat)
    requires digits != [] && AtMost(digits, bound) && 2 * bound < Pow2(w)
    ensures Value(digits, Pow2(w)) + Shr(Value(digits, Pow2(w)), w) < Pow2(w * |digits|)
  {
    var moved := digits[1..] + [0];
    ShrDigits(digits, w);
    AddedValue(digits, moved, Pow2(w));
    ValueBound(Added(digits, moved), w);
  }

  /** `(n + (n >> w)) & mask` does it too, where no sum of two fields overflows. */
  lemma AddThenMask(digits: seq<nat>, w: nat, bound: nat)
    requires |digits| % 2 == 0 && digits != [] && AtMost(digits, bound) && 2 * bound < Pow2(w)
    ensures var n := Value(digits, Pow2(w));
            And(n + Shr(n, w), Mask(w, |digits| / 2)) == Value(PairSums(digits), Pow2(2 * w))
  {
    var moved := digits[1..] + [0];
    var added := Added(digits, moved);
    assert Value(digits, Pow2(w)) + Shr(Value(digits, Pow2(w)), w) == Value(added, Pow2(w)) by {
      ShrDigits(digits, w);
      AddedValue(digits, moved, Pow2(w));
    }
    assert Evens(added) == PairSums(digits) by {
      EvensOfNeighbours(digits);
    }
    MaskKeepsEvens(added, w);
  }
}
