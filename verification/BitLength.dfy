/**
 The ways to find the highest set bit in `languages/cxx/t/higher_bit.cpp`. The loop of `bits0` counts what
 `Bits.Len` defines; the other forms are shown to return the same. Unsigned 32-bit arithmetic wraps at `U32`.
 */
module BitLength {
  import opened Bits

  type uint32 = n: nat | n < 0x1_0000_0000

  function U32(x: int): uint32 {
    x % 0x1_0000_0000
  }

  method Bits0(num: uint32) returns (count: nat)
    ensures count == Len(num)
  {
    var n := num;
    count := 0;
    while n != 0
      invariant count + Len(n) == Len(num)
      decreases n
    {
      assert Shr(n, 1) == n / 2;
      n := Shr(n, 1);
      count := count + 1;
    }
  }

  // ---- smear and count ----

  lemma Smear(num: uint32, n1: nat, n2: nat, n4: nat, n8: nat, n16: nat)
    requires n1 == Or(num, Shr(num, 1)) && n2 == Or(n1, Shr(n1, 2)) && n4 == Or(n2, Shr(n2, 4))
    requires n8 == Or(n4, Shr(n4, 8)) && n16 == Or(n8, Shr(n8, 16))
    ensures n16 == Pow2(Len(num)) - 1
  {
    var len := Len(num);
    FilledAtFirst(num);
    SmearStep(num, len, 1);
    SmearStep(n1, len, 2);
    SmearStep(n2, len, 4);
    SmearStep(n4, len, 8);
    SmearStep(n8, len, 16);
    LenIsAtMost32(num);
    FilledCompletely(n16, len, 32);
  }

  lemma LenIsAtMost32(num: uint32)
    ensures Len(num) <= 32
  {
    LenBound(num, 32);
    Powers();
  }

  lemma Powers()
    ensures Pow2(2) == 4 && Pow2(4) == 0x10 && Pow2(8) == 0x100 && Pow2(16) == 0x1_0000 && Pow2(20) == 0x10_0000
    ensures Pow2(24) == 0x100_0000 && Pow2(32) == 0x1_0000_0000
  {
  }

  lemma Masks()
    ensures Mask(1, 16) == 0x55555555 && Mask(2, 8) == 0x33333333 && Mask(4, 4) == 0xF0F0F0F
  {
    Powers();
    assert Mask(1, 16) == 0x55555555 by { assert Pow2(1) == 2; MaskClosed(1, 16); }
    assert Mask(2, 8) == 0x33333333 by { MaskClosed(2, 8); }
    assert Mask(4, 4) == 0xF0F0F0F by { MaskClosed(4, 4); }
  }

  lemma FourDigits(digits: seq<nat>, base: nat)
    requires |digits| == 4
    ensures Sum(digits) == digits[0] + digits[1] + digits[2] + digits[3]
    ensures Value(digits, base) ==
            digits[0] + base * (digits[1] + base * (digits[2] + base * (digits[3] + base * 0)))
  {
    var r1, r2, r3, r4 := digits[1..], digits[2..], digits[3..], digits[4..];
    assert r1[1..] == r2 && r2[1..] == r3 && r3[1..] == r4 && r4 == [];
    assert Sum(r4) == 0 && Sum(r3) == digits[3] && Sum(r2) == digits[2] + Sum(r3) && Sum(r1) == digits[1] + Sum(r2);
    assert Value(r4, base) == 0 && Value(r3, base) == digits[3] + base * 0;
    assert Value(r2, base) == digits[2] + base * Value(r3, base);
    assert Value(r1, base) == digits[1] + base * Value(r2, base);
  }

  lemma FourBytes(digits: seq<nat>)
    requires |digits| == 4 && AtMost(digits, 8)
    ensures Value(digits, 256) <= 0x8080808
    ensures Shr(U32(Value(digits, 256) * 0x1010101), 24) == Sum(digits) <= 32
  {
    var a, b, c, d := digits[0], digits[1], digits[2], digits[3];
    FourDigits(digits, 256);
    Multiplied(a, b, c, d);
    Powers();
  }

  lemma Multiplied(a: nat, b: nat, c: nat, d: nat)
    requires a <= 8 && b <= 8 && c <= 8 && d <= 8
    ensures U32((a + 256 * (b + 256 * (c + 256 * d))) * 0x1010101) / 0x100_0000 == a + b + c + d
  {
    var low := a + 256 * (a + b) + 65536 * (a + b + c);
    var high := b + c + d + 256 * (c + d) + 65536 * d;
    var product := (a + 256 * (b + 256 * (c + 256 * d))) * 0x1010101;
    DivModUnique(product, 0x1_0000_0000, high, low + 0x100_0000 * (a + b + c + d));
    DivModUnique(low + 0x100_0000 * (a + b + c + d), 0x100_0000, a + b + c + d, low);
  }

  /** What the word `a` of fields of `w` bits holds while the ones of `word` are being added up. */
  ghost predicate Counts(word: uint32, digits: seq<nat>, fields: nat, bound: nat) {
    |digits| == fields && AtMost(digits, bound) && Sum(digits) == Ones(word)
  }

  lemma BitsCount(word: uint32)
    ensures Counts(word, Binary(word, 32), 32, 1) && Value(Binary(word, 32), 2) == word
  {
    Powers();
    BinaryValue(word, 32);
  }

  lemma PairsCount(word: uint32, bits: seq<nat>)
    requires Counts(word, bits, 32, 1) && word == Value(bits, 2)
    ensures Counts(word, PairSums(bits), 16, 2)
    ensures 0 <= word - And(Shr(word, 1), 0x55555555) == Value(PairSums(bits), 4)
  {
    Masks();
    SubtractFields(bits);
    PairSumsKeepSum(bits, 1);
  }

  lemma NibblesCount(word: uint32, pairs: seq<nat>, a: nat)
    requires Counts(word, pairs, 16, 2) && a == Value(pairs, 4)
    ensures Counts(word, PairSums(pairs), 8, 4)
    ensures And(a, 0x33333333) + And(Shr(a, 2), 0x33333333) == Value(PairSums(pairs), 16)
  {
    Powers();
    Masks();
    AddFields(pairs, 2);
    PairSumsKeepSum(pairs, 2);
  }

  lemma BytesCount(word: uint32, nibbles: seq<nat>, a: nat)
    requires Counts(word, nibbles, 8, 4) && a == Value(nibbles, 16)
    ensures Counts(word, PairSums(nibbles), 4, 8)
    ensures a + Shr(a, 4) < 0x1_0000_0000
    ensures And(a + Shr(a, 4), 0xF0F0F0F) == Value(PairSums(nibbles), 256)
  {
    Powers();
    NeighboursFit(nibbles, 4, 4);
    BytesMasked(nibbles);
    PairSumsKeepSum(nibbles, 4);
  }

  lemma BytesMasked(nibbles: seq<nat>)
    requires |nibbles| == 8 && AtMost(nibbles, 4)
    ensures And(Value(nibbles, 16) + Shr(Value(nibbles, 16), 4), 0xF0F0F0F) == Value(PairSums(nibbles), 256)
  {
    Powers();
    Masks();
    AddThenMask(nibbles, 4, 4);
  }

  method Bits2(num: uint32) returns (a: uint32)
    ensures a == Len(num)
  {
    var n: nat := num;
    n := Or(n, Shr(n, 1));
    ghost var n1 := n;
    n := Or(n, Shr(n, 2));
    ghost var n2 := n;
    n := Or(n, Shr(n, 4));
    ghost var n4 := n;
    n := Or(n, Shr(n, 8));
    ghost var n8 := n;
    n := Or(n, Shr(n, 16));
    Smear(num, n1, n2, n4, n8, n);
    SmearedFits(num);
    a := CountOnes(n);
  }

  lemma NoWrap(x: int)
    requires 0 <= x < 0x1_0000_0000
    ensures U32(x) == x
  {
  }

  method CountOnes(word: uint32) returns (r: uint32)
    ensures r == Ones(word)
  {
    ghost var a1, a2, a3 := FieldsCount(word);
    NoWrap(a1);
    var a: uint32 := U32(word - And(Shr(word, 1), 0x55555555));
    assert a == a1;
    NoWrap(a2);
    a := U32(And(a, 0x33333333) + And(Shr(a, 2), 0x33333333));
    assert a == a2;
    NoWrap(a2 + Shr(a2, 4));
    a := And(U32(a + Shr(a, 4)), 0xF0F0F0F);
    assert a == a3;
    a := U32(a * 0x1010101);
    r := Shr(a, 24);
  }

  /** Subtraction, sums and multiplication count the ones of any word, and nothing but the last of them wraps. */
  lemma FieldsCount(word: uint32) returns (a1: nat, a2: nat, a3: nat)
    ensures a1 == word - And(Shr(word, 1), 0x55555555) && a1 < 0x1_0000_0000
    ensures a2 == And(a1, 0x33333333) + And(Shr(a1, 2), 0x33333333) && a2 + Shr(a2, 4) < 0x1_0000_0000
    ensures a3 == And(a2 + Shr(a2, 4), 0xF0F0F0F) && a3 <= 0x8080808
    ensures Shr(U32(a3 * 0x1010101), 24) == Ones(word) <= 32
  {
    var bits := Binary(word, 32);
    var pairs := PairSums(bits);
    var nibbles := PairSums(pairs);
    BitsCount(word);
    PairsCount(word, bits);
    a1 := Value(pairs, 4);
    NibblesCount(word, pairs, a1);
    a2 := Value(nibbles, 16);
    BytesCount(word, nibbles, a2);
    a3 := Value(PairSums(nibbles), 256);
    FourBytes(PairSums(nibbles));
  }

  lemma SmearedFits(num: uint32)
    ensures Pow2(Len(num)) - 1 < 0x1_0000_0000 && Ones(Pow2(Len(num)) - 1) == Len(num)
  {
    LenIsAtMost32(num);
    OnesOfFull(Len(num));
    Pow2Grows(Len(num), 32);
    Powers();
  }

  lemma {:induction false} Pow2Grows(j: nat, k: nat)
    requires j <= k
    ensures Pow2(j) <= Pow2(k)
  {
    if j < k {
      Pow2Grows(j, k - 1);
    }
  }

  // ---- binary narrowing ----

  /** A comparison used as a number. */
  function Int(b: bool): nat {
    if b then 1 else 0
  }

  /** `r |= shift` where `r` counts in multiples of `2 * shift`. */
  lemma OrAdds(k: nat, r: nat, shift: nat)
    requires r % Pow2(k + 1) == 0 && (shift == 0 || shift == Pow2(k))
    ensures Or(r, shift) == r + shift && (r + shift) % Pow2(k) == 0
  {
    var p := Pow2(k + 1);
    assert shift < p;
    assert r == r / p * p;
    OrAbove(k + 1, r / p, shift);
    HalfMultiple(r / p, Pow2(k), shift);
  }

  lemma HalfMultiple(q: nat, p: nat, shift: nat)
    requires p > 0 && (shift == 0 || shift == p)
    ensures (q * (2 * p) + shift) % p == 0
  {
    DivModUnique(q * (2 * p) + shift, p, 2 * q + (if shift == 0 then 0 else 1), 0);
  }

  /** What is left to measure in `v` fits `2^k` bits, and `r` counts the bits already dropped in multiples of `2^k`. */
  ghost predicate Narrowed(num: nat, v: nat, r: nat, k: nat) {
    Len(num) == r + Len(v) && Len(v) <= Pow2(k) && r % Pow2(k) == 0
  }

  /** The test, the shift and the `|=` of one narrowing step. */
  lemma Narrow(num: nat, v: nat, r: nat, k: nat, limit: nat, shift: nat)
    requires Narrowed(num, v, r, k + 1) && limit == Pow2(Pow2(k)) - 1
    requires shift == Shl(Int(v > limit), k)
    ensures Narrowed(num, Shr(v, shift), Or(r, shift), k)
  {
    NarrowStep(v, Pow2(k), shift);
    OrAdds(k, r, shift);
  }

  lemma Limits()
    ensures Pow2(Pow2(4)) - 1 == 0xFFFF && Pow2(Pow2(3)) - 1 == 0xFF
    ensures Pow2(Pow2(2)) - 1 == 0x0F && Pow2(Pow2(1)) - 1 == 0x03
  {
    Powers();
    assert Pow2(1) == 2 && Pow2(3) == 8 && Pow2(16) == 0x1_0000;
  }

  lemma NothingNarrowed(num: uint32)
    ensures Narrowed(num, num, 0, 5)
  {
    LenIsAtMost32(num);
    assert Pow2(5) == 32;
  }

  method Bits3(num: uint32) returns (length: nat)
    ensures length == Len(num)
  {
    Limits();
    NothingNarrowed(num);
    var v: nat := num;
    var r := Shl(Int(v > 0xFFFF), 4);
    Narrow(num, v, 0, 4, 0xFFFF, r);
    OrZero(r);
    v := Shr(v, r);
    var shift := Shl(Int(v > 0xFF), 3);
    Narrow(num, v, r, 3, 0xFF, shift);
    v := Shr(v, shift);
    r := Or(r, shift);
    shift := Shl(Int(v > 0x0F), 2);
    Narrow(num, v, r, 2, 0x0F, shift);
    v := Shr(v, shift);
    r := Or(r, shift);
    shift := Shl(Int(v > 0x03), 1);
    Narrow(num, v, r, 1, 0x03, shift);
    v := Shr(v, shift);
    r := Or(r, shift);
    LastTwoBits(num, v, r);
    r := Or(r, Shr(v, 1));
    length := r + Int(v != 0);
  }

  lemma OrZero(n: nat)
    ensures Or(0, n) == n
  {
  }

  lemma LastTwoBits(num: nat, v: nat, r: nat)
    requires Narrowed(num, v, r, 1)
    ensures Len(num) == Or(r, Shr(v, 1)) + Int(v != 0)
  {
    LenBound(v, 2);
    OrAdds(0, r, Shr(v, 1));
  }

  // ---- binary widening ----

  method Bits4(num: uint32) returns (n: nat)
    ensures n == Len(num)
  {
    if num == 0 {
      return 0;
    }
    Powers();
    LenIsAtMost32(num);
    var word: uint32 := num;
    n := 31;
    Widen(word, 16);
    if Shr(word, 16) == 0 {
      n := n - 16;
      word := U32(Shl(word, 16));
    }
    Widen(word, 8);
    if Shr(word, 24) == 0 {
      n := n - 8;
      word := U32(Shl(word, 8));
    }
    Widen(word, 4);
    if Shr(word, 28) == 0 {
      n := n - 4;
      word := U32(Shl(word, 4));
    }
    Widen(word, 2);
    if Shr(word, 30) == 0 {
      n := n - 2;
      word := U32(Shl(word, 2));
    }
    LastBit(word);
    n := n + Shr(word, 31);
  }

  /** Where the test succeeds, the shift loses no set bit. */
  lemma Widen(word: uint32, s: nat)
    requires word > 0 && s <= 32
    ensures Len(word) <= 32
    ensures Shr(word, 32 - s) == 0 <==> Len(word) + s <= 32
    ensures Len(word) + s <= 32 ==>
              U32(Shl(word, s)) == Shl(word, s) > 0 && Len(U32(Shl(word, s))) == Len(word) + s
  {
    WidenStep(word, 32, s);
    LenIsAtMost32(word);
    Powers();
    if Len(word) + s <= 32 {
      NoWrap(Shl(word, s));
    }
  }

  lemma LastBit(word: uint32)
    requires Len(word) >= 31
    ensures Len(word) == 31 + Shr(word, 31)
  {
    LenIsAtMost32(word);
    LenShr(word, 31);
    OneBit(Shr(word, 31));
  }

  lemma OneBit(n: nat)
    requires Len(n) <= 1
    ensures n == Len(n)
  {
    LenBound(n, 1);
  }
}
