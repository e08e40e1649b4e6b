/**
 The floor searches of `algorithms/binary_search/binary_search.pl` and `binary_search.awk`: the last entry of a
 sorted table whose key is not above the value.
 */
module BinarySearch {
  import opened Prelude
  import Bits

  /** How the comparison function of a search orders its range: never from above back to at or below. */
  ghost predicate Ordered(cmp: int -> int, low: int, high: int) {
    forall i, j :: low <= i <= j <= high && cmp(i) > 0 ==> cmp(j) > 0
  }

  /** `k` is the last index of the range that does not compare above. */
  ghost predicate IsFloor(cmp: int -> int, low: int, high: int, k: int) {
    low <= k <= high && cmp(k) <= 0 && forall j :: k < j <= high ==> cmp(j) > 0
  }

  /** The least number of halvings, rounding up, that leave one of `n`. */
  function CeilLog2(n: nat): nat {
    if n <= 1 then 0 else 1 + CeilLog2((n + 1) / 2)
  }

  lemma {:induction false} CeilLog2Monotone(m: nat, n: nat)
    requires m <= n
    ensures CeilLog2(m) <= CeilLog2(n)
  {
    if m > 1 {
      CeilLog2Monotone((m + 1) / 2, (n + 1) / 2);
    }
  }

  /** `CeilLog2(n)` is the least exponent whose power of two reaches `n`. */
  lemma {:induction false} CeilLog2Meaning(n: nat, k: nat)
    ensures CeilLog2(n) <= k <==> n <= Bits.Pow2(k)
  {
    if k != 0 && n > 1 {
      CeilLog2Meaning((n + 1) / 2, k - 1);
    }
  }

  datatype Outcome =
    | Died                        // low > high, or the comparison stops the program
    | Default(mid: Option<int>)   // every entry is above: the caller's fourth argument
    | Undefined                   // no index, although some entry is not above
    | Found(index: int)

  /**
   `binsearch_generic`; `mid0` is the optional fourth argument, and `unprobed` what the comparison answers when it is
   called with that, if it answers at all: it may be no index, or none of the range. `probes` counts comparisons
   inside the loop.
   */
  method BinsearchGeneric(low0: int, high0: int, cmp: int -> int, mid0: Option<int>, unprobed: Option<int>)
    returns (outcome: Outcome, probes: nat)
    requires Ordered(cmp, low0, high0)
    ensures outcome == Died <==> low0 > high0 || (low0 == high0 && cmp(low0) <= 0 && unprobed == None)
    ensures low0 <= high0 && cmp(low0) > 0 ==> outcome == Default(mid0) && probes == 0
    ensures low0 < high0 && cmp(low0) <= 0 ==>
              outcome.Found? && IsFloor(cmp, low0, high0, outcome.index)
    ensures low0 == high0 && cmp(low0) <= 0 ==>
              && (outcome == Undefined <==> mid0 == None && unprobed == Some(0))
              && (outcome == Found(low0) <==> unprobed.Some? && (unprobed == Some(0) ==> mid0 == Some(low0)))
              && (outcome.Found? && outcome.index != low0 ==> mid0 == Some(outcome.index))
              && !outcome.Default?
    ensures if low0 <= high0 then probes <= CeilLog2(high0 - low0 + 1) else probes == 0
  {
    var low, high, mid := low0, high0, mid0;
    probes := 0;
    if low > high {
      return Died, 0;
    }
    if cmp(low) > 0 {
      return Default(mid), 0;
    }
    while low < high
      invariant low0 <= low <= high <= high0
      invariant cmp(low) <= 0 && forall j :: high < j <= high0 ==> cmp(j) > 0
      invariant mid != mid0 || low != low0 || high != high0 ==> mid.Some? && (cmp(mid.value) <= 0 ==> mid.value == low)
      invariant probes > 0 ==> mid.Some? && (cmp(mid.value) <= 0 ==> mid.value == low)
      invariant probes == 0 ==> low == low0 && high == high0 && mid == mid0
      invariant probes + CeilLog2(high - low + 1) <= CeilLog2(high0 - low0 + 1)
    {
      var m := low + (high - low) / 2 + 1;
      mid := Some(m);
      probes := probes + 1;
      ghost var n := high - low + 1;
      if cmp(m) > 0 {
        high := m - 1;
      } else {
        low := m;
      }
      CeilLog2Monotone(high - low + 1, (n + 1) / 2);
    }
    var last := if probes == 0 then unprobed else Some(cmp(mid.value));
    if last == None {
      return Died, probes;
    }
    if last == Some(0) {
      return if mid == None then Undefined else Found(mid.value), probes;
    }
    return Found(low), probes;
  }

  function Spaceship(a: int, b: int): int {
    if a < b then -1 else if a > b then 1 else 0
  }

  /** The key of a row: a negative index counts from the end, and a missing row has an undefined key, which is zero. */
  function Key(keys: seq<int>, i: int): int {
    if 0 <= i < |keys| then keys[i] else if -|keys| <= i < 0 then keys[|keys| + i] else 0
  }

  /** The comparison of `binsearch_table`, on a table of keys. */
  function Compare(keys: seq<int>, value: int): int -> int {
    i => Spaceship(Key(keys, i), value)
  }

  /** What it answers to the default: no index is that of the first row, and one before the first row is an error. */
  function AtDefault(keys: seq<int>, value: int, default: Option<int>): Option<int> {
    match default
    case None => Some(Compare(keys, value)(0))
    case Some(i) => if i < -|keys| then None else Some(Compare(keys, value)(i))
  }

  lemma CompareMeaning(keys: seq<int>, value: int, i: int)
    ensures Compare(keys, value)(i) > 0 <==> Key(keys, i) > value
    ensures Compare(keys, value)(i) == 0 <==> Key(keys, i) == value
  {
    assert Compare(keys, value)(i) == Spaceship(Key(keys, i), value);
  }

  ghost predicate Sorted(keys: seq<int>) {
    forall i, j :: 0 <= i <= j < |keys| ==> keys[i] <= keys[j]
  }

  /** The last entry whose key is not above `value`. */
  ghost predicate FloorEntry(keys: seq<int>, value: int, k: int) {
    0 <= k < |keys| && keys[k] <= value && forall j :: k < j < |keys| ==> keys[j] > value
  }

  /**
   The one case in which the last comparison, on a table of one row, is not made with an index that was probed: it is
   an error, or finds the value at something else than the index of the row.
   */
  predicate Misled(keys: seq<int>, value: int, default: Option<int>)
    requires keys != []
  {
    |keys| == 1 &&
    match default
    case None => value == keys[0]
    case Some(i) => i < -1 || (i == -1 && value == keys[0]) || (i > 0 && value == 0)
  }

  /** `binsearch_table`. */
  method BinsearchTable(keys: seq<int>, value: int, default: Option<int>) returns (outcome: Outcome, probes: nat)
    requires Sorted(keys)
    ensures keys == [] ==> outcome == Died
    ensures keys != [] && value < keys[0] ==> outcome == Default(default)
    ensures keys != [] && value >= keys[0] ==>
              (outcome.Found? && FloorEntry(keys, value, outcome.index) <==> !Misled(keys, value, default))
    ensures keys != [] && value >= keys[0] && Misled(keys, value, default) ==>
              outcome == match default
                         case None => Undefined
                         case Some(i) => if i < -1 then Died else Found(i)
    ensures probes <= CeilLog2(|keys|)
  {
    var cmp := Compare(keys, value);
    outcome, probes := BinsearchGeneric(0, |keys| - 1, cmp, default, AtDefault(keys, value, default));
    if |keys| >= 2 && value >= keys[0] {
      forall j | outcome.index < j < |keys| ensures keys[j] > value {
        assert cmp(j) > 0;
      }
    }
    if |keys| == 1 && value >= keys[0] {
      if default.Some? {
        CompareMeaning(keys, value, default.value);
      }
      CompareMeaning(keys, value, 0);
      assert forall k :: FloorEntry(keys, value, k) <==> k == 0;
    }
  }

  // ---- the awk script ----

  /** The global arrays `s` and `S`, here from 0, and the global `m`, which keeps its value between lines. */
  class BoundaryTable {
    var addresses: seq<int>
    var lines: seq<string>
    var m: Option<int>

    ghost predicate Valid()
      reads this
    {
      |addresses| == |lines|
    }

    constructor ()
      ensures Valid() && addresses == [] && lines == [] && m == None
    {
      addresses, lines, m := [], [], None;
    }

    /** A line of the first file. */
    method Add(address: int, line: string)
      requires Valid()
      modifies this
      ensures Valid() && addresses == old(addresses) + [address] && lines == old(lines) + [line] && m == old(m)
    {
      addresses := addresses + [address];
      lines := lines + [line];
    }

    /**
     A line of the second file: the boundary that is printed beside it, if it lies within the table. The search
     trusts `m` afterwards, which is safe because the guard lets it run only where it probes at least once.
     */
    method Lookup(a: int) returns (found: Option<string>, probes: nat)
      requires Valid() && Sorted(addresses)
      modifies this`m
      ensures found.Some? <==> addresses != [] && addresses[0] <= a < addresses[|addresses| - 1]
      ensures found.Some? ==> exists k :: FloorEntry(addresses, a, k) && found == Some(lines[k])
      ensures found.None? ==> m == old(m) && probes == 0
      ensures probes <= CeilLog2(|addresses|)
    {
      var n := |addresses|;
      var l, h := 1, n;
      probes := 0;
      found := None;
      if n > 0 && a >= addresses[l - 1] && a < addresses[h - 1] {
        while l < h
          invariant 1 <= l <= h <= n
          invariant addresses[l - 1] <= a && forall j :: h <= j < n ==> addresses[j] > a
          invariant probes > 0 ==> m.Some? && 1 <= m.value <= n && (addresses[m.value - 1] <= a ==> m.value == l)
          invariant probes == 0 ==> h == n && l == 1
          invariant probes + CeilLog2(h - l + 1) <= CeilLog2(n)
        {
          var mid := l + (h - l) / 2 + 1;
          m := Some(mid);
          probes := probes + 1;
          ghost var size := h - l + 1;
          if addresses[mid - 1] > a {
            h := mid - 1;
          } else {
            l := mid;
          }
          CeilLog2Monotone(h - l + 1, (size + 1) / 2);
        }
        found := Some(if addresses[m.value - 1] == a then lines[m.value - 1] else lines[l - 1]);
        assert FloorEntry(addresses, a, l - 1);
      }
    }
  }
}
