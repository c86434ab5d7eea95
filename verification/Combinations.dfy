/** The mixed-radix odometer of include/Combiner.h. */
module Combinations {
  import opened Collections

  // ---------- positions, ranks and digits ----------

  predicate AllPositive(sizes: seq<nat>) {
    forall i :: 0 <= i < |sizes| ==> sizes[i] >= 1
  }

  /** The first n positions are each below their size. */
  predicate Below(sizes: seq<nat>, digits: seq<nat>, n: nat)
    requires n <= |sizes| && n <= |digits|
  {
    forall i :: 0 <= i < n ==> digits[i] < sizes[i]
  }

  /** A complete tuple of positions. */
  predicate Within(sizes: seq<nat>, digits: seq<nat>) {
    |digits| == |sizes| && Below(sizes, digits, |sizes|)
  }

  predicate Agree(a: seq<nat>, b: seq<nat>, n: nat)
    requires n <= |a| && n <= |b|
  {
    forall i :: 0 <= i < n ==> a[i] == b[i]
  }

  predicate ZeroFrom(digits: seq<nat>, n: nat) {
    forall i :: n <= i < |digits| ==> digits[i] == 0
  }

  predicate LexLess(a: seq<nat>, b: seq<nat>, n: nat)
    requires n <= |a| && n <= |b|
  {
    exists i :: 0 <= i < n && a[i] < b[i] && Agree(a, b, i)
  }

  /** How many tuples the first n positions have. */
  function Product(sizes: seq<nat>, n: nat): nat
    requires n <= |sizes|
  {
    if n == 0 then 1 else Product(sizes, n - 1) * sizes[n - 1]
  }

  /** How many tuples the positions from n on have. */
  function Tail(sizes: seq<nat>, n: nat): nat
    requires n <= |sizes|
    decreases |sizes| - n
  {
    if n == |sizes| then 1 else sizes[n] * Tail(sizes, n + 1)
  }

  /** The mixed-radix value of the first n positions, the last one varying fastest. */
  function Rank(sizes: seq<nat>, digits: seq<nat>, n: nat): nat
    requires n <= |sizes| && n <= |digits|
  {
    if n == 0 then 0 else Rank(sizes, digits, n - 1) * sizes[n - 1] + digits[n - 1]
  }

  /** The mixed-radix digits of k for the first n sizes. */
  function Digits(sizes: seq<nat>, n: nat, k: nat): (r: seq<nat>)
    requires n <= |sizes| && AllPositive(sizes)
    ensures |r| == n
  {
    if n == 0 then [] else Digits(sizes, n - 1, k / sizes[n - 1]) + [k % sizes[n - 1]]
  }

  lemma MulAddBelow(q: nat, a: nat, d: nat, s: nat)
    requires q < a && d < s
    ensures q * s + d < a * s
  {
    assert (q + 1) * s <= a * s;
  }

  lemma MulMonotone(a: nat, b: nat, s: nat)
    requires a <= b
    ensures a * s <= b * s
  {
  }

  lemma DivModUnique(q: nat, d: nat, s: nat)
    requires d < s
    ensures (q * s + d) / s == q && (q * s + d) % s == d
  {
    var x := q * s + d;
    var e, m := x / s, x % s;
    assert x == e * s + m;
    if e < q {
      MulAddBelow(e, q, m, s);
    } else if q < e {
      MulAddBelow(q, e, d, s);
    }
  }

  lemma DivMod(k: nat, s: nat)
    requires s >= 1
    ensures k / s * s + k % s == k && 0 <= k % s < s
  {
  }

  lemma DivBelow(k: nat, a: nat, s: nat)
    requires s >= 1 && k < a * s
    ensures k / s < a
  {
    var q := k / s;
    if q >= a {
      MulMonotone(a, q, s);
    }
  }

  lemma {:induction false} ProductPositive(sizes: seq<nat>, n: nat)
    requires AllPositive(sizes) && n <= |sizes|
    ensures Product(sizes, n) >= 1
  {
    if n > 0 {
      ProductPositive(sizes, n - 1);
    }
  }

  lemma {:induction false} RankAgrees(sizes: seq<nat>, a: seq<nat>, b: seq<nat>, n: nat)
    requires n <= |sizes| && n <= |a| && n <= |b| && Agree(a, b, n)
    ensures Rank(sizes, a, n) == Rank(sizes, b, n)
  {
    if n > 0 {
      RankAgrees(sizes, a, b, n - 1);
    }
  }

  lemma {:induction false} RankBelowProduct(sizes: seq<nat>, digits: seq<nat>, n: nat)
    requires n <= |sizes| && n <= |digits| && Below(sizes, digits, n)
    ensures Rank(sizes, digits, n) < Product(sizes, n)
  {
    if n > 0 {
      RankBelowProduct(sizes, digits, n - 1);
      MulAddBelow(Rank(sizes, digits, n - 1), Product(sizes, n - 1), digits[n - 1], sizes[n - 1]);
    }
  }

  /** Digits undoes Rank. */
  lemma {:induction false} DigitsOfRank(sizes: seq<nat>, digits: seq<nat>, n: nat)
    requires AllPositive(sizes) && n <= |sizes| && n <= |digits| && Below(sizes, digits, n)
    ensures Digits(sizes, n, Rank(sizes, digits, n)) == digits[..n]
  {
    if n > 0 {
      DigitsOfRank(sizes, digits, n - 1);
      DivModUnique(Rank(sizes, digits, n - 1), digits[n - 1], sizes[n - 1]);
    }
  }

  lemma RankSnoc(sizes: seq<nat>, n: nat, digits: seq<nat>, d: nat)
    requires 1 <= n <= |sizes| && |digits| == n - 1 && Below(sizes, digits, n - 1) && d < sizes[n - 1]
    ensures Below(sizes, digits + [d], n)
    ensures Rank(sizes, digits + [d], n) == Rank(sizes, digits, n - 1) * sizes[n - 1] + d
  {
    RankAgrees(sizes, digits, digits + [d], n - 1);
  }

  /** Rank undoes Digits. */
  lemma {:induction false} RankOfDigits(sizes: seq<nat>, n: nat, k: nat)
    requires AllPositive(sizes) && n <= |sizes| && k < Product(sizes, n)
    ensures Below(sizes, Digits(sizes, n, k), n) && Rank(sizes, Digits(sizes, n, k), n) == k
  {
    if n > 0 {
      var s := sizes[n - 1];
      var q, d := k / s, k % s;
      DivBelow(k, Product(sizes, n - 1), s);
      DivMod(k, s);
      RankOfDigits(sizes, n - 1, q);
      RankSnoc(sizes, n, Digits(sizes, n - 1, q), d);
    }
  }

  lemma RankOrder(q: nat, d: nat, q': nat, d': nat, s: nat)
    requires d < s && d' < s
    ensures q * s + d < q' * s + d' <==> q < q' || (q == q' && d < d')
  {
    if q < q' {
      MulAddBelow(q, q', d, s);
    } else if q' < q {
      MulAddBelow(q', q, d', s);
    }
  }

  lemma RankInjective(sizes: seq<nat>, a: seq<nat>, b: seq<nat>, n: nat)
    requires AllPositive(sizes) && n <= |sizes| && n <= |a| && n <= |b| && Below(sizes, a, n) && Below(sizes, b, n)
    ensures Rank(sizes, a, n) == Rank(sizes, b, n) <==> Agree(a, b, n)
  {
    DigitsOfRank(sizes, a, n);
    DigitsOfRank(sizes, b, n);
    if Rank(sizes, a, n) == Rank(sizes, b, n) {
      forall i | 0 <= i < n ensures a[i] == b[i] {
        assert a[..n][i] == b[..n][i];
      }
    } else if Agree(a, b, n) {
      RankAgrees(sizes, a, b, n);
    }
  }

  /** Smaller rank means lexicographically smaller. */
  lemma {:induction false} RankIsLexicographic(sizes: seq<nat>, a: seq<nat>, b: seq<nat>, n: nat)
    requires AllPositive(sizes) && n <= |sizes| && n <= |a| && n <= |b| && Below(sizes, a, n) && Below(sizes, b, n)
    ensures Rank(sizes, a, n) < Rank(sizes, b, n) <==> LexLess(a, b, n)
  {
    if n > 0 {
      RankIsLexicographic(sizes, a, b, n - 1);
      RankInjective(sizes, a, b, n - 1);
      RankOrder(Rank(sizes, a, n - 1), a[n - 1], Rank(sizes, b, n - 1), b[n - 1], sizes[n - 1]);
      assert LexLess(a, b, n) <==> LexLess(a, b, n - 1) || (Agree(a, b, n - 1) && a[n - 1] < b[n - 1]);
    }
  }

  // ---------- the carry ----------

  lemma MulAssoc(a: nat, b: nat, c: nat)
    ensures (a * b) * c == a * (b * c)
  {
  }

  lemma {:induction false} ZerosRank(sizes: seq<nat>, digits: seq<nat>, i: nat, n: nat)
    requires i <= n == |sizes| == |digits| && ZeroFrom(digits, i)
    ensures Rank(sizes, digits, n) == Rank(sizes, digits, i) * Tail(sizes, i)
    decreases n - i
  {
    if i < n {
      ZerosRank(sizes, digits, i + 1, n);
      MulAssoc(Rank(sizes, digits, i), sizes[i], Tail(sizes, i + 1));
    }
  }

  lemma {:induction false} ProductTail(sizes: seq<nat>, n: nat)
    requires n <= |sizes|
    ensures Product(sizes, n) * Tail(sizes, n) == Product(sizes, |sizes|)
    decreases |sizes| - n
  {
    if n < |sizes| {
      ProductTail(sizes, n + 1);
      MulAssoc(Product(sizes, n), sizes[n], Tail(sizes, n + 1));
    }
  }

  /** The carry at position i: later positions are zero, earlier ones untouched, and one is still to be added at i. */
  ghost predicate Carrying(sizes: seq<nat>, start: seq<nat>, now: seq<nat>, i: nat) {
    |start| == |now| == |sizes| && i < |sizes| && Agree(now, start, i + 1) && ZeroFrom(now, i + 1) &&
    Rank(sizes, start, |sizes|) + 1 == (Rank(sizes, start, i + 1) + 1) * Tail(sizes, i + 1)
  }

  lemma CarryEnds(sizes: seq<nat>, start: seq<nat>, before: seq<nat>, now: seq<nat>, i: nat)
    requires Carrying(sizes, start, before, i) && now == before[i := before[i] + 1]
    ensures Rank(sizes, now, |sizes|) == Rank(sizes, start, |sizes|) + 1
  {
    RankAgrees(sizes, now, start, i);
    ZerosRank(sizes, now, i + 1, |sizes|);
  }

  lemma CarryMoves(sizes: seq<nat>, start: seq<nat>, before: seq<nat>, now: seq<nat>, i: nat)
    requires Carrying(sizes, start, before, i) && before[i] + 1 == sizes[i] && now == before[i := 0]
    ensures Rank(sizes, start, |sizes|) + 1 == (Rank(sizes, start, i) + 1) * Tail(sizes, i)
    ensures i > 0 ==> Carrying(sizes, start, now, i - 1)
    ensures i == 0 ==> ZeroFrom(now, 0)
  {
    var r, s, t := Rank(sizes, start, i), sizes[i], Tail(sizes, i + 1);
    assert Rank(sizes, start, i + 1) + 1 == (r + 1) * s;
    MulAssoc(r + 1, s, t);
  }

  // ---------- the combiner ----------

  function SizesOf(arrays: seq<seq<int>>): seq<nat> {
    MapSeq((a: seq<int>) => |a|, arrays)
  }

  /** How many tuples there are in all. */
  function Count(arrays: seq<seq<int>>): nat {
    Product(SizesOf(arrays), |arrays|)
  }

  predicate NoneEmpty(arrays: seq<seq<int>>) {
    forall i :: 0 <= i < |arrays| ==> arrays[i] != []
  }

  /** The elements found at a tuple of positions. */
  function Pick(arrays: seq<seq<int>>, digits: seq<nat>): (r: seq<int>)
    requires Within(SizesOf(arrays), digits)
    ensures |r| == |arrays| && forall i :: 0 <= i < |arrays| ==> r[i] == arrays[i][digits[i]]
  {
    seq(|arrays|, i requires 0 <= i < |arrays| => arrays[i][digits[i]])
  }

  class Combiner {
    const arrays: seq<seq<int>>
    const indices: array<nat>
    var finished: bool

    ghost predicate Valid()
      reads this, indices
    {
      NoneEmpty(arrays) && Within(SizesOf(arrays), indices[..])
    }

    /** The rank of the tuple the next call returns. */
    ghost function Position(): nat
      requires Valid()
      reads this, indices
    {
      Rank(SizesOf(arrays), indices[..], |arrays|)
    }

    constructor (arrays: seq<seq<int>>)
      requires NoneEmpty(arrays)
      ensures this.arrays == arrays && fresh(indices)
      ensures Valid() && !finished && Position() == 0
    {
      this.arrays := arrays;
      indices := new nat[|arrays|](_ => 0);
      finished := false;
      new;
      ZerosRank(SizesOf(arrays), indices[..], 0, |arrays|);
    }

    /** The current tuple, or nothing once finished. Without arrays the size_t index wraps and nothing ever advances. */
    method GetNext() returns (result: seq<int>)
      requires Valid()
      modifies this, indices
      ensures Valid()
      ensures old(finished) ==> result == [] && finished && Position() == old(Position())
      ensures !old(finished) ==> result == Pick(arrays, old(indices[..]))
      ensures !old(finished) && arrays != [] ==>
                finished == (old(Position()) + 1 == Count(arrays)) &&
                Position() == if finished then 0 else old(Position()) + 1
      ensures arrays == [] ==> result == [] && finished == old(finished)
    {
      if finished {
        return [];
      }
      result := Current();
      Advance();
    }

    method Current() returns (result: seq<int>)
      requires Valid()
      ensures result == Pick(arrays, indices[..])
    {
      result := [];
      for i := 0 to |arrays|
        invariant |result| == i && forall j :: 0 <= j < i ==> result[j] == arrays[j][indices[j]]
      {
        result := result + [arrays[i][indices[i]]];
      }
    }

    /** Adds one to the last position and carries. */
    method Advance()
      requires Valid() && !finished
      modifies this, indices
      ensures Valid()
      ensures arrays != [] ==>
                finished == (old(Position()) + 1 == Count(arrays)) &&
                Position() == if finished then 0 else old(Position()) + 1
      ensures arrays == [] ==> !finished
    {
      hide Carrying, Rank, Product, Tail, ZeroFrom;
      ghost var sizes, start := SizesOf(arrays), indices[..];
      var i := |arrays| - 1;
      CarryStarts(sizes, start);
      while 0 <= i < |arrays|
        invariant -1 <= i < |arrays| && !finished && (i == -1 ==> arrays == [])
        invariant i >= 0 ==> Carrying(sizes, start, indices[..], i)
        invariant Valid()
        decreases i
      {
        ghost var before := indices[..];
        indices[i] := indices[i] + 1;
        if indices[i] >= |arrays[i]| {
          indices[i] := 0;
          assert indices[..] == before[i := 0];
          CarryMoves(sizes, start, before, indices[..], i);
          if i == 0 {
            finished := true;
            CarryFinishes(sizes, start, indices[..]);
            return;
          }
          i := i - 1;
        } else {
          assert indices[..] == before[i := before[i] + 1];
          CarryEnds(sizes, start, before, indices[..], i);
          RankBelowProduct(sizes, indices[..], |sizes|);
          return;
        }
      }
    }
  }

  lemma CarryStarts(sizes: seq<nat>, start: seq<nat>)
    requires |start| == |sizes|
    ensures sizes != [] ==> Carrying(sizes, start, start, |sizes| - 1)
  {
  }

  lemma CarryFinishes(sizes: seq<nat>, start: seq<nat>, now: seq<nat>)
    requires |start| == |now| == |sizes| && ZeroFrom(now, 0)
    requires Rank(sizes, start, |sizes|) + 1 == (Rank(sizes, start, 0) + 1) * Tail(sizes, 0)
    ensures Rank(sizes, start, |sizes|) + 1 == Product(sizes, |sizes|) && Rank(sizes, now, |sizes|) == 0
  {
    ProductTail(sizes, 0);
    ZerosRank(sizes, now, 0, |sizes|);
  }

  /** The first n tuples, in the order of their ranks. */
  ghost function Enumeration(arrays: seq<seq<int>>, n: nat): (r: seq<seq<int>>)
    requires NoneEmpty(arrays) && n <= Count(arrays)
    ensures |r| == n
  {
    if n == 0 then []
    else
      RankOfDigits(SizesOf(arrays), |arrays|, n - 1);
      Enumeration(arrays, n - 1) + [Pick(arrays, Digits(SizesOf(arrays), |arrays|, n - 1))]
  }

  /** The loop that drains a fresh combiner: it ends after exactly as many calls as there are tuples. */
  method Drain(combiner: Combiner) returns (all: seq<seq<int>>)
    requires combiner.Valid() && !combiner.finished && combiner.Position() == 0 && combiner.arrays != []
    modifies combiner, combiner.indices
    ensures combiner.finished && all == Enumeration(combiner.arrays, Count(combiner.arrays))
  {
    hide Rank, Product, Digits, Pick;
    all := [];
    ghost var sizes, k := SizesOf(combiner.arrays), 0;
    ProductPositive(sizes, |sizes|);
    while !combiner.finished
      invariant combiner.Valid() && k <= Count(combiner.arrays)
      invariant combiner.finished <==> k == Count(combiner.arrays)
      invariant !combiner.finished ==> combiner.Position() == k
      invariant all == Enumeration(combiner.arrays, k)
      decreases Count(combiner.arrays) - k
    {
      DigitsOfRank(sizes, combiner.indices[..], |sizes|);
      WholePrefix(combiner.indices[..]);
      var cfg := combiner.GetNext();
      all := all + [cfg];
      k := k + 1;
    }
  }

  lemma {:induction false} EnumerationAt(arrays: seq<seq<int>>, n: nat, k: nat)
    requires NoneEmpty(arrays) && k < n <= Count(arrays)
    ensures Within(SizesOf(arrays), Digits(SizesOf(arrays), |arrays|, k))
    ensures Enumeration(arrays, n)[k] == Pick(arrays, Digits(SizesOf(arrays), |arrays|, k))
  {
    RankOfDigits(SizesOf(arrays), |arrays|, k);
    if k < n - 1 {
      EnumerationAt(arrays, n - 1, k);
    }
  }

  /**
   * Call k returns the elements at the mixed-radix digits of k; every tuple of positions is the digits of exactly
   * one k below the count; and the calls run through the tuples in lexicographic order.
   */
  lemma EveryTupleOnce(arrays: seq<seq<int>>, digits: seq<nat>, k: nat, k': nat)
    requires NoneEmpty(arrays) && Within(SizesOf(arrays), digits) && k < Count(arrays) && k' < Count(arrays)
    ensures var sizes, n := SizesOf(arrays), |arrays|;
            Within(sizes, Digits(sizes, n, k)) && Within(sizes, Digits(sizes, n, k')) &&
            Enumeration(arrays, Count(arrays))[k] == Pick(arrays, Digits(sizes, n, k)) &&
            Rank(sizes, digits, n) < Count(arrays) &&
            (Digits(sizes, n, k) == digits <==> k == Rank(sizes, digits, n)) &&
            (k < k' <==> LexLess(Digits(sizes, n, k), Digits(sizes, n, k'), n))
  {
    hide Rank, Product, Digits, Pick, LexLess;
    var sizes, n := SizesOf(arrays), |arrays|;
    EnumerationAt(arrays, Count(arrays), k);
    RankBelowProduct(sizes, digits, n);
    DigitsOfRank(sizes, digits, n);
    WholePrefix(digits);
    RankOfDigits(sizes, n, k);
    RankOfDigits(sizes, n, k');
    RankIsLexicographic(sizes, Digits(sizes, n, k), Digits(sizes, n, k'), n);
  }
}
