/** The bucket table of KBurstClassifier (src/KBurstClassifier.cpp) and the windowed nearest-neighbour scan over it. */
module NearestIndex {
  import opened Collections
  import opened BurstValues
  import opened Distances
  import opened Merging

  /** Table dimensions, and how far the scan looks around the test burst's own bucket. */
  datatype IndexParam = IndexParam(maxUniSig: byte, maxPacketIndex: int, uniRange: byte, pktRange: int)

  predicate ValidIndex(p: IndexParam) {
    1 <= p.maxUniSig <= 100 && p.maxPacketIndex >= 1 && p.pktRange >= 0
  }

  function Min(a: int, b: int): int {
    if a < b then a else b
  }

  function Max(a: int, b: int): int {
    if a > b then a else b
  }

  // ---------- buckets and windows ----------

  /** The bucket a training burst is stored in. */
  function CellOf(p: IndexParam, v: BurstValue): (int, int) {
    (v.uniPktNum - 1, Min(v.pktNum, p.maxPacketIndex) - 1)
  }

  function CellKey(p: IndexParam): Ref -> (int, int) {
    (r: Ref) => CellOf(p, r.burst)
  }

  datatype Window = Window(iMin: int, iMax: int, jMin: int, jMax: int)

  /** The buckets scanned for a test burst; the upper row bound is computed in 8 bits. */
  function WindowOf(p: IndexParam, t: BurstValue): Window {
    Window(
      Max(t.uniPktNum - p.uniRange, 0),
      Min((t.uniPktNum + p.uniRange) % 256, p.maxUniSig),
      Min(Max(t.pktNum - p.pktRange, 0), p.maxPacketIndex - 1),
      Min(t.pktNum + p.pktRange, p.maxPacketIndex))
  }

  predicate Inside(w: Window, cell: (int, int)) {
    w.iMin <= cell.0 < w.iMax && w.jMin <= cell.1 < w.jMax
  }

  /** The training bursts the scan for t looks at. */
  function InWindow(p: IndexParam, t: BurstValue): Ref -> bool {
    (r: Ref) => Inside(WindowOf(p, t), CellOf(p, r.burst))
  }

  /** Row i of a window, left to right. */
  function RowCells(i: int, jMin: int, jMax: int): seq<(int, int)>
    decreases jMax - jMin
  {
    if jMax <= jMin then [] else RowCells(i, jMin, jMax - 1) + [(i, jMax - 1)]
  }

  /** The cells of a window in the order they are scanned. */
  function Cells(iMin: int, iMax: int, jMin: int, jMax: int): seq<(int, int)>
    decreases iMax - iMin
  {
    if iMax <= iMin then [] else Cells(iMin, iMax - 1, jMin, jMax) + RowCells(iMax - 1, jMin, jMax)
  }

  lemma {:induction false} RowCellsOnce(i: int, jMin: int, jMax: int)
    ensures NoDup(RowCells(i, jMin, jMax))
    ensures forall c :: c in RowCells(i, jMin, jMax) <==> c.0 == i && jMin <= c.1 < jMax
    decreases jMax - jMin
  {
    if jMin < jMax {
      RowCellsOnce(i, jMin, jMax - 1);
    }
  }

  lemma NoDupConcat<T>(a: seq<T>, b: seq<T>)
    requires NoDup(a) && NoDup(b) && forall x :: x in a ==> x !in b
    ensures NoDup(a + b)
  {
    var s := a + b;
    forall i, j | 0 <= i < j < |s| ensures s[i] != s[j] {
      if i < |a| <= j {
        assert a[i] in a && b[j - |a|] in b;
      }
    }
  }

  /** The scan visits every cell of the window exactly once. */
  lemma {:induction false} CellsOnce(iMin: int, iMax: int, jMin: int, jMax: int)
    ensures NoDup(Cells(iMin, iMax, jMin, jMax))
    ensures forall c :: c in Cells(iMin, iMax, jMin, jMax) <==> iMin <= c.0 < iMax && jMin <= c.1 < jMax
    decreases iMax - iMin
  {
    if iMin < iMax {
      CellsOnce(iMin, iMax - 1, jMin, jMax);
      RowCellsOnce(iMax - 1, jMin, jMax);
      NoDupConcat(Cells(iMin, iMax - 1, jMin, jMax), RowCells(iMax - 1, jMin, jMax));
    }
  }

  function WindowCells(w: Window): seq<(int, int)> {
    Cells(w.iMin, w.iMax, w.jMin, w.jMax)
  }

  /** The training bursts in the order the scan meets them. */
  function Candidates(p: IndexParam, trained: seq<Ref>, t: BurstValue): seq<Ref> {
    Flatten(Groups(CellKey(p), trained, WindowCells(WindowOf(p, t))))
  }

  /** The scan meets exactly the training bursts inside the window, each once. */
  lemma CandidatesAreInWindow(p: IndexParam, trained: seq<Ref>, t: BurstValue)
    ensures multiset(Candidates(p, trained, t)) == multiset(Filter(InWindow(p, t), trained))
  {
    var w := WindowOf(p, t);
    var cells := WindowCells(w);
    CellsOnce(w.iMin, w.iMax, w.jMin, w.jMax);
    GroupsFilter(CellKey(p), trained, cells);
    FilterSame(KeyIn(CellKey(p), cells), InWindow(p, t), trained);
  }

  // ---------- the running minimum ----------

  /** A distance and every burst at that distance. */
  datatype Nearest = Nearest(dist: real, bursts: seq<Ref>)

  /** Before anything is scanned. */
  function Start(): Nearest {
    Nearest(100.0, [])
  }

  function DistanceTo(sqrt: real -> real, t: Ref): Ref -> real {
    (b: Ref) => DistanceOf(sqrt, t.burst, b.burst)
  }

  /** One burst at distance d is met. */
  function Improve(n: Nearest, d: real, b: Ref): Nearest {
    if d < n.dist then Nearest(d, [b]) else if d == n.dist then Nearest(n.dist, n.bursts + [b]) else n
  }

  function BestFrom(f: Ref -> real, start: Nearest, cands: seq<Ref>): Nearest {
    if cands == [] then start
    else
      var b := cands[|cands| - 1];
      Improve(BestFrom(f, start, cands[..|cands| - 1]), f(b), b)
  }

  lemma BestSnoc(f: Ref -> real, start: Nearest, cands: seq<Ref>, b: Ref)
    ensures BestFrom(f, start, cands + [b]) == Improve(BestFrom(f, start, cands), f(b), b)
  {
    assert (cands + [b])[..|cands|] == cands;
  }

  lemma {:induction false} BestConcat(f: Ref -> real, start: Nearest, a: seq<Ref>, b: seq<Ref>)
    ensures BestFrom(f, start, a + b) == BestFrom(f, BestFrom(f, start, a), b)
  {
    if b == [] {
      assert a + b == a;
    } else {
      BestConcat(f, start, a, b[..|b| - 1]);
      assert (a + b)[..|a + b| - 1] == a + b[..|b| - 1];
    }
  }

  function AtDistance(f: Ref -> real, d: real): Ref -> bool {
    (b: Ref) => f(b) == d
  }

  /** d is the least distance in cands, or the start value when there is nothing below it. */
  ghost predicate IsLeast(f: Ref -> real, cands: seq<Ref>, d: real) {
    (forall b :: b in cands ==> d <= f(b)) &&
    (if cands == [] then d == 100.0 else exists b :: b in cands && f(b) == d)
  }

  /** The running minimum is the true minimum, and its bursts are all that attain it, in scan order. */
  lemma {:induction false} BestIsLeast(f: Ref -> real, cands: seq<Ref>)
    requires forall b :: b in cands ==> f(b) < 100.0
    ensures IsLeast(f, cands, BestFrom(f, Start(), cands).dist)
    ensures BestFrom(f, Start(), cands).bursts == Filter(AtDistance(f, BestFrom(f, Start(), cands).dist), cands)
  {
    if cands != [] {
      var n := |cands| - 1;
      var b := cands[n];
      var before := BestFrom(f, Start(), cands[..n]);
      BestIsLeast(f, cands[..n]);
      assert cands == cands[..n] + [b];
      if f(b) < before.dist {
        NoneAt(f, cands[..n], f(b));
      }
      LeastExtends(f, cands[..n], b, before.dist);
    }
  }

  lemma LeastExtends(f: Ref -> real, cands: seq<Ref>, b: Ref, d: real)
    requires IsLeast(f, cands, d) && f(b) < 100.0
    ensures IsLeast(f, cands + [b], if f(b) < d then f(b) else d)
  {
    var d' := if f(b) < d then f(b) else d;
    if f(b) >= d {
      assert cands != [];
      var x :| x in cands && f(x) == d;
      assert x in cands + [b] && f(x) == d';
    } else {
      assert b in cands + [b] && f(b) == d';
    }
  }

  lemma {:induction false} NoneAt(f: Ref -> real, cands: seq<Ref>, d: real)
    requires forall b :: b in cands ==> f(b) > d
    ensures Filter(AtDistance(f, d), cands) == []
  {
    FilterNone(AtDistance(f, d), cands);
  }

  lemma LeastUnique(f: Ref -> real, a: seq<Ref>, b: seq<Ref>, d: real, e: real)
    requires (forall x :: x in a <==> x in b) && IsLeast(f, a, d) && IsLeast(f, b, e)
    ensures d == e
  {
    if b != [] {
      assert b[0] in b;
    }
    if a != [] {
      assert a[0] in a;
      var x :| x in a && f(x) == d;
      var y :| y in b && f(y) == e;
      assert x in b && y in a;
    }
  }

  /** The minimum and the multiset of minimisers do not depend on the order in which bursts are met. */
  lemma BestPermutes(f: Ref -> real, a: seq<Ref>, b: seq<Ref>)
    requires multiset(a) == multiset(b) && forall x :: x in a ==> f(x) < 100.0
    ensures BestFrom(f, Start(), a).dist == BestFrom(f, Start(), b).dist
    ensures multiset(BestFrom(f, Start(), a).bursts) == multiset(BestFrom(f, Start(), b).bursts)
  {
    SameMembers(a, b);
    BestIsLeast(f, a);
    BestIsLeast(f, b);
    LeastUnique(f, a, b, BestFrom(f, Start(), a).dist, BestFrom(f, Start(), b).dist);
    FilterPermutes(AtDistance(f, BestFrom(f, Start(), a).dist), a, b);
  }

  lemma DistancesBelowStart(sqrt: real -> real, t: Ref, b: Ref)
    requires SqrtLaw(sqrt)
    ensures 0.0 <= DistanceTo(sqrt, t)(b) < 100.0
  {
    DistanceBounds(sqrt, t.burst, b.burst);
  }

  // ---------- the scan ----------

  /** What the windowed scan over the table returns. */
  function ScanOf(sqrt: real -> real, p: IndexParam, trained: seq<Ref>, t: Ref): Nearest {
    BestFrom(DistanceTo(sqrt, t), Start(), Candidates(p, trained, t.burst))
  }

  /** A pass over all training bursts that tests the window predicate on each. */
  function BruteForce(sqrt: real -> real, p: IndexParam, trained: seq<Ref>, t: Ref): Nearest {
    BestFrom(DistanceTo(sqrt, t), Start(), Filter(InWindow(p, t.burst), trained))
  }

  /** The windowed scan finds exactly what the pass over everything finds. */
  lemma ScanIsBruteForce(sqrt: real -> real, p: IndexParam, trained: seq<Ref>, t: Ref)
    requires SqrtLaw(sqrt)
    ensures ScanOf(sqrt, p, trained, t).dist == BruteForce(sqrt, p, trained, t).dist
    ensures multiset(ScanOf(sqrt, p, trained, t).bursts) == multiset(BruteForce(sqrt, p, trained, t).bursts)
  {
    hide *;
    forall b: Ref { DistancesBelowStart(sqrt, t, b); }
    CandidatesAreInWindow(p, trained, t.burst);
    ScanUnfolds(sqrt, p, trained, t);
    BestPermutes(DistanceTo(sqrt, t), Candidates(p, trained, t.burst), Filter(InWindow(p, t.burst), trained));
  }

  lemma ScanUnfolds(sqrt: real -> real, p: IndexParam, trained: seq<Ref>, t: Ref)
    ensures ScanOf(sqrt, p, trained, t) == BestFrom(DistanceTo(sqrt, t), Start(), Candidates(p, trained, t.burst))
    ensures BruteForce(sqrt, p, trained, t) ==
              BestFrom(DistanceTo(sqrt, t), Start(), Filter(InWindow(p, t.burst), trained))
  {
  }

  /** The result does not depend on the order in which the training tasks filled the buckets. */
  lemma ScanIgnoresTrainingOrder(sqrt: real -> real, p: IndexParam, a: seq<Ref>, b: seq<Ref>, t: Ref)
    requires SqrtLaw(sqrt) && multiset(a) == multiset(b)
    ensures ScanOf(sqrt, p, a, t).dist == ScanOf(sqrt, p, b, t).dist
    ensures multiset(ScanOf(sqrt, p, a, t).bursts) == multiset(ScanOf(sqrt, p, b, t).bursts)
  {
    hide *;
    forall x: Ref { DistancesBelowStart(sqrt, t, x); }
    ScanIsBruteForce(sqrt, p, a, t);
    ScanIsBruteForce(sqrt, p, b, t);
    ScanUnfolds(sqrt, p, a, t);
    ScanUnfolds(sqrt, p, b, t);
    FilterPermutes(InWindow(p, t.burst), a, b);
    BestPermutes(DistanceTo(sqrt, t), Filter(InWindow(p, t.burst), a), Filter(InWindow(p, t.burst), b));
  }

  /**
   * The window in the counters of the bursts: less than uniRange signatures below the test burst's number, at most the
   * 8-bit sum of that number and the range, and packet counts likewise, where all counts from maxPacketIndex on share
   * a column.
   */
  lemma WindowMeaning(p: IndexParam, t: BurstValue, b: Ref)
    requires ValidIndex(p) && t.pktNum >= 1
    ensures InWindow(p, t)(b) <==>
            t.uniPktNum - b.burst.uniPktNum < p.uniRange &&
            b.burst.uniPktNum <= p.maxUniSig &&
            b.burst.uniPktNum <= (t.uniPktNum + p.uniRange) % 256 &&
            (b.burst.pktNum >= p.maxPacketIndex || t.pktNum - b.burst.pktNum < p.pktRange) &&
            (t.pktNum + p.pktRange >= p.maxPacketIndex || b.burst.pktNum <= t.pktNum + p.pktRange)
  {
    CountersPositive(b);
  }

  /**
   * What a search returns: a burst is among the results exactly when it was trained, its counters are in range of the
   * test burst's, and it is at the returned distance, which no trained burst in range undercuts. With none in range the
   * distance is the start value.
   */
  lemma ScanFindsNearest(sqrt: real -> real, p: IndexParam, trained: seq<Ref>, t: Ref, b: Ref)
    requires SqrtLaw(sqrt) && ValidIndex(p)
    ensures var r := ScanOf(sqrt, p, trained, t);
            var inRange :=
              b in trained &&
              t.burst.uniPktNum - b.burst.uniPktNum < p.uniRange &&
              b.burst.uniPktNum <= p.maxUniSig &&
              b.burst.uniPktNum <= (t.burst.uniPktNum + p.uniRange) % 256 &&
              (b.burst.pktNum >= p.maxPacketIndex || t.burst.pktNum - b.burst.pktNum < p.pktRange) &&
              (t.burst.pktNum + p.pktRange >= p.maxPacketIndex || b.burst.pktNum <= t.burst.pktNum + p.pktRange);
            (b in r.bursts <==> inRange && DistanceOf(sqrt, t.burst, b.burst) == r.dist) &&
            (inRange ==> r.dist <= DistanceOf(sqrt, t.burst, b.burst)) &&
            (r.bursts == [] ==> r.dist == 100.0 && !inRange)
  {
    hide DistanceOf, InWindow, ScanOf;
    CountersPositive(t);
    WindowMeaning(p, t.burst, b);
    ScanFindsInWindow(sqrt, p, trained, t, b);
    if ScanOf(sqrt, p, trained, t).bursts == [] {
      NothingFound(sqrt, p, trained, t);
    }
  }

  lemma NothingFound(sqrt: real -> real, p: IndexParam, trained: seq<Ref>, t: Ref)
    requires SqrtLaw(sqrt) && ScanOf(sqrt, p, trained, t).bursts == []
    ensures ScanOf(sqrt, p, trained, t).dist == 100.0
    ensures forall b :: b in trained ==> !InWindow(p, t.burst)(b)
  {
    var f, cands := DistanceTo(sqrt, t), Candidates(p, trained, t.burst);
    hide DistanceOf, InWindow, Candidates, Filter, BestFrom;
    forall x: Ref { DistancesBelowStart(sqrt, t, x); }
    BestIsLeast(f, cands);
    CandidatesAreInWindow(p, trained, t.burst);
    SameMembers(cands, Filter(InWindow(p, t.burst), trained));
    FilterMembers(InWindow(p, t.burst), trained);
    FilterMembers(AtDistance(f, BestFrom(f, Start(), cands).dist), cands);
  }

  /** No training burst in the window is closer, and exactly those at the least distance are returned. */
  lemma ScanFindsInWindow(sqrt: real -> real, p: IndexParam, trained: seq<Ref>, t: Ref, b: Ref)
    requires SqrtLaw(sqrt)
    ensures var r := ScanOf(sqrt, p, trained, t);
            (b in r.bursts <==>
             b in trained && InWindow(p, t.burst)(b) && DistanceOf(sqrt, t.burst, b.burst) == r.dist) &&
            (b in trained && InWindow(p, t.burst)(b) ==> r.dist <= DistanceOf(sqrt, t.burst, b.burst))
  {
    var f, cands := DistanceTo(sqrt, t), Candidates(p, trained, t.burst);
    hide DistanceOf, InWindow, Candidates, Filter, BestFrom;
    forall x: Ref { DistancesBelowStart(sqrt, t, x); }
    BestIsLeast(f, cands);
    CandidatesAreInWindow(p, trained, t.burst);
    SameMembers(cands, Filter(InWindow(p, t.burst), trained));
    FilterMembers(InWindow(p, t.burst), trained);
    FilterMembers(AtDistance(f, BestFrom(f, Start(), cands).dist), cands);
  }

  /** When a burst equal to the test burst lies in the window. */
  predicate Recalled(p: IndexParam, t: BurstValue) {
    p.uniRange >= 1 && t.uniPktNum + p.uniRange <= 255 && (p.pktRange >= 1 || t.pktNum >= p.maxPacketIndex)
  }

  lemma OwnCellInWindow(p: IndexParam, t: BurstValue)
    requires ValidIndex(p) && 1 <= t.uniPktNum <= p.maxUniSig && t.pktNum >= 1
    ensures Inside(WindowOf(p, t), CellOf(p, t)) <==> Recalled(p, t)
  {
  }

  lemma EqualDistanceZero(sqrt: real -> real, t: Ref, b: Ref)
    requires SqrtLaw(sqrt) && KeyOf(b.burst) == KeyOf(t.burst)
    ensures DistanceOf(sqrt, t.burst, b.burst) == 0.0
  {
    DistanceRespectsKey(sqrt, b.burst, t.burst, b.burst);
    DistanceZero(sqrt, b.burst, b.burst);
  }

  /**
   * Exact recall: a training burst equal to the test burst is returned, at distance zero, if and only if the row
   * range is not empty and does not wrap, and the column range is not empty or the packet count is clamped.
   */
  lemma ExactRecall(sqrt: real -> real, p: IndexParam, trained: seq<Ref>, t: Ref, b: Ref)
    requires SqrtLaw(sqrt) && ValidIndex(p) && b in trained && KeyOf(b.burst) == KeyOf(t.burst)
    requires 1 <= t.burst.uniPktNum <= p.maxUniSig
    ensures b in ScanOf(sqrt, p, trained, t).bursts <==> Recalled(p, t.burst)
    ensures Recalled(p, t.burst) ==> ScanOf(sqrt, p, trained, t).dist == 0.0
  {
    hide ScanOf, DistanceOf, Inside, WindowOf, Recalled;
    OwnCellInWindow(p, t.burst);
    assert InWindow(p, t.burst)(b) <==> Recalled(p, t.burst);
    ScanFindsInWindow(sqrt, p, trained, t, b);
    EqualDistanceZero(sqrt, t, b);
    ScanNonNegative(sqrt, p, trained, t);
  }

  /** One signature and a row range of 255: the upper bound wraps to zero and nothing at all is scanned. */
  lemma WrappedWindowWitness(sqrt: real -> real, t: Ref)
    requires SqrtLaw(sqrt) && t.burst == ANY_BURST
    ensures var p := IndexParam(100, 60, 255, 60);
            ValidIndex(p) && WindowOf(p, t.burst).iMax == 0 && t !in ScanOf(sqrt, p, [t], t).bursts
  {
    hide ScanOf, SqrtLaw;
    ExactRecall(sqrt, IndexParam(100, 60, 255, 60), [t], t, t);
  }

  lemma ScanNonNegative(sqrt: real -> real, p: IndexParam, trained: seq<Ref>, t: Ref)
    requires SqrtLaw(sqrt)
    ensures ScanOf(sqrt, p, trained, t).dist >= 0.0
  {
    hide DistanceOf, Candidates;
    forall x: Ref { DistancesBelowStart(sqrt, t, x); }
    BestIsLeast(DistanceTo(sqrt, t), Candidates(p, trained, t.burst));
  }

  /** Bursts equal under operator== get the same scan result, so keying the cache by burst is sound. */
  lemma ScanRespectsKey(sqrt: real -> real, p: IndexParam, trained: seq<Ref>, t: Ref, u: Ref)
    requires KeyOf(t.burst) == KeyOf(u.burst)
    ensures ScanOf(sqrt, p, trained, t) == ScanOf(sqrt, p, trained, u)
  {
    assert WindowOf(p, t.burst) == WindowOf(p, u.burst);
    forall b: Ref ensures DistanceTo(sqrt, t)(b) == DistanceTo(sqrt, u)(b) {
      DistanceRespectsKey(sqrt, t.burst, u.burst, b.burst);
    }
    BestSame(DistanceTo(sqrt, t), DistanceTo(sqrt, u), Candidates(p, trained, t.burst));
  }

  lemma {:induction false} BestSame(f: Ref -> real, g: Ref -> real, cands: seq<Ref>)
    requires forall b: Ref :: f(b) == g(b)
    ensures BestFrom(f, Start(), cands) == BestFrom(g, Start(), cands)
  {
    if cands != [] {
      BestSame(f, g, cands[..|cands| - 1]);
    }
  }

  // ---------- the classifier's table ----------

  /** The best of the bursts stored in the given cells. */
  ghost function BestOver(f: Ref -> real, p: IndexParam, trained: seq<Ref>, cells: seq<(int, int)>): Nearest {
    BestFrom(f, Start(), Flatten(Groups(CellKey(p), trained, cells)))
  }

  lemma CellJoins(f: Ref -> real, p: IndexParam, trained: seq<Ref>, cells: seq<(int, int)>, c: (int, int))
    ensures BestOver(f, p, trained, cells + [c]) ==
              BestFrom(f, BestOver(f, p, trained, cells), Filter(WithKey(CellKey(p), c), trained))
  {
    assert (cells + [c])[..|cells|] == cells;
    FlattenSnoc(Groups(CellKey(p), trained, cells), Filter(WithKey(CellKey(p), c), trained));
    BestConcat(f, Start(), Flatten(Groups(CellKey(p), trained, cells)), Filter(WithKey(CellKey(p), c), trained));
  }

  lemma RowCellsStep(i: int, jMin: int, j: int)
    requires jMin <= j
    ensures RowCells(i, jMin, j + 1) == RowCells(i, jMin, j) + [(i, j)]
  {
  }

  lemma NoRowCells(i: int, jMin: int, jMax: int)
    ensures RowCells(i, jMin, jMin) == []
    ensures jMax <= jMin ==> RowCells(i, jMin, jMax) == []
  {
  }

  lemma CellsStep(iMin: int, i: int, jMin: int, jMax: int)
    requires iMin <= i
    ensures Cells(iMin, i + 1, jMin, jMax) == Cells(iMin, i, jMin, jMax) + RowCells(i, jMin, jMax)
  {
  }

  lemma OverNothing(f: Ref -> real, p: IndexParam, trained: seq<Ref>, iMin: int, iMax: int, jMin: int, jMax: int)
    ensures Start() == BestOver(f, p, trained, Cells(iMin, iMin, jMin, jMax))
    ensures iMax <= iMin ==> Cells(iMin, iMax, jMin, jMax) == Cells(iMin, iMin, jMin, jMax)
  {
  }

  lemma ScanIsOverWindow(sqrt: real -> real, p: IndexParam, trained: seq<Ref>, t: Ref)
    ensures ScanOf(sqrt, p, trained, t) == BestOver(DistanceTo(sqrt, t), p, trained, WindowCells(WindowOf(p, t.burst)))
  {
  }

  class Classifier {
    const p: IndexParam
    const train: array2<seq<Ref>>
    /** Every training burst, in the order in which they were stored. */
    ghost var trained: seq<Ref>

    ghost predicate Valid()
      reads this, train
    {
      ValidIndex(p) && train.Length0 == p.maxUniSig && train.Length1 == p.maxPacketIndex &&
      forall i, j :: 0 <= i < train.Length0 && 0 <= j < train.Length1 ==>
                       train[i, j] == Filter(WithKey(CellKey(p), (i, j)), trained)
    }

    constructor (p: IndexParam)
      requires ValidIndex(p)
      ensures Valid() && trained == [] && this.p == p && fresh(train)
    {
      this.p := p;
      train := new seq<Ref>[p.maxUniSig, p.maxPacketIndex]((_, _) => []);
      trained := [];
    }

    /** Stores one training burst; its bucket exists because its counters are positive and its signatures capped. */
    method Store(burst: Ref)
      requires Valid() && burst.burst.uniPktNum <= p.maxUniSig
      modifies this, train
      ensures Valid() && trained == old(trained) + [burst]
      ensures 1 <= burst.burst.uniPktNum <= train.Length0 && 1 <= train.Length1 && burst.burst.pktNum >= 1
      ensures var row := burst.burst.uniPktNum - 1;
              var column := (if burst.burst.pktNum < train.Length1 then burst.burst.pktNum else train.Length1) - 1;
              train[row, column] == old(train[row, column]) + [burst] &&
              forall i, j :: 0 <= i < train.Length0 && 0 <= j < train.Length1 && (i, j) != (row, column) ==>
                               train[i, j] == old(train[i, j])
    {
      CountersPositive(burst);
      var packetNumIndex := Min(burst.burst.pktNum, p.maxPacketIndex);
      ghost var before := trained;
      var row, column := burst.burst.uniPktNum - 1, packetNumIndex - 1;
      train[row, column] := train[row, column] + [burst];
      trained := trained + [burst];
      forall i, j | 0 <= i < train.Length0 && 0 <= j < train.Length1
        ensures train[i, j] == Filter(WithKey(CellKey(p), (i, j)), trained)
      {
        FilterSnoc(WithKey(CellKey(p), (i, j)), before, burst);
      }
    }

    /** The table insert of one device; the map is walked in an arbitrary order. */
    method StoreAll(trainMap: map<Ref, int>) returns (ghost order: seq<Ref>)
      requires Valid() && forall r :: r in trainMap ==> r.burst.uniPktNum <= p.maxUniSig
      modifies this, train
      ensures Valid() && trained == old(trained) + order
      ensures WalkOrder(order, trainMap.Keys)
    {
      hide Filter;
      order := [];
      var remaining := trainMap.Keys;
      while remaining != {}
        invariant Valid() && remaining <= trainMap.Keys && trained == old(trained) + order
        invariant NoDup(order) && forall r :: r in order <==> r in trainMap && r !in remaining
        decreases remaining
      {
        var burst: Ref :| burst in remaining;
        Store(burst);
        order := order + [burst];
        remaining := remaining - {burst};
      }
    }

    /** Merges one device's bursts by hash, then greedily if enabled, and stores what is kept. */
    method TrainOneDevice(sqrt: real -> real, h: Hasher, burstGroups: seq<seq<Ref>>, mergeIdentical: bool)
      returns (trainMap: map<Ref, int>, ghost merged: map<Ref, int>, ghost order: seq<Ref>)
      requires Valid() && SqrtLaw(sqrt) && AllFit(p, Flatten(burstGroups))
      modifies this, train
      ensures Valid() && trained == old(trained) + order && WalkOrder(order, trainMap.Keys)
      ensures CountsGroups(RefHash(h), GroupMap(RefHash(h), Flatten(burstGroups)), merged)
      ensures if mergeIdentical then GreedyRun(sqrt, merged, trainMap) else trainMap == merged
    {
      hide SqrtLaw, CountsGroups, GroupMap, GreedyRun, RefHash, WalkOrder;
      trainMap := MergeStrictHash(h, burstGroups);
      merged := trainMap;
      EntriesFit(p, h, Flatten(burstGroups), merged);
      if mergeIdentical {
        trainMap := MergeIdenticalKeys(sqrt, trainMap);
      }
      order := StoreAll(trainMap);
    }

    /** The two nested loops of the search. */
    method Scan(sqrt: real -> real, testBurst: Ref) returns (nearest: Nearest)
      requires Valid() && SqrtLaw(sqrt)
      ensures nearest == ScanOf(sqrt, p, trained, testBurst)
    {
      hide BestOver, Cells, Filter;
      var t := testBurst.burst;
      var iMin := Max(t.uniPktNum - p.uniRange, 0);
      var iMax := Min((t.uniPktNum + p.uniRange) % 256, p.maxUniSig);
      var jMin := Max(t.pktNum - p.pktRange, 0);
      jMin := Min(jMin, p.maxPacketIndex - 1);
      var jMax := Min(t.pktNum + p.pktRange, p.maxPacketIndex);
      nearest := Start();
      ghost var f := DistanceTo(sqrt, testBurst);
      OverNothing(f, p, trained, iMin, iMax, jMin, jMax);
      for i := iMin to Max(iMin, iMax)
        invariant nearest == BestOver(f, p, trained, Cells(iMin, i, jMin, jMax))
      {
        nearest := ScanRow(sqrt, testBurst, i, jMin, jMax, nearest, Cells(iMin, i, jMin, jMax));
        CellsStep(iMin, i, jMin, jMax);
      }
      ScanIsOverWindow(sqrt, p, trained, testBurst);
    }

    method ScanRow(sqrt: real -> real, testBurst: Ref, i: int, jMin: int, jMax: int, before: Nearest,
                   ghost cells: seq<(int, int)>)
      returns (nearest: Nearest)
      requires Valid() && SqrtLaw(sqrt) && 0 <= i < train.Length0 && 0 <= jMin && jMax <= train.Length1
      requires before == BestOver(DistanceTo(sqrt, testBurst), p, trained, cells)
      ensures nearest == BestOver(DistanceTo(sqrt, testBurst), p, trained, cells + RowCells(i, jMin, jMax))
    {
      hide BestOver, BestFrom, RowCells, Filter, DistanceTo, CellKey;
      nearest := before;
      NoRowCells(i, jMin, jMax);
      assert cells + [] == cells;
      for j := jMin to Max(jMin, jMax)
        invariant nearest == BestOver(DistanceTo(sqrt, testBurst), p, trained, cells + RowCells(i, jMin, j))
      {
        nearest := ScanCell(sqrt, testBurst, train[i, j], nearest);
        CellJoins(DistanceTo(sqrt, testBurst), p, trained, cells + RowCells(i, jMin, j), (i, j));
        RowCellsStep(i, jMin, j);
        ConcatAssoc(cells, RowCells(i, jMin, j), [(i, j)]);
      }
    }

    /** The bursts of one bucket. */
    method ScanCell(sqrt: real -> real, testBurst: Ref, bucket: seq<Ref>, before: Nearest) returns (nearest: Nearest)
      requires SqrtLaw(sqrt)
      ensures nearest == BestFrom(DistanceTo(sqrt, testBurst), before, bucket)
    {
      hide DistanceOf;
      var minDistance, nearestVec := before.dist, before.bursts;
      for k := 0 to |bucket|
        invariant Nearest(minDistance, nearestVec) == BestFrom(DistanceTo(sqrt, testBurst), before, bucket[..k])
      {
        var trainBurst := bucket[k];
        var distance := Distance(sqrt, testBurst.burst, trainBurst.burst);
        BestSnoc(DistanceTo(sqrt, testBurst), before, bucket[..k], trainBurst);
        assert bucket[..k + 1] == bucket[..k] + [trainBurst];
        if distance < minDistance {
          nearestVec := [trainBurst];
          minDistance := distance;
        } else if distance == minDistance {
          nearestVec := nearestVec + [trainBurst];
        }
      }
      WholePrefix(bucket);
      nearest := Nearest(minDistance, nearestVec);
    }
  }

  /** No burst has more signatures than the table has rows. */
  ghost predicate AllFit(p: IndexParam, bursts: seq<Ref>) {
    forall r :: r in bursts ==> r.burst.uniPktNum <= p.maxUniSig
  }

  lemma EntriesFit(p: IndexParam, h: Hasher, all: seq<Ref>, merged: map<Ref, int>)
    requires AllFit(p, all) && CountsGroups(RefHash(h), GroupMap(RefHash(h), all), merged)
    ensures forall r :: r in merged ==> r.burst.uniPktNum <= p.maxUniSig
  {
    hide CountsGroups, GroupMap, RefHash;
    forall r | r in merged ensures r.burst.uniPktNum <= p.maxUniSig {
      EntryCount(h, all, merged, r);
    }
  }

  /**
   * What training promises a later search: if the greedy merge stays below its cap, then for every training burst e
   * whose hash no unequal one of the device shares, some stored burst is within 0.7 of it, and a test burst equal to
   * e gets a distance below 0.7 whenever that stored burst lies in its window.
   */
  lemma TrainedBurstIsNear(sqrt: real -> real, h: Hasher, p: IndexParam, all: seq<Ref>, merged: map<Ref, int>,
                           trainMap: map<Ref, int>, trained: seq<Ref>, e: Ref, t: Ref) returns (r: Ref)
    requires SqrtLaw(sqrt) && OwnHash(h, all, e) && e in all && KeyOf(t.burst) == KeyOf(e.burst)
    requires CountsGroups(RefHash(h), GroupMap(RefHash(h), all), merged)
    requires GreedyRun(sqrt, merged, trainMap) && |trainMap| <= MERGE_CAP
    requires forall q :: q in trainMap ==> q in trained
    ensures r in trained && DistanceOf(sqrt, t.burst, r.burst) < 0.7
    ensures InWindow(p, t.burst)(r) ==> ScanOf(sqrt, p, trained, t).dist < 0.7
  {
    hide CountsGroups, GroupMap, RefHash, GreedyRun, OwnHash, DistanceOf, KeyOf, ScanOf, InWindow;
    var q := EqualEntry(h, all, merged, e);
    r := EveryBurstHasHome(sqrt, merged, trainMap, q);
    if r == q {
      EqualDistanceZero(sqrt, t, r);
    } else {
      DistanceSymmetric(sqrt, r.burst, q.burst);
      DistanceRespectsKey(sqrt, q.burst, t.burst, r.burst);
    }
    ScanFindsInWindow(sqrt, p, trained, t, r);
  }

  lemma CountersPositive(r: Ref)
    ensures r.burst.uniPktNum >= 1 && r.burst.pktNum >= 1
  {
    assert Total(r.burst.detail) >= 1;
  }
}
