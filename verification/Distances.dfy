/** Burst::Distance of src/Burst.cpp: the nested scans and the closed formula they compute. */
module Distances {
  import opened BurstValues

  /** Slots of the array that marks matched entries of the second burst. */
  const CHECK_SLOTS := 101

  /** Packet counts further apart than this make two bursts incomparable. */
  const MAX_PKT_GAP := 120

  function Squared(x: real): real {
    x * x
  }

  /** All that is assumed of the square root. */
  ghost predicate SqrtLaw(sqrt: real -> real) {
    forall x :: x >= 0.0 ==> sqrt(x) >= 0.0 && Squared(sqrt(x)) == x
  }

  /** Non-empty, not wrapped, and within the slots of the check array. */
  predicate Comparable(v: BurstValue) {
    Sound(v) && v.pktNum >= 1 && v.uniPktNum <= CHECK_SLOTS
  }

  predicate FarApart(a: BurstValue, b: BurstValue) {
    b.pktNum > a.pktNum + MAX_PKT_GAP || a.pktNum > b.pktNum + MAX_PKT_GAP
  }

  function Share(num: int, total: int): real
    requires total > 0
  {
    num as real / total as real
  }

  /** Share of sig among all packets of v. */
  function Frequency(v: BurstValue, sig: int): real
    requires v.pktNum > 0
  {
    Share(CountOf(v.detail, sig), v.pktNum)
  }

  /** The square root of a share of total packets, as a function of the packet count. */
  function Root(sqrt: real -> real, total: int): int -> real
    requires total > 0
  {
    (num: int) => sqrt(Share(num, total))
  }

  /** Sum of f(p) * g(q) over the signatures of a, p and q being their counts in a and in b. */
  function Affinity(f: int -> real, a: seq<SigCount>, g: int -> real, b: seq<SigCount>): real {
    if a == [] then 0.0
    else
      var e := a[|a| - 1];
      Affinity(f, a[..|a| - 1], g, b) + f(e.num) * g(CountOf(b, e.sig))
  }

  /** The unscaled squared distance: two minus twice the sum of sqrt(p) * sqrt(q) over shared signatures. */
  function Gap(sqrt: real -> real, a: BurstValue, b: BurstValue): real
    requires a.pktNum > 0 && b.pktNum > 0
  {
    2.0 - 2.0 * Affinity(Root(sqrt, a.pktNum), a.detail, Root(sqrt, b.pktNum), b.detail)
  }

  /** g times the larger packet count over the smaller one. */
  function Scaled(g: real, na: int, nb: int): real
    requires na > 0 && nb > 0
  {
    if na > nb then g * na as real / nb as real else g * nb as real / na as real
  }

  /** The closed form of the distance. */
  function DistanceOf(sqrt: real -> real, a: BurstValue, b: BurstValue): real
    requires a.pktNum > 0 && b.pktNum > 0
  {
    if FarApart(a, b) then 1.0 else sqrt(Scaled(Gap(sqrt, a, b), a.pktNum, b.pktNum))
  }

  // ---------- facts about shares and square roots ----------

  lemma ScaleStrictly(x: real, y: real, s: real)
    requires x < y && s > 0.0
    ensures x * s < y * s
  {
  }

  // The zero is passed as a variable: the solver loses nonlinear facts about literals.

  lemma PositiveProduct(x: real, y: real, zero: real)
    requires zero == 0.0 && x > zero && y > zero
    ensures x * y > zero
  {
  }

  lemma NoPositiveSquare(x: real, zero: real)
    requires zero == 0.0 && Squared(x) <= zero
    ensures x == zero
  {
    if x > zero {
      PositiveProduct(x, x, zero);
    }
    if x < zero {
      PositiveProduct(-x, -x, zero);
    }
  }

  lemma ZeroSquare(x: real)
    requires Squared(x) == 0.0
    ensures x == 0.0
  {
    NoPositiveSquare(x, 0.0);
  }

  lemma ShareAdds(x: int, y: int, n: int)
    requires n > 0
    ensures Share(x + y, n) == Share(x, n) + Share(y, n)
  {
  }

  lemma FullShare(n: int)
    requires n > 0
    ensures Share(n, n) == 1.0
  {
  }

  lemma ShareBounds(x: int, n: int)
    requires 0 <= x <= n && n > 0
    ensures 0.0 <= Share(x, n) <= 1.0
    ensures Share(x, n) == 0.0 <==> x == 0
  {
    assert Share(x, n) * n as real == x as real;
  }

  /** f squares to the share of n packets. */
  ghost predicate IsRoot(f: int -> real, n: int) {
    n > 0 && forall k :: k >= 0 ==> f(k) >= 0.0 && Squared(f(k)) == Share(k, n)
  }

  lemma RootIsRoot(sqrt: real -> real, n: int)
    requires SqrtLaw(sqrt) && n > 0
    ensures IsRoot(Root(sqrt, n), n)
    ensures Root(sqrt, n)(0) == 0.0
  {
    var f := Root(sqrt, n);
    forall k | k >= 0 ensures f(k) >= 0.0 && Squared(f(k)) == Share(k, n) {
      var x := Share(k, n);
      assert x >= 0.0;
      assert f(k) == sqrt(x);
    }
    assert Share(0, n) == 0.0;
    assert Squared(f(0)) == 0.0;
    ZeroSquare(f(0));
  }

  lemma SquareOfDifference(x: real, y: real)
    ensures Squared(x - y) == Squared(x) + Squared(y) - 2.0 * (x * y)
    ensures Squared(x - y) >= 0.0
    ensures Squared(x - y) == 0.0 <==> x == y
  {
    if Squared(x - y) == 0.0 {
      ZeroSquare(x - y);
    }
  }

  lemma SquaresOrdered(x: real, y: real)
    requires 0.0 <= x < y
    ensures Squared(x) < Squared(y)
  {
    var d := y - x;
    assert y == x + d;
    assert y * y == x * x + 2.0 * (x * d) + d * d;
    assert x * d >= 0.0;
    assert d * d > 0.0;
  }

  lemma SameSquares(x: real, y: real)
    requires x >= 0.0 && y >= 0.0
    ensures x == y <==> Squared(x) == Squared(y)
  {
    if x < y {
      SquaresOrdered(x, y);
    }
    if y < x {
      SquaresOrdered(y, x);
    }
  }

  // ---------- what the two scans accumulate ----------

  /** Sum of squared differences over the signatures of a. */
  function Walk(f: int -> real, a: seq<SigCount>, g: int -> real, b: seq<SigCount>): real {
    if a == [] then 0.0
    else
      var e := a[|a| - 1];
      Walk(f, a[..|a| - 1], g, b) + Squared(f(e.num) - g(CountOf(b, e.sig)))
  }

  /** Packets of b whose signature a also has. */
  function Matched(a: seq<SigCount>, b: seq<SigCount>): int {
    if a == [] then 0 else Matched(a[..|a| - 1], b) + CountOf(b, a[|a| - 1].sig)
  }

  /** Packets of b whose signature a does not have. */
  function Remainder(a: seq<SigCount>, b: seq<SigCount>): int {
    if b == [] then 0
    else
      var e := b[|b| - 1];
      Remainder(a, b[..|b| - 1]) + (if HasSig(a, e.sig) then 0 else e.num)
  }

  lemma PrefixSigs(d: seq<SigCount>, i: nat, s: int)
    requires i < |d|
    ensures HasSig(d[..i + 1], s) <==> HasSig(d[..i], s) || d[i].sig == s
  {
    var p := d[..i + 1];
    assert forall k :: 0 <= k < i ==> p[k] == d[..i][k];
    assert p[i] == d[i];
    if HasSig(d[..i], s) {
      var k :| 0 <= k < i && d[..i][k].sig == s;
      assert p[k].sig == s;
    }
  }

  lemma {:induction false} MatchedSnoc(a: seq<SigCount>, b: seq<SigCount>)
    requires b != [] && Distinct(a)
    ensures Matched(a, b) == Matched(a, b[..|b| - 1]) + (if HasSig(a, b[|b| - 1].sig) then b[|b| - 1].num else 0)
  {
    if a != [] {
      var m := |a| - 1;
      MatchedSnoc(a[..m], b);
      PrefixSigs(a, m, b[|b| - 1].sig);
      assert a[..m + 1] == a;
    }
  }

  lemma {:induction false} MatchedNothing(a: seq<SigCount>)
    ensures Matched(a, []) == 0
  {
    if a != [] {
      MatchedNothing(a[..|a| - 1]);
    }
  }

  lemma {:induction false} MatchedAndRemainder(a: seq<SigCount>, b: seq<SigCount>)
    requires Distinct(a)
    ensures Matched(a, b) + Remainder(a, b) == Total(b)
  {
    if b == [] {
      MatchedNothing(a);
    } else {
      MatchedSnoc(a, b);
      MatchedAndRemainder(a, b[..|b| - 1]);
    }
  }

  lemma {:induction false} WalkExpands(f: int -> real, a: seq<SigCount>, na: int,
                                       g: int -> real, b: seq<SigCount>, nb: int)
    requires IsRoot(f, na) && IsRoot(g, nb) && Positive(a) && Positive(b)
    ensures Walk(f, a, g, b) == Share(Total(a), na) + Share(Matched(a, b), nb) - 2.0 * Affinity(f, a, g, b)
  {
    if a != [] {
      var m := |a| - 1;
      var e := a[m];
      WalkExpands(f, a[..m], na, g, b, nb);
      CountOfPositive(b, e.sig);
      SquareOfDifference(f(e.num), g(CountOf(b, e.sig)));
      ShareAdds(Total(a[..m]), e.num, na);
      ShareAdds(Matched(a[..m], b), CountOf(b, e.sig), nb);
    }
  }

  /** Both scans together add up to the gap. */
  lemma ScansMakeGap(sqrt: real -> real, a: BurstValue, b: BurstValue)
    requires SqrtLaw(sqrt) && Sound(a) && Sound(b) && a.pktNum > 0 && b.pktNum > 0
    ensures Walk(Root(sqrt, a.pktNum), a.detail, Root(sqrt, b.pktNum), b.detail)
            + Share(Remainder(a.detail, b.detail), b.pktNum) == Gap(sqrt, a, b)
  {
    var na, nb := a.pktNum, b.pktNum;
    var m, r := Matched(a.detail, b.detail), Remainder(a.detail, b.detail);
    RootIsRoot(sqrt, na);
    RootIsRoot(sqrt, nb);
    WalkExpands(Root(sqrt, na), a.detail, na, Root(sqrt, nb), b.detail, nb);
    MatchedAndRemainder(a.detail, b.detail);
    ShareAdds(m, r, nb);
    FullShare(na);
    FullShare(nb);
    assert Share(Total(a.detail), na) == 1.0;
    assert Share(m, nb) + Share(r, nb) == 1.0;
  }

  /** One step of the first scan: what a signature of the first burst finds in the second. */
  method FindMatch(sig: int, burst2: BurstValue, check: array<bool>) returns (matched: bool, cnt2: int)
    requires Sound(burst2) && burst2.uniPktNum <= check.Length
    requires forall j :: 0 <= j < burst2.uniPktNum && burst2.detail[j].sig == sig ==> !check[j]
    modifies check
    ensures matched <==> HasSig(burst2.detail, sig)
    ensures cnt2 == CountOf(burst2.detail, sig)
    ensures forall j :: 0 <= j < burst2.uniPktNum ==> (check[j] <==> old(check[j]) || burst2.detail[j].sig == sig)
  {
    matched, cnt2 := false, 0;
    for j := 0 to burst2.uniPktNum
      invariant check[..] == old(check[..])
      invariant forall k :: 0 <= k < j ==> burst2.detail[k].sig != sig
    {
      if !check[j] && sig == burst2.detail[j].sig {
        CountOfPresent(burst2.detail, j);
        cnt2 := burst2.detail[j].num;
        check[j] := true;
        matched := true;
        return;
      }
      assert check[..][j] == old(check[..])[j];
    }
    CountOfAbsent(burst2.detail, sig);
  }

  /** The first scan: every signature of the first burst against the second, marking what it matches. */
  method ScanFirst(f: int -> real, g: int -> real, self: BurstValue, burst2: BurstValue, check: array<bool>)
    returns (distance: real)
    requires IsRoot(f, self.pktNum) && g(0) == 0.0
    requires Sound(self) && Sound(burst2) && burst2.uniPktNum <= check.Length
    requires forall j :: 0 <= j < check.Length ==> !check[j]
    modifies check
    ensures forall j :: 0 <= j < burst2.uniPktNum ==> (check[j] <==> HasSig(self.detail, burst2.detail[j].sig))
    ensures distance == Walk(f, self.detail, g, burst2.detail)
  {
    hide Walk;
    distance := 0.0;
    WalkOfNone(f, g, burst2.detail);
    for i := 0 to self.uniPktNum
      invariant Marks(check[..], self.detail[..i], burst2.detail)
      invariant distance == Walk(f, self.detail[..i], g, burst2.detail)
    {
      distance := ScanOneSig(f, g, self, burst2, check, i, distance);
    }
    assert self.detail[..self.uniPktNum] == self.detail;
  }

  /** The marks tell which entries of b have a signature of a. */
  ghost predicate Marks(marks: seq<bool>, a: seq<SigCount>, b: seq<SigCount>) {
    |b| <= |marks| && forall j :: 0 <= j < |b| ==> (marks[j] <==> HasSig(a, b[j].sig))
  }

  lemma WalkOfNone(f: int -> real, g: int -> real, b: seq<SigCount>)
    ensures Walk(f, [], g, b) == 0.0
  {
  }

  lemma WalkStep(f: int -> real, g: int -> real, a: seq<SigCount>, b: seq<SigCount>, i: nat)
    requires i < |a| && g(0) == 0.0
    ensures Walk(f, a[..i + 1], g, b) == Walk(f, a[..i], g, b) + Squared(f(a[i].num) - g(CountOf(b, a[i].sig)))
    ensures !HasSig(b, a[i].sig) ==> CountOf(b, a[i].sig) == 0
  {
    assert a[..i + 1][..i] == a[..i];
    if !HasSig(b, a[i].sig) {
      CountOfAbsent(b, a[i].sig);
    }
  }

  /** Marking the entries of one more signature. */
  lemma MarksGrow(marks: seq<bool>, marks': seq<bool>, a: seq<SigCount>, b: seq<SigCount>, i: nat)
    requires i < |a| && |marks| == |marks'| && Marks(marks, a[..i], b)
    requires forall j :: 0 <= j < |b| ==> (marks'[j] <==> marks[j] || b[j].sig == a[i].sig)
    ensures Marks(marks', a[..i + 1], b)
  {
    hide HasSig;
    forall j | 0 <= j < |b| ensures marks'[j] <==> HasSig(a[..i + 1], b[j].sig) {
      PrefixSigs(a, i, b[j].sig);
    }
  }

  lemma NewSig(a: seq<SigCount>, i: nat)
    requires Distinct(a) && i < |a|
    ensures !HasSig(a[..i], a[i].sig)
  {
  }

  /** The body of the loop: what one signature of the first burst adds. */
  method ScanOneSig(f: int -> real, g: int -> real, self: BurstValue, burst2: BurstValue, check: array<bool>, i: nat,
                    distance: real)
    returns (distance': real)
    requires IsRoot(f, self.pktNum) && g(0) == 0.0
    requires Sound(self) && Sound(burst2) && burst2.uniPktNum <= check.Length && i < self.uniPktNum
    requires Marks(check[..], self.detail[..i], burst2.detail)
    requires distance == Walk(f, self.detail[..i], g, burst2.detail)
    modifies check
    ensures Marks(check[..], self.detail[..i + 1], burst2.detail)
    ensures distance' == Walk(f, self.detail[..i + 1], g, burst2.detail)
  {
    hide Walk, HasSig, CountOf, Share;
    var cnt1, sig := self.detail[i].num, self.detail[i].sig;
    NewSig(self.detail, i);
    var matched, cnt2 := FindMatch(sig, burst2, check);
    MarksGrow(old(check[..]), check[..], self.detail, burst2.detail, i);
    WalkStep(f, g, self.detail, burst2.detail, i);
    if matched {
      distance' := distance + Squared(f(cnt1) - g(cnt2));
    } else {
      assert Squared(f(cnt1) - 0.0) == Squared(f(cnt1));
      distance' := distance + Share(cnt1, self.pktNum);
    }
  }

  /** The second scan: the packets of the second burst that nothing matched. */
  method ScanRemainder(self: BurstValue, burst2: BurstValue, check: array<bool>) returns (cnt2Remain: int)
    requires Sound(burst2) && burst2.uniPktNum <= check.Length
    requires forall j :: 0 <= j < burst2.uniPktNum ==> (check[j] <==> HasSig(self.detail, burst2.detail[j].sig))
    ensures cnt2Remain == Remainder(self.detail, burst2.detail)
  {
    cnt2Remain := 0;
    for j := 0 to burst2.uniPktNum
      invariant cnt2Remain == Remainder(self.detail, burst2.detail[..j])
    {
      if !check[j] {
        cnt2Remain := cnt2Remain + burst2.detail[j].num;
      }
      assert burst2.detail[..j + 1][..j] == burst2.detail[..j];
    }
    assert burst2.detail[..burst2.uniPktNum] == burst2.detail;
  }

  /** The scans of Burst::Distance compute the closed form. */
  method Distance(sqrt: real -> real, self: BurstValue, burst2: BurstValue) returns (d: real)
    requires SqrtLaw(sqrt) && Sound(self) && Sound(burst2) && self.pktNum >= 1 && burst2.pktNum >= 1
    requires FarApart(self, burst2) || burst2.uniPktNum <= CHECK_SLOTS
    ensures d == DistanceOf(sqrt, self, burst2)
    ensures var lesser := if self.pktNum < burst2.pktNum then self.pktNum else burst2.pktNum;
            var greater := if self.pktNum < burst2.pktNum then burst2.pktNum else self.pktNum;
            if greater - lesser > 120 then d == 1.0
            else d >= 0.0 && d * d * lesser as real == Gap(sqrt, self, burst2) * greater as real
  {
    hide Gap, Squared;
    DistanceSquared(sqrt, self, burst2);
    SquareIs(DistanceOf(sqrt, self, burst2));
    if burst2.pktNum > self.pktNum + 120 || self.pktNum > burst2.pktNum + 120 {
      return 1.0;
    }
    DistanceBounds(sqrt, self, burst2);
    var distance := BothScans(sqrt, self, burst2);
    d := sqrt(Scaled(distance, self.pktNum, burst2.pktNum));
  }

  lemma SquareIs(x: real)
    ensures Squared(x) == x * x
  {
  }

  /** The two scans with their check array. */
  method BothScans(sqrt: real -> real, self: BurstValue, burst2: BurstValue) returns (distance: real)
    requires SqrtLaw(sqrt) && Sound(self) && Sound(burst2) && self.pktNum >= 1 && burst2.pktNum >= 1
    requires burst2.uniPktNum <= CHECK_SLOTS
    ensures distance == Gap(sqrt, self, burst2)
  {
    hide Walk, Remainder, Gap, Share;
    var f, g := Root(sqrt, self.pktNum), Root(sqrt, burst2.pktNum);
    RootIsRoot(sqrt, self.pktNum);
    RootIsRoot(sqrt, burst2.pktNum);
    var check := new bool[CHECK_SLOTS](_ => false);
    distance := ScanFirst(f, g, self, burst2, check);
    var cnt2Remain := ScanRemainder(self, burst2, check);
    distance := distance + Share(cnt2Remain, burst2.pktNum);
    ScansMakeGap(sqrt, self, burst2);
  }

  // ---------- what the closed form means ----------

  lemma {:induction false} AffinitySnocRight(g: int -> real, b: seq<SigCount>, f: int -> real, a: seq<SigCount>)
    requires f(0) == 0.0 && g(0) == 0.0
    requires a != [] && Distinct(a) && Distinct(b)
    ensures var e := a[|a| - 1];
            Affinity(g, b, f, a) == Affinity(g, b, f, a[..|a| - 1]) + g(CountOf(b, e.sig)) * f(e.num)
  {
    if b != [] {
      var m, n := |b| - 1, |a| - 1;
      AffinitySnocRight(g, b[..m], f, a);
      if b[m].sig == a[n].sig {
        assert !HasSig(a[..n], a[n].sig);
        CountOfAbsent(a[..n], a[n].sig);
        assert !HasSig(b[..m], b[m].sig);
        CountOfAbsent(b[..m], b[m].sig);
      }
    }
  }

  lemma {:induction false} AffinityWithNothing(g: int -> real, b: seq<SigCount>, f: int -> real)
    requires f(0) == 0.0
    ensures Affinity(g, b, f, []) == 0.0
  {
    if b != [] {
      AffinityWithNothing(g, b[..|b| - 1], f);
    }
  }

  lemma {:induction false} AffinitySymmetric(f: int -> real, a: seq<SigCount>, g: int -> real, b: seq<SigCount>)
    requires f(0) == 0.0 && g(0) == 0.0 && Distinct(a) && Distinct(b)
    ensures Affinity(f, a, g, b) == Affinity(g, b, f, a)
  {
    if a == [] {
      AffinityWithNothing(g, b, f);
    } else {
      AffinitySymmetric(f, a[..|a| - 1], g, b);
      AffinitySnocRight(g, b, f, a);
    }
  }

  lemma ScaledSymmetric(g: real, na: int, nb: int)
    requires na > 0 && nb > 0
    ensures Scaled(g, na, nb) == Scaled(g, nb, na)
  {
  }

  /** The distance does not depend on which burst asks. */
  lemma DistanceSymmetric(sqrt: real -> real, a: BurstValue, b: BurstValue)
    requires SqrtLaw(sqrt) && Sound(a) && Sound(b) && a.pktNum > 0 && b.pktNum > 0
    ensures DistanceOf(sqrt, a, b) == DistanceOf(sqrt, b, a)
  {
    RootIsRoot(sqrt, a.pktNum);
    RootIsRoot(sqrt, b.pktNum);
    AffinitySymmetric(Root(sqrt, a.pktNum), a.detail, Root(sqrt, b.pktNum), b.detail);
    assert Gap(sqrt, a, b) == Gap(sqrt, b, a);
    ScaledSymmetric(Gap(sqrt, a, b), a.pktNum, b.pktNum);
  }

  lemma {:induction false} AffinityNonNegative(f: int -> real, a: seq<SigCount>, na: int,
                                               g: int -> real, b: seq<SigCount>, nb: int)
    requires IsRoot(f, na) && IsRoot(g, nb) && Positive(a) && Positive(b)
    ensures Affinity(f, a, g, b) >= 0.0
  {
    if a != [] {
      var e := a[|a| - 1];
      AffinityNonNegative(f, a[..|a| - 1], na, g, b, nb);
      CountOfPositive(b, e.sig);
    }
  }

  lemma {:induction false} WalkNonNegative(f: int -> real, a: seq<SigCount>, g: int -> real, b: seq<SigCount>)
    ensures Walk(f, a, g, b) >= 0.0
    ensures Walk(f, a, g, b) == 0.0 <==> forall k :: 0 <= k < |a| ==> f(a[k].num) == g(CountOf(b, a[k].sig))
  {
    if a != [] {
      var m := |a| - 1;
      WalkNonNegative(f, a[..m], g, b);
      SquareOfDifference(f(a[m].num), g(CountOf(b, a[m].sig)));
      assert forall k :: 0 <= k < m ==> a[..m][k] == a[k];
    }
  }

  lemma {:induction false} RemainderNonNegative(a: seq<SigCount>, b: seq<SigCount>)
    requires Positive(b)
    ensures 0 <= Remainder(a, b) <= Total(b)
    ensures Remainder(a, b) == 0 <==> forall k :: 0 <= k < |b| ==> HasSig(a, b[k].sig)
  {
    if b != [] {
      var m := |b| - 1;
      RemainderNonNegative(a, b[..m]);
      assert forall k :: 0 <= k < m ==> b[..m][k] == b[k];
    }
  }

  lemma GapBounds(sqrt: real -> real, a: BurstValue, b: BurstValue)
    requires SqrtLaw(sqrt) && Sound(a) && Sound(b) && a.pktNum > 0 && b.pktNum > 0
    ensures 0.0 <= Gap(sqrt, a, b) <= 2.0
  {
    var f, g := Root(sqrt, a.pktNum), Root(sqrt, b.pktNum);
    RootIsRoot(sqrt, a.pktNum);
    RootIsRoot(sqrt, b.pktNum);
    ScansMakeGap(sqrt, a, b);
    WalkNonNegative(f, a.detail, g, b.detail);
    RemainderNonNegative(a.detail, b.detail);
    ShareBounds(Remainder(a.detail, b.detail), b.pktNum);
    AffinityNonNegative(f, a.detail, a.pktNum, g, b.detail, b.pktNum);
  }

  /** Every signature has the same share in both bursts. */
  ghost predicate SameFrequencies(a: BurstValue, b: BurstValue)
    requires a.pktNum > 0 && b.pktNum > 0
  {
    forall s :: Frequency(a, s) == Frequency(b, s)
  }

  /** The scans find nothing different if and only if all shares agree. */
  lemma FrequenciesByEntry(a: BurstValue, b: BurstValue)
    requires Sound(a) && Sound(b) && a.pktNum > 0 && b.pktNum > 0
    ensures SameFrequencies(a, b) <==>
              (forall k :: 0 <= k < |a.detail| ==>
                Share(a.detail[k].num, a.pktNum) == Share(CountOf(b.detail, a.detail[k].sig), b.pktNum)) &&
              (forall k :: 0 <= k < |b.detail| ==> HasSig(a.detail, b.detail[k].sig))
  {
    if SameFrequencies(a, b) {
      forall k | 0 <= k < |a.detail|
        ensures Share(a.detail[k].num, a.pktNum) == Share(CountOf(b.detail, a.detail[k].sig), b.pktNum)
      {
        CountOfPresent(a.detail, k);
        assert Frequency(a, a.detail[k].sig) == Frequency(b, a.detail[k].sig);
      }
      forall k | 0 <= k < |b.detail| ensures HasSig(a.detail, b.detail[k].sig) {
        var s := b.detail[k].sig;
        CountOfPresent(b.detail, k);
        CountOfPositive(b.detail, s);
        CountOfPositive(a.detail, s);
        assert Frequency(a, s) == Frequency(b, s);
        ShareBounds(CountOf(b.detail, s), b.pktNum);
        ShareBounds(CountOf(a.detail, s), a.pktNum);
      }
    } else {
      var s :| Frequency(a, s) != Frequency(b, s);
      if HasSig(a.detail, s) {
        var k :| 0 <= k < |a.detail| && a.detail[k].sig == s;
        CountOfPresent(a.detail, k);
      } else {
        CountOfAbsent(a.detail, s);
        if !HasSig(b.detail, s) {
          CountOfAbsent(b.detail, s);
        }
      }
    }
  }

  lemma WalkZero(f: int -> real, a: seq<SigCount>, na: int, g: int -> real, b: seq<SigCount>, nb: int)
    requires IsRoot(f, na) && IsRoot(g, nb) && Positive(a) && Positive(b)
    ensures Walk(f, a, g, b) == 0.0 <==>
            forall k :: 0 <= k < |a| ==> Share(a[k].num, na) == Share(CountOf(b, a[k].sig), nb)
  {
    WalkNonNegative(f, a, g, b);
    forall k | 0 <= k < |a|
      ensures f(a[k].num) == g(CountOf(b, a[k].sig)) <==> Share(a[k].num, na) == Share(CountOf(b, a[k].sig), nb)
    {
      CountOfPositive(b, a[k].sig);
      SameSquares(f(a[k].num), g(CountOf(b, a[k].sig)));
    }
  }

  lemma GapZero(sqrt: real -> real, a: BurstValue, b: BurstValue)
    requires SqrtLaw(sqrt) && Sound(a) && Sound(b) && a.pktNum > 0 && b.pktNum > 0
    ensures Gap(sqrt, a, b) == 0.0 <==> SameFrequencies(a, b)
  {
    var rest := Remainder(a.detail, b.detail);
    var f, g := Root(sqrt, a.pktNum), Root(sqrt, b.pktNum);
    RootIsRoot(sqrt, a.pktNum);
    RootIsRoot(sqrt, b.pktNum);
    ScansMakeGap(sqrt, a, b);
    GapZeroFromScans(f, g, a, b);
  }

  lemma GapZeroFromScans(f: int -> real, g: int -> real, a: BurstValue, b: BurstValue)
    requires Sound(a) && Sound(b) && IsRoot(f, a.pktNum) && IsRoot(g, b.pktNum)
    ensures Walk(f, a.detail, g, b.detail) + Share(Remainder(a.detail, b.detail), b.pktNum) == 0.0
            <==> SameFrequencies(a, b)
  {
    var rest := Remainder(a.detail, b.detail);
    WalkZero(f, a.detail, a.pktNum, g, b.detail, b.pktNum);
    WalkNonNegative(f, a.detail, g, b.detail);
    RemainderNonNegative(a.detail, b.detail);
    ShareBounds(rest, b.pktNum);
    FrequenciesByEntry(a, b);
  }

  lemma QuotientBounds(x: real, y: real, s: real)
    requires s > 0.0 && 0.0 <= x <= y * s
    ensures 0.0 <= x / s <= y
    ensures x / s == 0.0 <==> x == 0.0
  {
    var q := x / s;
    assert q * s == x;
    if q > y {
      ScaleStrictly(y, q, s);
    }
    if q < 0.0 {
      ScaleStrictly(q, 0.0, s);
    }
  }

  lemma GapTimes(g: real, x: real)
    requires 0.0 <= g <= 2.0 && x > 0.0
    ensures 0.0 <= g * x <= 2.0 * x
    ensures g * x == 0.0 <==> g == 0.0
  {
  }

  lemma RatioBounds(g: real, larger: int, smaller: int)
    requires 0.0 <= g <= 2.0 && 0 < smaller <= larger <= smaller + MAX_PKT_GAP
    ensures 0.0 <= g * larger as real / smaller as real <= 242.0
    ensures g * larger as real / smaller as real == 0.0 <==> g == 0.0
  {
    var x, y := larger as real, smaller as real;
    assert x <= 121.0 * y;
    GapTimes(g, x);
    QuotientBounds(g * x, 242.0, y);
  }

  lemma ScaledBounds(g: real, na: int, nb: int)
    requires 0.0 <= g <= 2.0 && na > 0 && nb > 0
    requires na <= nb + MAX_PKT_GAP && nb <= na + MAX_PKT_GAP
    ensures 0.0 <= Scaled(g, na, nb) <= 242.0
    ensures Scaled(g, na, nb) == 0.0 <==> g == 0.0
  {
    if na > nb {
      RatioBounds(g, na, nb);
    } else {
      RatioBounds(g, nb, na);
    }
  }

  lemma SquareBelow(x: real)
    requires x >= 0.0 && Squared(x) <= 242.0
    ensures x < 100.0
  {
    if x > 16.0 {
      SquaresOrdered(16.0, x);
    }
  }

  /** The distance squares to the scaled gap, and the search's start value 100 lies above every distance. */
  lemma DistanceBounds(sqrt: real -> real, a: BurstValue, b: BurstValue)
    requires SqrtLaw(sqrt) && Sound(a) && Sound(b) && a.pktNum > 0 && b.pktNum > 0
    ensures 0.0 <= DistanceOf(sqrt, a, b) < 100.0
    ensures Squared(DistanceOf(sqrt, a, b)) <= 242.0
    ensures !FarApart(a, b) ==> Squared(DistanceOf(sqrt, a, b)) == Scaled(Gap(sqrt, a, b), a.pktNum, b.pktNum)
  {
    if !FarApart(a, b) {
      GapBounds(sqrt, a, b);
      ScaledBounds(Gap(sqrt, a, b), a.pktNum, b.pktNum);
      var x := DistanceOf(sqrt, a, b);
      assert x >= 0.0 && Squared(x) == Scaled(Gap(sqrt, a, b), a.pktNum, b.pktNum);
      SquareBelow(x);
    }
  }

  /** The scaling in the literals of the code: far apart means 1, otherwise the square carries the ratio max/min. */
  lemma DistanceSquared(sqrt: real -> real, a: BurstValue, b: BurstValue)
    requires SqrtLaw(sqrt) && Sound(a) && Sound(b) && a.pktNum > 0 && b.pktNum > 0
    ensures var lesser := if a.pktNum < b.pktNum then a.pktNum else b.pktNum;
            var greater := if a.pktNum < b.pktNum then b.pktNum else a.pktNum;
            if greater - lesser > 120 then DistanceOf(sqrt, a, b) == 1.0
            else Squared(DistanceOf(sqrt, a, b)) * lesser as real == Gap(sqrt, a, b) * greater as real
  {
    hide Gap;
    if !FarApart(a, b) {
      DistanceBounds(sqrt, a, b);
      if a.pktNum < b.pktNum {
        ScaledBack(Gap(sqrt, a, b), b.pktNum, a.pktNum);
      } else {
        ScaledBack(Gap(sqrt, a, b), a.pktNum, b.pktNum);
      }
    }
  }

  lemma ScaledBack(g: real, greater: int, lesser: int)
    requires greater >= lesser > 0
    ensures Scaled(g, greater, lesser) * lesser as real == g * greater as real
    ensures Scaled(g, lesser, greater) * lesser as real == g * greater as real
  {
    var x, y := g * greater as real, lesser as real;
    assert x / y * y == x;
  }

  /** Distance zero means: packet counts at most 120 apart and the same share of every signature. */
  lemma DistanceZero(sqrt: real -> real, a: BurstValue, b: BurstValue)
    requires SqrtLaw(sqrt) && Sound(a) && Sound(b) && a.pktNum > 0 && b.pktNum > 0
    ensures DistanceOf(sqrt, a, b) == 0.0 <==> !FarApart(a, b) && SameFrequencies(a, b)
  {
    if !FarApart(a, b) {
      GapBounds(sqrt, a, b);
      GapZero(sqrt, a, b);
      ScaledBounds(Gap(sqrt, a, b), a.pktNum, b.pktNum);
      DistanceBounds(sqrt, a, b);
      var x := DistanceOf(sqrt, a, b);
      if Squared(x) == 0.0 {
        ZeroSquare(x);
      }
    }
  }

  /** Bursts equal under operator== are interchangeable in every distance. */
  lemma DistanceRespectsKey(sqrt: real -> real, a: BurstValue, a': BurstValue, b: BurstValue)
    requires Sound(a) && Sound(a') && a.pktNum > 0 && b.pktNum > 0
    requires KeyOf(a) == KeyOf(a')
    ensures DistanceOf(sqrt, a, b) == DistanceOf(sqrt, a', b)
  {
    assert a.detail == a.detail[..a.uniPktNum] == a'.detail[..a'.uniPktNum] == a'.detail;
    assert Gap(sqrt, a, b) == Gap(sqrt, a', b);
  }
}
