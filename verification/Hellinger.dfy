/**
 * What Burst::Distance measures (src/Burst.cpp:40-104), without the scans: every signature of either burst contributes
 * the square of the difference between the roots of its two shares, and the sum is scaled by the packet counts.
 */
module Hellinger {
  import opened Collections
  import opened BurstValues
  import opened Distances

  /** What the roots of the shares of s differ by. */
  function RootGap(sqrt: real -> real, a: BurstValue, b: BurstValue, s: int): real
    requires a.pktNum > 0 && b.pktNum > 0
  {
    sqrt(CountOf(a.detail, s) as real / a.pktNum as real) - sqrt(CountOf(b.detail, s) as real / b.pktNum as real)
  }

  function SquaredGaps(sqrt: real -> real, a: BurstValue, b: BurstValue, sigs: seq<int>): real
    requires a.pktNum > 0 && b.pktNum > 0
  {
    if sigs == [] then 0.0
    else
      var x := RootGap(sqrt, a, b, sigs[|sigs| - 1]);
      SquaredGaps(sqrt, a, b, sigs[..|sigs| - 1]) + x * x
  }

  /** The signatures of both bursts, each once, in any order. */
  ghost predicate ListsSigs(a: BurstValue, b: BurstValue, sigs: seq<int>) {
    NoDup(sigs) && forall s :: s in sigs <==> HasSig(a.detail, s) || HasSig(b.detail, s)
  }

  // ---------- the sum does not depend on the order ----------

  lemma GapsSnoc(sqrt: real -> real, a: BurstValue, b: BurstValue, sigs: seq<int>, s: int)
    requires a.pktNum > 0 && b.pktNum > 0
    ensures SquaredGaps(sqrt, a, b, sigs + [s]) == SquaredGaps(sqrt, a, b, sigs) + Squared(RootGap(sqrt, a, b, s))
  {
    assert (sigs + [s])[..|sigs|] == sigs;
  }

  lemma {:induction false} GapsConcat(sqrt: real -> real, a: BurstValue, b: BurstValue, s: seq<int>, t: seq<int>)
    requires a.pktNum > 0 && b.pktNum > 0
    ensures SquaredGaps(sqrt, a, b, s + t) == SquaredGaps(sqrt, a, b, s) + SquaredGaps(sqrt, a, b, t)
  {
    if t == [] {
      assert s + t == s;
    } else {
      var n := |t| - 1;
      hide RootGap;
      GapsConcat(sqrt, a, b, s, t[..n]);
      assert (s + t)[..|s + t| - 1] == s + t[..n];
    }
  }

  lemma GapsOfOne(sqrt: real -> real, a: BurstValue, b: BurstValue, s: int)
    requires a.pktNum > 0 && b.pktNum > 0
    ensures SquaredGaps(sqrt, a, b, [s]) == Squared(RootGap(sqrt, a, b, s))
  {
    hide RootGap;
    assert [s][..0] == [];
  }

  lemma GapsRemove(sqrt: real -> real, a: BurstValue, b: BurstValue, sigs: seq<int>, k: nat)
    requires a.pktNum > 0 && b.pktNum > 0 && k < |sigs|
    ensures SquaredGaps(sqrt, a, b, sigs) ==
              SquaredGaps(sqrt, a, b, sigs[..k] + sigs[k + 1..]) + Squared(RootGap(sqrt, a, b, sigs[k]))
  {
    hide SquaredGaps, RootGap;
    GapsConcat(sqrt, a, b, sigs[..k], sigs[k..]);
    GapsConcat(sqrt, a, b, sigs[..k], sigs[k + 1..]);
    GapsConcat(sqrt, a, b, [sigs[k]], sigs[k + 1..]);
    GapsOfOne(sqrt, a, b, sigs[k]);
    assert sigs == sigs[..k] + sigs[k..] && sigs[k..] == [sigs[k]] + sigs[k + 1..];
  }

  lemma {:induction false} GapsPermute(sqrt: real -> real, a: BurstValue, b: BurstValue, s: seq<int>, t: seq<int>)
    requires a.pktNum > 0 && b.pktNum > 0 && multiset(s) == multiset(t)
    ensures SquaredGaps(sqrt, a, b, s) == SquaredGaps(sqrt, a, b, t)
    decreases |s|
  {
    hide RootGap;
    SamePermutationLength(s, t);
    if s != [] {
      var k := PermutedIndex(s, t);
      GapsPermute(sqrt, a, b, s[..|s| - 1], t[..k] + t[k + 1..]);
      GapsRemove(sqrt, a, b, t, k);
    }
  }

  lemma {:induction false} SameLists(s: seq<int>, t: seq<int>)
    requires NoDup(s) && NoDup(t) && forall x :: x in s <==> x in t
    ensures multiset(s) == multiset(t)
    decreases |s|
  {
    if t != [] {
      var first := t[0];
      assert first in t && first in s;
    }
    if s != [] {
      var n := |s| - 1;
      var last := s[n];
      assert last in s && last in t;
      var k :| 0 <= k < |t| && t[k] == last;
      var rest := t[..k] + t[k + 1..];
      forall x ensures x in s[..n] <==> x in rest {
        RemovedMember(t, k, x);
        LastRemoved(s, x);
      }
      SameLists(s[..n], rest);
      RemoveAt(t, k);
      Collections.DropLast(s);
    }
  }

  lemma RemovedMember(t: seq<int>, k: nat, x: int)
    requires k < |t| && NoDup(t)
    ensures x in t[..k] + t[k + 1..] <==> x in t && x != t[k]
    ensures NoDup(t[..k] + t[k + 1..])
  {
    assert t == t[..k] + [t[k]] + t[k + 1..];
  }

  lemma LastRemoved(s: seq<int>, x: int)
    requires s != [] && NoDup(s)
    ensures x in s[..|s| - 1] <==> x in s && x != s[|s| - 1]
  {
    assert s == s[..|s| - 1] + [s[|s| - 1]];
  }

  // ---------- the two scans are this sum ----------

  function SigsIn(d: seq<SigCount>): seq<int> {
    MapSeq((e: SigCount) => e.sig, d)
  }

  /** The signatures of b that a does not have. */
  function NewSigs(a: seq<SigCount>, b: seq<SigCount>): seq<int> {
    if b == [] then []
    else
      var e := b[|b| - 1];
      NewSigs(a, b[..|b| - 1]) + (if HasSig(a, e.sig) then [] else [e.sig])
  }

  lemma RootGapIs(sqrt: real -> real, a: BurstValue, b: BurstValue, s: int)
    requires a.pktNum > 0 && b.pktNum > 0
    ensures RootGap(sqrt, a, b, s) ==
              Root(sqrt, a.pktNum)(CountOf(a.detail, s)) - Root(sqrt, b.pktNum)(CountOf(b.detail, s))
  {
    assert Root(sqrt, a.pktNum)(CountOf(a.detail, s)) == sqrt(Share(CountOf(a.detail, s), a.pktNum));
    assert Root(sqrt, b.pktNum)(CountOf(b.detail, s)) == sqrt(Share(CountOf(b.detail, s), b.pktNum));
  }

  lemma {:induction false} WalkIsGaps(sqrt: real -> real, a: BurstValue, b: BurstValue, k: nat)
    requires a.pktNum > 0 && b.pktNum > 0 && Distinct(a.detail) && k <= |a.detail|
    ensures Walk(Root(sqrt, a.pktNum), a.detail[..k], Root(sqrt, b.pktNum), b.detail) ==
              SquaredGaps(sqrt, a, b, SigsIn(a.detail[..k]))
  {
    if k > 0 {
      var e := a.detail[k - 1];
      WalkIsGaps(sqrt, a, b, k - 1);
      CountOfPresent(a.detail, k - 1);
      RootGapIs(sqrt, a, b, e.sig);
      hide RootGap, Root, CountOf;
      GapsSnoc(sqrt, a, b, SigsIn(a.detail[..k - 1]), e.sig);
      assert SigsIn(a.detail[..k]) == SigsIn(a.detail[..k - 1]) + [e.sig];
      assert a.detail[..k][..k - 1] == a.detail[..k - 1];
    }
  }

  /** A signature that only b has contributes its share. */
  lemma OnlySecond(sqrt: real -> real, a: BurstValue, b: BurstValue, k: nat)
    requires SqrtLaw(sqrt) && Sound(a) && Sound(b) && a.pktNum > 0 && b.pktNum > 0
    requires k < |b.detail| && !HasSig(a.detail, b.detail[k].sig)
    ensures Squared(RootGap(sqrt, a, b, b.detail[k].sig)) == Share(b.detail[k].num, b.pktNum)
  {
    var e := b.detail[k];
    CountOfAbsent(a.detail, e.sig);
    CountOfPresent(b.detail, k);
    RootGapIs(sqrt, a, b, e.sig);
    RootIsRoot(sqrt, a.pktNum);
    RootIsRoot(sqrt, b.pktNum);
    var y := Root(sqrt, b.pktNum)(e.num);
    assert RootGap(sqrt, a, b, e.sig) == 0.0 - y;
    assert Squared(0.0 - y) == Squared(y);
  }

  lemma {:induction false} RemainderIsGaps(sqrt: real -> real, a: BurstValue, b: BurstValue, k: nat)
    requires SqrtLaw(sqrt) && Sound(a) && Sound(b) && a.pktNum > 0 && b.pktNum > 0 && k <= |b.detail|
    ensures Share(Remainder(a.detail, b.detail[..k]), b.pktNum) ==
              SquaredGaps(sqrt, a, b, NewSigs(a.detail, b.detail[..k]))
  {
    hide RootGap, Share, HasSig, SquaredGaps;
    if k == 0 {
      NothingShared(sqrt, a, b);
    } else {
      var e := b.detail[k - 1];
      RemainderIsGaps(sqrt, a, b, k - 1);
      RemainderStep(a.detail, b.detail, k - 1);
      if !HasSig(a.detail, e.sig) {
        OnlySecond(sqrt, a, b, k - 1);
        GapsSnoc(sqrt, a, b, NewSigs(a.detail, b.detail[..k - 1]), e.sig);
        ShareAdds(Remainder(a.detail, b.detail[..k - 1]), e.num, b.pktNum);
      }
    }
  }

  lemma NothingShared(sqrt: real -> real, a: BurstValue, b: BurstValue)
    requires a.pktNum > 0 && b.pktNum > 0
    ensures Share(0, b.pktNum) == 0.0 == SquaredGaps(sqrt, a, b, [])
  {
  }

  lemma RemainderStep(a: seq<SigCount>, b: seq<SigCount>, k: nat)
    requires k < |b|
    ensures if HasSig(a, b[k].sig)
            then Remainder(a, b[..k + 1]) == Remainder(a, b[..k]) && NewSigs(a, b[..k + 1]) == NewSigs(a, b[..k])
            else Remainder(a, b[..k + 1]) == Remainder(a, b[..k]) + b[k].num &&
                 NewSigs(a, b[..k + 1]) == NewSigs(a, b[..k]) + [b[k].sig]
  {
    assert b[..k + 1][..k] == b[..k];
  }

  lemma {:induction false} NewSigsMembers(a: seq<SigCount>, b: seq<SigCount>)
    requires Distinct(b)
    ensures NoDup(NewSigs(a, b))
    ensures forall s :: s in NewSigs(a, b) <==> !HasSig(a, s) && HasSig(b, s)
  {
    if b != [] {
      var n := |b| - 1;
      NewSigsMembers(a, b[..n]);
      assert b[..n + 1] == b;
      forall s { PrefixSigs(b, n, s); }
      NewSig(b, n);
      hide HasSig;
    }
  }

  lemma SigsInMembers(d: seq<SigCount>)
    requires Distinct(d)
    ensures NoDup(SigsIn(d)) && forall s :: s in SigsIn(d) <==> HasSig(d, s)
  {
    forall s ensures s in SigsIn(d) <==> HasSig(d, s) {
      if HasSig(d, s) {
        var k :| 0 <= k < |d| && d[k].sig == s;
        assert SigsIn(d)[k] == s;
      }
    }
  }

  lemma ScannedSigs(a: BurstValue, b: BurstValue)
    requires Distinct(a.detail) && Distinct(b.detail)
    ensures ListsSigs(a, b, SigsIn(a.detail) + NewSigs(a.detail, b.detail))
  {
    hide HasSig, SigsIn, NewSigs;
    SigsInMembers(a.detail);
    NewSigsMembers(a.detail, b.detail);
    ApartLists(SigsIn(a.detail), NewSigs(a.detail, b.detail));
  }

  lemma ApartLists(s: seq<int>, t: seq<int>)
    requires NoDup(s) && NoDup(t) && forall x :: x in t ==> x !in s
    ensures NoDup(s + t) && forall x :: x in s + t <==> x in s || x in t
  {
    var u := s + t;
    forall i, j | 0 <= i < j < |u| ensures u[i] != u[j] {
      if i < |s| <= j {
        assert s[i] in s && t[j - |s|] in t;
      }
    }
  }

  lemma GapIsSquaredGaps(sqrt: real -> real, a: BurstValue, b: BurstValue, sigs: seq<int>)
    requires SqrtLaw(sqrt) && Sound(a) && Sound(b) && a.pktNum > 0 && b.pktNum > 0 && ListsSigs(a, b, sigs)
    ensures Gap(sqrt, a, b) == SquaredGaps(sqrt, a, b, sigs)
  {
    hide RootGap, SquaredGaps, Walk, Remainder, HasSig, Gap, Root, Share, NewSigs, SigsIn;
    var scanned := SigsIn(a.detail) + NewSigs(a.detail, b.detail);
    ScansMakeGap(sqrt, a, b);
    WalkIsGaps(sqrt, a, b, |a.detail|);
    RemainderIsGaps(sqrt, a, b, |b.detail|);
    WholePrefix(a.detail);
    WholePrefix(b.detail);
    GapsConcat(sqrt, a, b, SigsIn(a.detail), NewSigs(a.detail, b.detail));
    ScannedSigs(a, b);
    SameLists(scanned, sigs);
    GapsPermute(sqrt, a, b, scanned, sigs);
  }

  /**
   * The distance in full: more than 120 packets apart it is 1; otherwise it is not negative, and its square times the
   * smaller packet count is the larger one times the sum, over the signatures of both bursts in any order, of the
   * squared differences between the roots of their shares.
   */
  lemma DistanceMeaning(sqrt: real -> real, a: BurstValue, b: BurstValue, sigs: seq<int>)
    requires SqrtLaw(sqrt) && Sound(a) && Sound(b) && a.pktNum > 0 && b.pktNum > 0 && ListsSigs(a, b, sigs)
    ensures var d := DistanceOf(sqrt, a, b);
            var lesser := if a.pktNum < b.pktNum then a.pktNum else b.pktNum;
            var greater := if a.pktNum < b.pktNum then b.pktNum else a.pktNum;
            if greater - lesser > 120 then d == 1.0
            else d >= 0.0 && d * d * lesser as real == SquaredGaps(sqrt, a, b, sigs) * greater as real
  {
    hide SquaredGaps, Gap, ListsSigs;
    GapIsSquaredGaps(sqrt, a, b, sigs);
    if !FarApart(a, b) {
      DistanceBounds(sqrt, a, b);
      DistanceSquared(sqrt, a, b);
    }
  }

  /** The two bursts of the same shape that differ in size: all of one signature against all of another. */
  lemma DisjointBursts(sqrt: real -> real, a: BurstValue, b: BurstValue)
    requires SqrtLaw(sqrt) && Sound(a) && Sound(b) && a.pktNum == 10 && b.pktNum == 40
    requires a.detail == [SigCount(60, 10)] && b.detail == [SigCount(90, 40)]
    ensures DistanceOf(sqrt, a, b) * DistanceOf(sqrt, a, b) == 8.0
  {
    hide DistanceOf, Gap;
    DistanceSquared(sqrt, a, b);
    ScansMakeGap(sqrt, a, b);
    RootIsRoot(sqrt, 10);
    RootIsRoot(sqrt, 40);
    OneAgainstOther(Root(sqrt, 10), a.detail, Root(sqrt, 40), b.detail);
    FullShare(10);
    FullShare(40);
  }

  lemma OneAgainstOther(f: int -> real, a: seq<SigCount>, g: int -> real, b: seq<SigCount>)
    requires a == [SigCount(60, 10)] && b == [SigCount(90, 40)] && g(0) == 0.0
    ensures Walk(f, a, g, b) == Squared(f(10)) && Remainder(a, b) == 40
  {
    assert a[..0] == [] && b[..0] == [];
    assert CountOf(b[..0], 60) == 0 && CountOf(b, 60) == 0;
    assert !HasSig(a, 90) && Remainder(a, b[..0]) == 0;
    assert f(10) - 0.0 == f(10);
  }
}
