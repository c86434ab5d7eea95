/** Contents of a burst, the histogram arithmetic of src/Burst.cpp, and the equality and hash of include/Burst.h. */
module BurstValues {
  import opened Collections
  import opened Packets

  /** The width of uniPktNum. */
  type byte = x: int | 0 <= x < 256

  /** One packetDetail entry: a signed length and how often it occurred. */
  datatype SigCount = SigCount(sig: int, num: int)

  /** Everything a Burst object holds at one moment. */
  datatype BurstValue = BurstValue(instanceLabel: string, uniPktNum: byte, pktNum: int,
                                   firstStamp: TimeSpec, lastStamp: TimeSpec, detail: seq<SigCount>)

  function Empty(name: string): BurstValue {
    BurstValue(name, 0, 0, ZERO_STAMP, ZERO_STAMP, [])
  }

  // ---------- histograms ----------

  function Total(d: seq<SigCount>): int {
    if d == [] then 0 else Total(d[..|d| - 1]) + d[|d| - 1].num
  }

  /** How often sig was recorded, summed over every entry that carries it. */
  function CountOf(d: seq<SigCount>, sig: int): int {
    if d == [] then 0
    else
      var e := d[|d| - 1];
      CountOf(d[..|d| - 1], sig) + (if e.sig == sig then e.num else 0)
  }

  predicate HasSig(d: seq<SigCount>, sig: int) {
    exists k :: 0 <= k < |d| && d[k].sig == sig
  }

  predicate Distinct(d: seq<SigCount>) {
    forall i, j :: 0 <= i < j < |d| ==> d[i].sig != d[j].sig
  }

  predicate Positive(d: seq<SigCount>) {
    forall k :: 0 <= k < |d| ==> d[k].num >= 1
  }

  predicate SortedBySig(d: seq<SigCount>) {
    forall i, j :: 0 <= i < j < |d| ==> d[i].sig <= d[j].sig
  }

  ghost predicate SameHistogram(a: seq<SigCount>, b: seq<SigCount>) {
    forall s :: CountOf(a, s) == CountOf(b, s)
  }

  lemma {:induction false} CountOfAbsent(d: seq<SigCount>, sig: int)
    requires !HasSig(d, sig)
    ensures CountOf(d, sig) == 0
  {
    if d != [] {
      var n := |d| - 1;
      assert d[n].sig != sig;
      assert forall k :: 0 <= k < n ==> d[..n][k] == d[k];
      CountOfAbsent(d[..n], sig);
    }
  }

  lemma {:induction false} CountOfPresent(d: seq<SigCount>, k: nat)
    requires Distinct(d) && k < |d|
    ensures CountOf(d, d[k].sig) == d[k].num
  {
    var n := |d| - 1;
    if k == n {
      assert !HasSig(d[..n], d[n].sig);
      CountOfAbsent(d[..n], d[n].sig);
    } else {
      CountOfPresent(d[..n], k);
    }
  }

  lemma {:induction false} CountOfPositive(d: seq<SigCount>, sig: int)
    requires Positive(d)
    ensures 0 <= CountOf(d, sig) <= Total(d)
    ensures CountOf(d, sig) > 0 <==> HasSig(d, sig)
    ensures Total(d) >= |d|
  {
    if d != [] {
      var n := |d| - 1;
      CountOfPositive(d[..n], sig);
      assert HasSig(d, sig) <==> HasSig(d[..n], sig) || d[n].sig == sig by {
        assert forall k :: 0 <= k < n ==> d[..n][k] == d[k];
        if HasSig(d[..n], sig) {
          var k :| 0 <= k < n && d[..n][k].sig == sig;
          assert d[k].sig == sig;
        }
      }
    }
  }

  lemma {:induction false} UpdateEntry(d: seq<SigCount>, k: nat, num: int, s: int)
    requires k < |d|
    ensures var d' := d[k := SigCount(d[k].sig, num)];
            Total(d') == Total(d) - d[k].num + num &&
            CountOf(d', s) == CountOf(d, s) + (if s == d[k].sig then num - d[k].num else 0)
  {
    var n := |d| - 1;
    var d' := d[k := SigCount(d[k].sig, num)];
    if k < n {
      UpdateEntry(d[..n], k, num, s);
      assert d'[..n] == d[..n][k := SigCount(d[k].sig, num)];
    } else {
      assert d'[..n] == d[..n];
    }
  }

  lemma AppendEntry(d: seq<SigCount>, e: SigCount, s: int)
    ensures Total(d + [e]) == Total(d) + e.num
    ensures CountOf(d + [e], s) == CountOf(d, s) + (if e.sig == s then e.num else 0)
  {
    assert (d + [e])[..|d|] == d;
  }

  // ---------- AddSig and PiggyBack ----------

  /** The first of the first n entries that carries sig, or n when none does. */
  function FirstEntry(d: seq<SigCount>, n: nat, sig: int): (k: nat)
    requires n <= |d|
    ensures k <= n
    ensures forall i :: 0 <= i < k ==> d[i].sig != sig
    ensures k < n ==> d[k].sig == sig
  {
    if n == 0 then 0
    else
      var k := FirstEntry(d, n - 1, sig);
      if k < n - 1 then k else if d[n - 1].sig == sig then n - 1 else n
  }

  /** The 8-bit counter is the number of entries modulo 256. */
  predicate Indexed(v: BurstValue) {
    v.uniPktNum == |v.detail| % 256
  }

  /** Recording one signature: only the first uniPktNum entries are searched, and the counter wraps. */
  function AddSigTo(v: BurstValue, sig: int): (r: BurstValue)
    requires Indexed(v)
    ensures Indexed(r)
  {
    var k := FirstEntry(v.detail, v.uniPktNum, sig);
    if k < v.uniPktNum then
      v.(pktNum := v.pktNum + 1, detail := v.detail[k := SigCount(v.detail[k].sig, v.detail[k].num + 1)])
    else
      v.(pktNum := v.pktNum + 1, uniPktNum := (v.uniPktNum + 1) % 256, detail := v.detail + [SigCount(sig, 1)])
  }

  function AddAll(v: BurstValue, sigs: seq<int>): (r: BurstValue)
    requires Indexed(v)
    ensures Indexed(r)
  {
    if sigs == [] then v else AddSigTo(AddAll(v, sigs[..|sigs| - 1]), sigs[|sigs| - 1])
  }

  lemma {:induction false} AddAllConcat(v: BurstValue, a: seq<int>, b: seq<int>)
    requires Indexed(v)
    ensures AddAll(v, a + b) == AddAll(AddAll(v, a), b)
  {
    if b == [] {
      assert a + b == a;
    } else {
      var n := |b| - 1;
      AddAllConcat(v, a, b[..n]);
      assert (a + b)[..|a + b| - 1] == a + b[..n];
    }
  }

  /** How often s occurs in sigs. */
  function Occurrences(sigs: seq<int>, s: int): nat {
    if sigs == [] then 0
    else Occurrences(sigs[..|sigs| - 1], s) + (if sigs[|sigs| - 1] == s then 1 else 0)
  }

  lemma {:induction false} OccurrencesConcat(a: seq<int>, b: seq<int>, s: int)
    ensures Occurrences(a + b, s) == Occurrences(a, s) + Occurrences(b, s)
  {
    if b == [] {
      assert a + b == a;
    } else {
      var n := |b| - 1;
      OccurrencesConcat(a, b[..n], s);
      assert (a + b)[..|a + b| - 1] == a + b[..n];
    }
  }

  /** What every sequence of AddSig calls keeps, wrapped counter or not. */
  predicate Counted(v: BurstValue) {
    Indexed(v) && v.pktNum == Total(v.detail) && Positive(v.detail)
  }

  /** A burst whose counter has not wrapped. */
  predicate Sound(v: BurstValue) {
    v.uniPktNum == |v.detail| && Counted(v) && Distinct(v.detail)
  }

  /** What Validate accepts: a named burst whose counters match its entries and stay within the cap. */
  predicate Acceptable(v: BurstValue, maxUniSig: byte) {
    v.instanceLabel != "" && |v.detail| == v.uniPktNum && Total(v.detail) == v.pktNum && v.uniPktNum <= maxUniSig
  }

  lemma {:induction false} AddSigCounts(v: BurstValue, sig: int, s: int)
    requires Counted(v)
    ensures Counted(AddSigTo(v, sig))
    ensures AddSigTo(v, sig).pktNum == v.pktNum + 1
    ensures CountOf(AddSigTo(v, sig).detail, s) == CountOf(v.detail, s) + (if s == sig then 1 else 0)
  {
    var k := FirstEntry(v.detail, v.uniPktNum, sig);
    var w := AddSigTo(v, sig);
    if k < v.uniPktNum {
      UpdateEntry(v.detail, k, v.detail[k].num + 1, s);
      assert w.detail == v.detail[k := SigCount(v.detail[k].sig, v.detail[k].num + 1)];
    } else {
      AppendEntry(v.detail, SigCount(sig, 1), s);
      assert w.detail == v.detail + [SigCount(sig, 1)];
    }
  }

  /** Totals are exact for any signatures, in particular after uniPktNum has wrapped. */
  lemma {:induction false} AddAllCounts(v: BurstValue, sigs: seq<int>, s: int)
    requires Counted(v)
    ensures Counted(AddAll(v, sigs))
    ensures AddAll(v, sigs).pktNum == v.pktNum + |sigs|
    ensures CountOf(AddAll(v, sigs).detail, s) == CountOf(v.detail, s) + Occurrences(sigs, s)
  {
    if sigs != [] {
      var n := |sigs| - 1;
      var before := AddAll(v, sigs[..n]);
      AddAllCounts(v, sigs[..n], s);
      AddSigCounts(before, sigs[n], s);
      assert AddAll(v, sigs) == AddSigTo(before, sigs[n]);
    }
  }

  ghost function SigSet(d: seq<SigCount>): set<int> {
    set k | 0 <= k < |d| :: d[k].sig
  }

  ghost function Seen(sigs: seq<int>): set<int> {
    set s | s in sigs
  }

  lemma {:induction false} DistinctSize(d: seq<SigCount>)
    requires Distinct(d)
    ensures |SigSet(d)| == |d|
  {
    if d != [] {
      var n := |d| - 1;
      DistinctSize(d[..n]);
      assert SigSet(d) == SigSet(d[..n]) + {d[n].sig};
      assert d[n].sig !in SigSet(d[..n]);
    }
  }

  lemma AddSigSet(v: BurstValue, sig: int)
    requires Indexed(v)
    ensures SigSet(AddSigTo(v, sig).detail) == SigSet(v.detail) + {sig}
  {
    var k := FirstEntry(v.detail, v.uniPktNum, sig);
    var d, d' := v.detail, AddSigTo(v, sig).detail;
    assert forall i :: 0 <= i < |d| ==> d'[i].sig == d[i].sig;
    if k < v.uniPktNum {
      assert d[k].sig in SigSet(d);
    } else {
      assert d'[|d|].sig == sig;
    }
    forall s | s in SigSet(d) + {sig} ensures s in SigSet(d') {
      if s in SigSet(d) {
        var i :| 0 <= i < |d| && d[i].sig == s;
        assert d'[i].sig == s;
      }
    }
  }

  /** Below 256 distinct signatures the counter never wraps and no signature gets two entries. */
  lemma {:induction false} AddAllDistinct(name: string, sigs: seq<int>)
    requires |Seen(sigs)| <= 255
    ensures var v := AddAll(Empty(name), sigs);
            Distinct(v.detail) && SigSet(v.detail) == Seen(sigs) && v.uniPktNum == |v.detail| == |Seen(sigs)|
  {
    if sigs != [] {
      var n := |sigs| - 1;
      var v := AddAll(Empty(name), sigs[..n]);
      assert Seen(sigs) == Seen(sigs[..n]) + {sigs[n]} by {
        assert sigs == sigs[..n] + [sigs[n]];
      }
      assert Seen(sigs[..n]) <= Seen(sigs);
      SubsetSize(Seen(sigs[..n]), Seen(sigs));
      AddAllDistinct(name, sigs[..n]);
      AddSigSet(v, sigs[n]);
      AppendedOrBumped(v, sigs[n]);
      NotWrapped(AddSigTo(v, sigs[n]));
    }
  }

  lemma NotWrapped(v: BurstValue)
    requires Indexed(v) && Distinct(v.detail) && |SigSet(v.detail)| <= 255
    ensures v.uniPktNum == |v.detail| == |SigSet(v.detail)|
  {
    DistinctSize(v.detail);
  }

  lemma AppendedOrBumped(v: BurstValue, sig: int)
    requires v.uniPktNum == |v.detail| && Distinct(v.detail)
    ensures Distinct(AddSigTo(v, sig).detail)
  {
    var k := FirstEntry(v.detail, v.uniPktNum, sig);
    var d := AddSigTo(v, sig).detail;
    assert forall i :: 0 <= i < |v.detail| ==> d[i].sig == v.detail[i].sig;
  }

  lemma SubsetSize<T>(a: set<T>, b: set<T>)
    requires a <= b
    ensures |a| <= |b|
  {
    assert |b| == |a| + |b - a|;
  }

  lemma {:induction false} AddAllSigSet(v: BurstValue, sigs: seq<int>)
    requires Indexed(v)
    ensures SigSet(AddAll(v, sigs).detail) == SigSet(v.detail) + Seen(sigs)
  {
    if sigs != [] {
      var n := |sigs| - 1;
      AddAllSigSet(v, sigs[..n]);
      AddSigSet(AddAll(v, sigs[..n]), sigs[n]);
      assert sigs == sigs[..n] + [sigs[n]];
    }
  }

  /**
   * The bound 255 is exact: while no signature has two entries yet, repeating any signature seen so far
   * is safe if and only if at most 255 distinct ones have been seen.
   */
  lemma RepeatsAreSafeIff(name: string, sigs: seq<int>)
    requires Distinct(AddAll(Empty(name), sigs).detail)
    ensures (forall s :: s in sigs ==> Distinct(AddAll(Empty(name), sigs + [s]).detail)) <==> |Seen(sigs)| <= 255
  {
    var v := AddAll(Empty(name), sigs);
    AddAllSigSet(Empty(name), sigs);
    assert SigSet(Empty(name).detail) == {};
    DistinctSize(v.detail);
    if |Seen(sigs)| <= 255 {
      forall s | s in sigs ensures Distinct(AddAll(Empty(name), sigs + [s]).detail) {
        assert Seen(sigs + [s]) == Seen(sigs);
        AddAllDistinct(name, sigs + [s]);
      }
    } else {
      var k := v.uniPktNum;
      var s := v.detail[k].sig;
      assert s in SigSet(v.detail);
      assert (sigs + [s])[..|sigs|] == sigs;
      var w := AddSigTo(v, s);
      assert AddAll(Empty(name), sigs + [s]) == w;
      assert FirstEntry(v.detail, v.uniPktNum, s) == v.uniPktNum;
      assert w.detail[k].sig == w.detail[|v.detail|].sig;
    }
  }

  /** The signatures 0 to n - 1, each recorded once. */
  function OneEach(n: nat): seq<SigCount> {
    seq(n, i => SigCount(i, 1))
  }

  /** A burst that holds the signatures 0 to n - 1, once each. */
  function OneEachBurst(name: string, n: nat): BurstValue {
    Empty(name).(pktNum := n, uniPktNum := n % 256, detail := OneEach(n))
  }

  lemma OneMoreSig(name: string, n: nat)
    requires n < 256
    ensures AddSigTo(OneEachBurst(name, n), n) == OneEachBurst(name, n + 1)
  {
    var v := OneEachBurst(name, n);
    assert v.uniPktNum == n;
    assert forall i :: 0 <= i < |v.detail| ==> v.detail[i].sig != n;
    assert OneEach(n + 1) == OneEach(n) + [SigCount(n, 1)];
  }

  lemma {:induction false} OneEachRecorded(name: string, n: nat)
    requires n <= 256
    ensures AddAll(Empty(name), Range(0, n)) == OneEachBurst(name, n)
  {
    if n == 0 {
      assert OneEach(0) == [];
    } else {
      hide AddSigTo, OneEachBurst;
      OneEachRecorded(name, n - 1);
      OneMoreSig(name, n - 1);
      assert Range(0, n)[..n - 1] == Range(0, n - 1);
    }
  }

  /** After 256 distinct signatures the counter is back at zero, and one recorded again gets a second entry. */
  lemma WrappedCounterWitness(name: string)
    ensures AddAll(Empty(name), Range(0, 256)).uniPktNum == 0
    ensures Distinct(AddAll(Empty(name), Range(0, 256)).detail)
    ensures !Distinct(AddAll(Empty(name), Range(0, 256) + [0]).detail)
  {
    var sigs := Range(0, 256);
    OneEachRecorded(name, 256);
    var v := AddAll(Empty(name), sigs);
    assert (sigs + [0])[..|sigs|] == sigs;
    var w := AddSigTo(v, 0);
    assert AddAll(Empty(name), sigs + [0]) == w;
    assert w.detail == v.detail + [SigCount(0, 1)];
    assert w.detail[0].sig == w.detail[256].sig;
  }

  // ---------- the merging constructor ----------

  function Repeat(sig: int, num: int): (r: seq<int>)
    ensures |r| == if num > 0 then num else 0
    ensures forall k :: 0 <= k < |r| ==> r[k] == sig
  {
    if num > 0 then seq(num, _ => sig) else []
  }

  /** The signatures a histogram stands for, entry by entry. */
  function Expand(d: seq<SigCount>): seq<int> {
    if d == [] then [] else Expand(d[..|d| - 1]) + Repeat(d[|d| - 1].sig, d[|d| - 1].num)
  }

  function MergeSigs(bs: seq<BurstValue>): seq<int> {
    if bs == [] then [] else MergeSigs(bs[..|bs| - 1]) + Expand(bs[|bs| - 1].detail)
  }

  lemma NothingAdded(v: BurstValue)
    requires Indexed(v)
    ensures AddAll(v, MergeSigs([])) == v
  {
  }

  lemma MergeSigsSnoc(bs: seq<BurstValue>, k: nat)
    requires k < |bs|
    ensures MergeSigs(bs[..k + 1]) == MergeSigs(bs[..k]) + Expand(bs[k].detail)
  {
    assert bs[..k + 1][..k] == bs[..k];
  }

  function MergedValue(bs: seq<BurstValue>): BurstValue {
    AddAll(Empty(if bs == [] then "" else bs[0].instanceLabel), MergeSigs(bs))
  }

  function SumCounts(bs: seq<BurstValue>, sig: int): int {
    if bs == [] then 0 else SumCounts(bs[..|bs| - 1], sig) + CountOf(bs[|bs| - 1].detail, sig)
  }

  function SumPkts(bs: seq<BurstValue>): int {
    if bs == [] then 0 else SumPkts(bs[..|bs| - 1]) + bs[|bs| - 1].pktNum
  }

  lemma {:induction false} RepeatCounts(sig: int, num: nat, s: int)
    ensures Occurrences(Repeat(sig, num), s) == if s == sig then num else 0
  {
    if num > 0 {
      RepeatCounts(sig, num - 1, s);
      assert Repeat(sig, num)[..num - 1] == Repeat(sig, num - 1);
    }
  }

  lemma {:induction false} ExpandCounts(d: seq<SigCount>, s: int)
    requires Positive(d)
    ensures Occurrences(Expand(d), s) == CountOf(d, s)
    ensures |Expand(d)| == Total(d)
  {
    if d != [] {
      var n := |d| - 1;
      ExpandCounts(d[..n], s);
      RepeatCounts(d[n].sig, d[n].num, s);
      OccurrencesConcat(Expand(d[..n]), Repeat(d[n].sig, d[n].num), s);
    }
  }

  lemma {:induction false} MergeSigsCounts(bs: seq<BurstValue>, s: int)
    requires forall b :: b in bs ==> Counted(b)
    ensures Occurrences(MergeSigs(bs), s) == SumCounts(bs, s)
    ensures |MergeSigs(bs)| == SumPkts(bs)
  {
    if bs != [] {
      var n := |bs| - 1;
      assert bs[n] in bs;
      MergeSigsCounts(bs[..n], s);
      ExpandCounts(bs[n].detail, s);
      OccurrencesConcat(MergeSigs(bs[..n]), Expand(bs[n].detail), s);
    }
  }

  /** Merging loses nothing: packets and per-signature totals add up over the merged bursts. */
  lemma {:induction false} AddAllKeepsName(v: BurstValue, sigs: seq<int>)
    requires Indexed(v)
    ensures AddAll(v, sigs).instanceLabel == v.instanceLabel
  {
    if sigs != [] {
      AddAllKeepsName(v, sigs[..|sigs| - 1]);
    }
  }

  lemma MergedConserves(bs: seq<BurstValue>, s: int)
    requires forall b :: b in bs ==> Counted(b)
    ensures Counted(MergedValue(bs))
    ensures CountOf(MergedValue(bs).detail, s) == SumCounts(bs, s)
    ensures MergedValue(bs).pktNum == SumPkts(bs)
    ensures MergedValue(bs).instanceLabel == if bs == [] then "" else bs[0].instanceLabel
  {
    AddAllKeepsName(Empty(if bs == [] then "" else bs[0].instanceLabel), MergeSigs(bs));
    var start := Empty(if bs == [] then "" else bs[0].instanceLabel);
    MergeSigsCounts(bs, s);
    AddAllCounts(start, MergeSigs(bs), s);
  }

  // ---------- operator== and std::hash ----------

  /** The part of a burst that operator== and std::hash look at. */
  datatype Key = Key(uniPktNum: byte, pktNum: int, detail: seq<SigCount>)

  function KeyOf(v: BurstValue): Key
    requires v.uniPktNum <= |v.detail|
  {
    Key(v.uniPktNum, v.pktNum, v.detail[..v.uniPktNum])
  }

  /** The primitive hashes and the xor-and-shift steps that std::hash of a burst is built from. */
  datatype Hasher = Hasher(start: int -> int, mix: (int, int, int) -> int, finish: (int, int) -> int)

  function HashPrefix(h: Hasher, uni: byte, d: seq<SigCount>): int {
    if d == [] then h.start(uni)
    else
      var e := d[|d| - 1];
      h.mix(HashPrefix(h, uni, d[..|d| - 1]), e.sig, e.num % 30)
  }

  /** std::hash of a burst, a function of its key. */
  function HashOf(h: Hasher, k: Key): int {
    h.finish(HashPrefix(h, k.uniPktNum, k.detail), k.pktNum)
  }

  /** The same signatures in the same order, their counts equal modulo 30. */
  predicate AlikeModulo30(a: seq<SigCount>, b: seq<SigCount>) {
    |a| == |b| && forall k :: 0 <= k < |a| ==> a[k].sig == b[k].sig && a[k].num % 30 == b[k].num % 30
  }

  lemma {:induction false} HashPrefixAlike(h: Hasher, uni: byte, a: seq<SigCount>, b: seq<SigCount>)
    requires AlikeModulo30(a, b)
    ensures HashPrefix(h, uni, a) == HashPrefix(h, uni, b)
  {
    if a != [] {
      HashPrefixAlike(h, uni, a[..|a| - 1], b[..|b| - 1]);
    }
  }

  /** Counts enter the hash modulo 30 only: whatever the primitive hashes are, bursts alike modulo 30 collide. */
  lemma AlikeBurstsCollide(h: Hasher, a: Key, b: Key)
    requires a.uniPktNum == b.uniPktNum && a.pktNum == b.pktNum && AlikeModulo30(a.detail, b.detail)
    ensures HashOf(h, a) == HashOf(h, b)
  {
    HashPrefixAlike(h, a.uniPktNum, a.detail, b.detail);
  }

  // The hashers that tell two keys apart.

  function CounterHasher(): Hasher {
    Hasher((x: int) => x, (acc: int, s: int, n: int) => acc, (acc: int, p: int) => acc)
  }

  function SizeHasher(): Hasher {
    Hasher((x: int) => 0, (acc: int, s: int, n: int) => 0, (acc: int, p: int) => p)
  }

  function LengthHasher(): Hasher {
    Hasher((x: int) => 0, (acc: int, s: int, n: int) => acc + 1, (acc: int, p: int) => acc)
  }

  /** Counts the entries until entry j is e modulo 30, and is -1 from then on. */
  function EntryHasher(j: nat, e: SigCount): Hasher {
    Hasher((x: int) => 0,
           (acc: int, s: int, n: int) =>
             if acc < 0 || (acc == j && s == e.sig && n == e.num % 30) then -1 else acc + 1,
           (acc: int, p: int) => acc)
  }

  lemma {:induction false} CountersKept(uni: byte, d: seq<SigCount>)
    ensures HashPrefix(CounterHasher(), uni, d) == uni
    ensures HashPrefix(LengthHasher(), uni, d) == |d|
  {
    if d != [] {
      CountersKept(uni, d[..|d| - 1]);
    }
  }

  lemma {:induction false} EntryFound(j: nat, e: SigCount, uni: byte, d: seq<SigCount>)
    ensures HashPrefix(EntryHasher(j, e), uni, d) ==
            if j < |d| && d[j].sig == e.sig && d[j].num % 30 == e.num % 30 then -1 else |d|
  {
    if d != [] {
      var n := |d| - 1;
      EntryFound(j, e, uni, d[..n]);
    }
  }

  /** Keys that differ beyond that are told apart by some hash. */
  lemma SomeHashSeparates(a: Key, b: Key) returns (h: Hasher)
    requires !(a.uniPktNum == b.uniPktNum && a.pktNum == b.pktNum && AlikeModulo30(a.detail, b.detail))
    ensures HashOf(h, a) != HashOf(h, b)
  {
    CountersKept(a.uniPktNum, a.detail);
    CountersKept(b.uniPktNum, b.detail);
    if a.uniPktNum != b.uniPktNum {
      h := CounterHasher();
    } else if a.pktNum != b.pktNum {
      h := SizeHasher();
    } else if |a.detail| != |b.detail| {
      h := LengthHasher();
    } else {
      var j: nat :| j < |a.detail| &&
                    !(a.detail[j].sig == b.detail[j].sig && a.detail[j].num % 30 == b.detail[j].num % 30);
      h := EntryHasher(j, a.detail[j]);
      EntryFound(j, a.detail[j], a.uniPktNum, a.detail);
      EntryFound(j, a.detail[j], b.uniPktNum, b.detail);
    }
  }

  /** Exactly what every hash of bursts loses: the counts beyond their value modulo 30. */
  lemma CollideAlwaysIff(a: Key, b: Key)
    ensures (forall h: Hasher :: HashOf(h, a) == HashOf(h, b)) <==>
            a.uniPktNum == b.uniPktNum && a.pktNum == b.pktNum && |a.detail| == |b.detail| &&
            forall k :: 0 <= k < |a.detail| ==>
              a.detail[k].sig == b.detail[k].sig && a.detail[k].num % 30 == b.detail[k].num % 30
  {
    if a.uniPktNum == b.uniPktNum && a.pktNum == b.pktNum && AlikeModulo30(a.detail, b.detail) {
      forall h: Hasher ensures HashOf(h, a) == HashOf(h, b) {
        AlikeBurstsCollide(h, a, b);
      }
    } else {
      var h := SomeHashSeparates(a, b);
    }
  }

  lemma {:induction false} SortedUnique(a: seq<SigCount>, b: seq<SigCount>)
    requires Distinct(a) && Positive(a) && SortedBySig(a)
    requires Distinct(b) && Positive(b) && SortedBySig(b)
    requires SameHistogram(a, b)
    ensures a == b
    decreases |a|
  {
    if a == [] || b == [] {
      if a != [] { CountOfPresent(a, 0); }
      if b != [] { CountOfPresent(b, 0); }
    } else {
      var m, n := |a| - 1, |b| - 1;
      LastSigBounds(a, b);
      LastSigBounds(b, a);
      assert a[m].sig == b[n].sig;
      CountOfPresent(a, m);
      CountOfPresent(b, n);
      forall s ensures CountOf(a[..m], s) == CountOf(b[..n], s) {
        assert CountOf(a, s) == CountOf(b, s);
      }
      SortedUnique(a[..m], b[..n]);
    }
  }

  lemma LastSigBounds(a: seq<SigCount>, b: seq<SigCount>)
    requires a != [] && b != [] && Distinct(a) && Positive(a) && SortedBySig(b) && Positive(b)
    requires SameHistogram(a, b)
    ensures a[|a| - 1].sig <= b[|b| - 1].sig
  {
    var s := a[|a| - 1].sig;
    CountOfPresent(a, |a| - 1);
    assert CountOf(b, s) == CountOf(a, s) > 0;
    CountOfPositive(b, s);
  }

  /** After SortInOrder, operator== is exactly equality of signature histograms. */
  lemma CanonicalEquality(a: BurstValue, b: BurstValue)
    requires Sound(a) && Sound(b) && SortedBySig(a.detail) && SortedBySig(b.detail)
    ensures KeyOf(a) == KeyOf(b) <==> SameHistogram(a.detail, b.detail)
  {
    assert a.detail[..a.uniPktNum] == a.detail && b.detail[..b.uniPktNum] == b.detail;
    if SameHistogram(a.detail, b.detail) {
      SortedUnique(a.detail, b.detail);
    }
  }

  // ---------- the sort of packetDetail ----------

  function InsertBySig(d: seq<SigCount>, e: SigCount): seq<SigCount> {
    if d == [] || d[|d| - 1].sig <= e.sig then d + [e]
    else InsertBySig(d[..|d| - 1], e) + [d[|d| - 1]]
  }

  /** The entries in ascending order of signature. */
  function SortBySig(d: seq<SigCount>): seq<SigCount> {
    if d == [] then [] else InsertBySig(SortBySig(d[..|d| - 1]), d[|d| - 1])
  }

  /** A burst with its entries sorted. */
  function Canon(v: BurstValue): BurstValue {
    v.(detail := SortBySig(v.detail))
  }

  lemma {:induction false} InsertPermutes(d: seq<SigCount>, e: SigCount)
    ensures multiset(InsertBySig(d, e)) == multiset(d) + multiset{e}
    ensures |InsertBySig(d, e)| == |d| + 1
  {
    if d != [] && d[|d| - 1].sig > e.sig {
      InsertPermutes(d[..|d| - 1], e);
      DropLast(d);
    }
  }

  lemma {:induction false} InsertSorts(d: seq<SigCount>, e: SigCount)
    requires SortedBySig(d)
    ensures SortedBySig(InsertBySig(d, e))
  {
    if d != [] && d[|d| - 1].sig > e.sig {
      var n := |d| - 1;
      var r := InsertBySig(d[..n], e);
      InsertSorts(d[..n], e);
      InsertPermutes(d[..n], e);
      forall k | 0 <= k < |r| ensures r[k].sig <= d[n].sig {
        InsertedAtMost(d, e, r, k);
      }
    }
  }

  lemma InsertedAtMost(d: seq<SigCount>, e: SigCount, r: seq<SigCount>, k: nat)
    requires d != [] && SortedBySig(d) && d[|d| - 1].sig > e.sig && k < |r|
    requires multiset(r) == multiset(d[..|d| - 1]) + multiset{e}
    ensures r[k].sig <= d[|d| - 1].sig
  {
    assert r[k] in multiset(d[..|d| - 1]) + multiset{e};
  }

  lemma {:induction false} InsertCounts(d: seq<SigCount>, e: SigCount, s: int)
    ensures CountOf(InsertBySig(d, e), s) == CountOf(d, s) + (if e.sig == s then e.num else 0)
    ensures Total(InsertBySig(d, e)) == Total(d) + e.num
  {
    AppendEntry(d, e, s);
    if d != [] && d[|d| - 1].sig > e.sig {
      var n := |d| - 1;
      InsertCounts(d[..n], e, s);
      AppendEntry(InsertBySig(d[..n], e), d[n], s);
    }
  }

  lemma {:induction false} SortFacts(d: seq<SigCount>)
    ensures SortedBySig(SortBySig(d))
    ensures multiset(SortBySig(d)) == multiset(d)
    ensures |SortBySig(d)| == |d|
  {
    if d != [] {
      var n := |d| - 1;
      SortFacts(d[..n]);
      InsertPermutes(SortBySig(d[..n]), d[n]);
      InsertSorts(SortBySig(d[..n]), d[n]);
      DropLast(d);
    }
  }

  /** Sorting the entries changes neither the totals nor any signature's count. */
  lemma {:induction false} SortKeepsCounts(d: seq<SigCount>, s: int)
    ensures CountOf(SortBySig(d), s) == CountOf(d, s)
    ensures Total(SortBySig(d)) == Total(d)
  {
    if d != [] {
      var n := |d| - 1;
      SortKeepsCounts(d[..n], s);
      InsertCounts(SortBySig(d[..n]), d[n], s);
    }
  }

  ghost predicate OneEntryPerSig(m: set<SigCount>) {
    forall e, f :: e in m && f in m && e.sig == f.sig ==> e == f
  }

  /** Two sorted rearrangements of each other end with the same entry. */
  lemma LastsAgree(m: set<SigCount>, a: seq<SigCount>, b: seq<SigCount>)
    requires OneEntryPerSig(m) && a != [] && b != [] && a[|a| - 1] in m && b[|b| - 1] in m
    requires multiset(a) == multiset(b) && SortedBySig(a) && SortedBySig(b)
    ensures a[|a| - 1] == b[|b| - 1]
  {
    LastIsLargest(a, b);
    LastIsLargest(b, a);
  }

  lemma LastIsLargest(a: seq<SigCount>, b: seq<SigCount>)
    requires a != [] && b != [] && multiset(a) == multiset(b) && SortedBySig(b)
    ensures a[|a| - 1].sig <= b[|b| - 1].sig
  {
    assert a[|a| - 1] in multiset(b);
    var i :| 0 <= i < |b| && b[i] == a[|a| - 1];
  }

  lemma {:induction false} SortedPermutationsAgree(m: set<SigCount>, a: seq<SigCount>, b: seq<SigCount>)
    requires OneEntryPerSig(m) && forall k :: 0 <= k < |a| ==> a[k] in m
    requires forall k :: 0 <= k < |b| ==> b[k] in m
    requires multiset(a) == multiset(b) && SortedBySig(a) && SortedBySig(b)
    ensures a == b
    decreases |a|
  {
    hide OneEntryPerSig;
    SamePermutationLength(a, b);
    if a != [] {
      var n := |a| - 1;
      LastsAgree(m, a, b);
      PrefixesPermute(a, b);
      SortedPermutationsAgree(m, a[..n], b[..n]);
    }
  }

  /** With one entry per signature every sorting routine, stable or not, gives the same result. */
  lemma SortIsUnique(d: seq<SigCount>, r: seq<SigCount>)
    requires Distinct(d) && multiset(r) == multiset(d) && SortedBySig(r)
    ensures r == SortBySig(d)
  {
    SortFacts(d);
    var m := set e | e in d;
    forall k | 0 <= k < |r| ensures r[k] in m {
      assert r[k] in multiset(d);
    }
    forall k | 0 <= k < |SortBySig(d)| ensures SortBySig(d)[k] in m {
      assert SortBySig(d)[k] in multiset(d);
    }
    SortedPermutationsAgree(m, r, SortBySig(d));
  }

  lemma {:induction false} SortStaysDistinct(d: seq<SigCount>)
    requires Distinct(d)
    ensures Distinct(SortBySig(d)) && SigSet(SortBySig(d)) == SigSet(d)
  {
    if d != [] {
      var n := |d| - 1;
      SortStaysDistinct(d[..n]);
      assert SigSet(d) == SigSet(d[..n]) + {d[n].sig};
      assert d[n].sig !in SigSet(d[..n]);
      InsertStaysDistinct(SortBySig(d[..n]), d[n]);
    }
  }

  lemma {:induction false} InsertStaysDistinct(d: seq<SigCount>, e: SigCount)
    requires Distinct(d) && e.sig !in SigSet(d)
    ensures Distinct(InsertBySig(d, e)) && SigSet(InsertBySig(d, e)) == SigSet(d) + {e.sig}
  {
    if d == [] || d[|d| - 1].sig <= e.sig {
      AppendSigSet(d, e);
    } else {
      var n := |d| - 1;
      assert SigSet(d) == SigSet(d[..n]) + {d[n].sig};
      assert d[n].sig !in SigSet(d[..n]);
      InsertStaysDistinct(d[..n], e);
      AppendSigSet(InsertBySig(d[..n], e), d[n]);
    }
  }

  lemma AppendSigSet(d: seq<SigCount>, e: SigCount)
    requires Distinct(d) && e.sig !in SigSet(d)
    ensures Distinct(d + [e]) && SigSet(d + [e]) == SigSet(d) + {e.sig}
  {
    var r := d + [e];
    assert forall k :: 0 <= k < |d| ==> r[k] == d[k];
    assert r[|d|] == e;
    forall s | s in SigSet(d) + {e.sig} ensures s in SigSet(r) {
      if s in SigSet(d) {
        var k :| 0 <= k < |d| && d[k].sig == s;
        assert r[k].sig == s;
      }
    }
  }

  lemma CanonIsSound(v: BurstValue)
    requires Sound(v)
    ensures Sound(Canon(v)) && SortedBySig(Canon(v).detail) && SameHistogram(Canon(v).detail, v.detail)
  {
    SortFacts(v.detail);
    SortStaysDistinct(v.detail);
    forall s ensures CountOf(Canon(v).detail, s) == CountOf(v.detail, s) {
      SortKeepsCounts(v.detail, s);
    }
    SortKeepsCounts(v.detail, 0);
    forall k | 0 <= k < |v.detail| ensures Canon(v).detail[k].num >= 1 {
      assert Canon(v).detail[k] in multiset(v.detail);
    }
  }
}
