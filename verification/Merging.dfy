/** How one device's training bursts are merged: MergeStrictHash and MergeIdenticalKeys of src/KBurstClassifier.cpp. */
module Merging {
  import opened Collections
  import opened Packets
  import opened BurstValues
  import opened Distances
  import opened Segmentation
  import opened SlotBursts

  /** A shared_ptr to a finished burst: bursts with equal contents may still be different objects. */
  datatype Shared = Shared(id: nat, burst: BurstValue)

  const ANY_BURST := BurstValue("", 1, 1, ZERO_STAMP, ZERO_STAMP, [SigCount(0, 1)])

  /** Training bursts come from the generator, so every distance between them is defined. */
  type Ref = p: Shared | Comparable(p.burst) witness Shared(0, ANY_BURST)

  /** Every burst the generator makes can be trained on: distances to it are defined and the table has room for it. */
  lemma GeneratedBurstIsTrainable(c: DivisionParam, name: string, v: BurstValue)
    requires ValidParam(c) && GoodBurst(c, name, v)
    ensures Comparable(v) && 1 <= v.uniPktNum <= c.maxUniSig
  {
  }

  // ---------- MergeStrictHash ----------

  function RefHash(h: Hasher): Ref -> int {
    (r: Ref) => HashOf(h, KeyOf(r.burst))
  }

  function EqualityKey(): Ref -> Key {
    (r: Ref) => KeyOf(r.burst)
  }

  /** r is the first member of its group. */
  ghost predicate Leads(key: Ref -> int, groups: map<int, seq<Ref>>, r: Ref) {
    key(r) in groups && groups[key(r)] != [] && groups[key(r)][0] == r
  }

  /** One entry for the first member of every group, counting the group's members. */
  ghost predicate CountsGroups(key: Ref -> int, groups: map<int, seq<Ref>>, trainMap: map<Ref, int>) {
    forall r: Ref :: (r in trainMap <==> Leads(key, groups, r)) && (r in trainMap ==> trainMap[r] == |groups[key(r)]|)
  }

  ghost predicate KeepsFirsts(groups: map<int, seq<Ref>>, hashMap: map<int, Ref>) {
    hashMap.Keys == groups.Keys && forall g :: g in hashMap ==> groups[g] != [] && groups[g][0] == hashMap[g]
  }

  /** Every group holds bursts of its own key. */
  ghost predicate Keyed(key: Ref -> int, groups: map<int, seq<Ref>>) {
    forall g :: g in groups ==> groups[g] != [] && key(groups[g][0]) == g
  }

  ghost function Joined(key: Ref -> int, groups: map<int, seq<Ref>>, r: Ref): map<int, seq<Ref>> {
    groups[key(r) := (if key(r) in groups then groups[key(r)] else []) + [r]]
  }

  lemma NewGroup(key: Ref -> int, groups: map<int, seq<Ref>>, trainMap: map<Ref, int>, r: Ref)
    requires Keyed(key, groups) && CountsGroups(key, groups, trainMap) && key(r) !in groups
    ensures Keyed(key, Joined(key, groups, r)) && CountsGroups(key, Joined(key, groups, r), trainMap[r := 1])
    ensures r !in trainMap
  {
  }

  lemma GroupJoinedTrain(key: Ref -> int, groups: map<int, seq<Ref>>, trainMap: map<Ref, int>, r: Ref, first: Ref)
    requires Keyed(key, groups) && CountsGroups(key, groups, trainMap)
    requires key(r) in groups && groups[key(r)] != [] && groups[key(r)][0] == first
    ensures first in trainMap && trainMap[first] == |groups[key(r)]|
  {
    assert key(groups[key(r)][0]) == key(r);
    assert Leads(key, groups, first);
  }

  lemma GroupJoined(key: Ref -> int, groups: map<int, seq<Ref>>, trainMap: map<Ref, int>, r: Ref, first: Ref)
    requires Keyed(key, groups) && CountsGroups(key, groups, trainMap)
    requires key(r) in groups && groups[key(r)] != [] && groups[key(r)][0] == first
    ensures first in trainMap
    ensures Keyed(key, Joined(key, groups, r)) &&
             CountsGroups(key, Joined(key, groups, r), trainMap[first := trainMap[first] + 1])
  {
    GroupJoinedTrain(key, groups, trainMap, r, first);
    var joined := Joined(key, groups, r);
    assert joined[key(r)][0] == first && |joined[key(r)]| == |groups[key(r)]| + 1;
    var counted := trainMap[first := trainMap[first] + 1];
    forall q: Ref
      ensures (q in counted <==> Leads(key, joined, q)) && (q in counted ==> counted[q] == |joined[key(q)]|)
    {
      assert Leads(key, joined, q) <==> Leads(key, groups, q);
      assert q in trainMap <==> Leads(key, groups, q);
      if q in trainMap {
        assert trainMap[q] == |groups[key(q)]|;
        assert key(q) == key(r) <==> q == first;
      }
    }
  }

  /** The state of the merge after n bursts in the given groups. */
  ghost predicate MergedInto(key: Ref -> int, groups: map<int, seq<Ref>>, n: nat, trainMap: map<Ref, int>,
                             hashMap: map<int, Ref>) {
    Keyed(key, groups) && KeepsFirsts(groups, hashMap) && CountsGroups(key, groups, trainMap) && MapSum(trainMap) == n
  }

  ghost predicate Merged(h: Hasher, done: seq<Ref>, trainMap: map<Ref, int>, hashMap: map<int, Ref>) {
    MergedInto(RefHash(h), GroupMap(RefHash(h), done), |done|, trainMap, hashMap)
  }

  lemma NothingMerged(h: Hasher)
    ensures Merged(h, [], map[], map[])
  {
  }

  lemma NewBurst(key: Ref -> int, groups: map<int, seq<Ref>>, n: nat, trainMap: map<Ref, int>, hashMap: map<int,
                 Ref>, r: Ref)
    requires MergedInto(key, groups, n, trainMap, hashMap) && key(r) !in hashMap
    ensures MergedInto(key, Joined(key, groups, r), n + 1, trainMap[r := 1], hashMap[key(r) := r])
  {
    hide CountsGroups, Keyed, MapSum;
    NewGroup(key, groups, trainMap, r);
    MapSumUpdate(trainMap, r, 1);
  }

  lemma KnownHash(key: Ref -> int, groups: map<int, seq<Ref>>, n: nat, trainMap: map<Ref, int>, hashMap: map<int,
                  Ref>, r: Ref)
    requires MergedInto(key, groups, n, trainMap, hashMap) && key(r) in hashMap
    ensures var first := hashMap[key(r)];
            first in trainMap &&
              MergedInto(key, Joined(key, groups, r), n + 1, trainMap[first := trainMap[first] + 1], hashMap)
  {
    hide CountsGroups, Keyed, MapSum;
    var g := key(r);
    var first := hashMap[g];
    assert groups[g] != [] && groups[g][0] == hashMap[g];
    GroupJoined(key, groups, trainMap, r, first);
    MapSumUpdate(trainMap, first, trainMap[first] + 1);
  }

  /** Groups bursts by hash, keeping the first burst of every hash and a count. */
  method MergeStrictHash(h: Hasher, burstGroups: seq<seq<Ref>>) returns (trainMap: map<Ref, int>)
    ensures CountsGroups(RefHash(h), GroupMap(RefHash(h), Flatten(burstGroups)), trainMap)
    ensures MapSum(trainMap) == |Flatten(burstGroups)|
  {
    hide GroupMap, CountsGroups, Keyed, KeepsFirsts;
    trainMap := map[];
    var hashMap: map<int, Ref> := map[];
    ghost var done: seq<Ref> := [];
    NothingMerged(h);
    for i := 0 to |burstGroups|
      invariant done == Flatten(burstGroups[..i]) && Merged(h, done, trainMap, hashMap)
    {
      trainMap, hashMap := MergeGroup(h, burstGroups[i], trainMap, hashMap, done);
      FlattenSnoc(burstGroups[..i], burstGroups[i]);
      assert burstGroups[..i + 1] == burstGroups[..i] + [burstGroups[i]];
      done := done + burstGroups[i];
    }
    WholePrefix(burstGroups);
  }

  lemma MergeNew(h: Hasher, done: seq<Ref>, trainMap: map<Ref, int>, hashMap: map<int, Ref>, r: Ref)
    requires Merged(h, done, trainMap, hashMap) && RefHash(h)(r) !in hashMap
    ensures Merged(h, done + [r], trainMap[r := 1], hashMap[RefHash(h)(r) := r])
  {
    hide MergedInto, GroupMap, RefHash;
    GroupMapSnoc(RefHash(h), done, r);
    NewBurst(RefHash(h), GroupMap(RefHash(h), done), |done|, trainMap, hashMap, r);
  }

  lemma MergeKnown(h: Hasher, done: seq<Ref>, trainMap: map<Ref, int>, hashMap: map<int, Ref>, r: Ref)
    requires Merged(h, done, trainMap, hashMap) && RefHash(h)(r) in hashMap
    ensures var first := hashMap[RefHash(h)(r)];
            first in trainMap && Merged(h, done + [r], trainMap[first := trainMap[first] + 1], hashMap)
  {
    hide MergedInto, GroupMap, RefHash;
    GroupMapSnoc(RefHash(h), done, r);
    KnownHash(RefHash(h), GroupMap(RefHash(h), done), |done|, trainMap, hashMap, r);
  }

  method MergeGroup(h: Hasher, burstGroup: seq<Ref>, train: map<Ref, int>, hashes: map<int, Ref>, ghost done: seq<Ref>)
    returns (trainMap: map<Ref, int>, hashMap: map<int, Ref>)
    requires Merged(h, done, train, hashes)
    ensures Merged(h, done + burstGroup, trainMap, hashMap)
  {
    hide Merged, HashOf;
    trainMap, hashMap := train, hashes;
    assert done + burstGroup[..0] == done;
    for j := 0 to |burstGroup|
      invariant Merged(h, done + burstGroup[..j], trainMap, hashMap)
    {
      var burst := burstGroup[j];
      var hash := HashOf(h, KeyOf(burst.burst));
      assert hash == RefHash(h)(burst);
      PrefixSnoc(done, burstGroup, j);
      if hash !in hashMap {
        MergeNew(h, done + burstGroup[..j], trainMap, hashMap, burst);
        trainMap := trainMap[burst := 1];
        hashMap := hashMap[hash := burst];
      } else {
        var existingBurst := hashMap[hash];
        MergeKnown(h, done + burstGroup[..j], trainMap, hashMap, burst);
        trainMap := trainMap[existingBurst := trainMap[existingBurst] + 1];
      }
    }
    WholePrefix(burstGroup);
  }

  lemma {:induction false} FilterSizes<T>(p: T -> bool, q: T -> bool, s: seq<T>)
    requires forall x :: x in s && p(x) ==> q(x)
    ensures |Filter(p, s)| <= |Filter(q, s)|
    ensures |Filter(p, s)| == |Filter(q, s)| <==> forall x :: x in s && q(x) ==> p(x)
  {
    if s != [] {
      var n := |s| - 1;
      FilterSizes(p, q, s[..n]);
      assert s == s[..n] + [s[n]];
    }
  }

  ghost predicate NoCollision(h: Hasher, all: seq<Ref>) {
    forall a, b :: a in all && b in all && RefHash(h)(a) == RefHash(h)(b) ==> EqualityKey()(a) == EqualityKey()(b)
  }

  /** The entries counted are those equal under operator==. */
  ghost predicate CountsEqualBursts(all: seq<Ref>, trainMap: map<Ref, int>) {
    forall r :: r in trainMap ==> trainMap[r] == |Filter(WithKey(EqualityKey(), EqualityKey()(r)), all)|
  }

  /** How the count of an entry compares to the number of bursts equal to it. */
  lemma EntryCount(h: Hasher, all: seq<Ref>, trainMap: map<Ref, int>, r: Ref)
    requires CountsGroups(RefHash(h), GroupMap(RefHash(h), all), trainMap) && r in trainMap
    ensures r in all && trainMap[r] >= |Filter(WithKey(EqualityKey(), EqualityKey()(r)), all)|
    ensures trainMap[r] == |Filter(WithKey(EqualityKey(), EqualityKey()(r)), all)| <==>
            forall x :: x in all && RefHash(h)(x) == RefHash(h)(r) ==> EqualityKey()(x) == EqualityKey()(r)
  {
    var same, alike := WithKey(EqualityKey(), EqualityKey()(r)), WithKey(RefHash(h), RefHash(h)(r));
    assert Leads(RefHash(h), GroupMap(RefHash(h), all), r);
    FilterMembers(alike, all);
    FilterSizes(same, alike, all);
  }

  lemma LeaderOf(h: Hasher, all: seq<Ref>, a: Ref) returns (r: Ref)
    requires a in all
    ensures RefHash(h)(r) == RefHash(h)(a) && Leads(RefHash(h), GroupMap(RefHash(h), all), r)
  {
    FilterMembers(WithKey(RefHash(h), RefHash(h)(a)), all);
    var group := GroupMap(RefHash(h), all)[RefHash(h)(a)];
    assert a in group && group[0] in group;
    r := group[0];
  }

  /** MergeStrictHash merges exactly the equal bursts if and only if no two unequal training bursts share a hash. */
  lemma HashMergeExact(h: Hasher, all: seq<Ref>, trainMap: map<Ref, int>)
    requires CountsGroups(RefHash(h), GroupMap(RefHash(h), all), trainMap)
    ensures NoCollision(h, all) <==> CountsEqualBursts(all, trainMap)
  {
    hide Filter, GroupMap, HashOf, KeyOf, Leads;
    forall r | r in trainMap
      ensures r in all
      ensures trainMap[r] == |Filter(WithKey(EqualityKey(), EqualityKey()(r)), all)| <==>
              forall x :: x in all && RefHash(h)(x) == RefHash(h)(r) ==> EqualityKey()(x) == EqualityKey()(r)
    {
      EntryCount(h, all, trainMap, r);
    }
    if CountsEqualBursts(all, trainMap) {
      forall a, b | a in all && b in all &&
        RefHash(h)(a) == RefHash(h)(b) ensures EqualityKey()(a) == EqualityKey()(b) {
        var r := LeaderOf(h, all, a);
      }
    }
  }

  /** No training burst unequal to e shares its hash. */
  ghost predicate OwnHash(h: Hasher, all: seq<Ref>, e: Ref) {
    forall x :: x in all && RefHash(h)(x) == RefHash(h)(e) ==> EqualityKey()(x) == EqualityKey()(e)
  }

  /** A training burst has an equal one among the entries if no unequal one shares its hash. */
  lemma EqualEntry(h: Hasher, all: seq<Ref>, trainMap: map<Ref, int>, e: Ref) returns (r: Ref)
    requires CountsGroups(RefHash(h), GroupMap(RefHash(h), all), trainMap) && OwnHash(h, all, e) && e in all
    ensures r in trainMap && KeyOf(r.burst) == KeyOf(e.burst)
  {
    hide HashOf, KeyOf, GroupMap, Leads;
    r := LeaderOf(h, all, e);
    EntryCount(h, all, trainMap, r);
    assert EqualityKey()(r) == EqualityKey()(e);
  }

  const FEW_THEN_MANY := BurstValue("", 2, 32, ZERO_STAMP, ZERO_STAMP, [SigCount(60, 1), SigCount(90, 31)])

  const MANY_THEN_FEW := BurstValue("", 2, 32, ZERO_STAMP, ZERO_STAMP, [SigCount(60, 31), SigCount(90, 1)])

  /** Two bursts with the same hash make one entry, whatever they hold. */
  lemma PairMerged(h: Hasher, a: Ref, b: Ref)
    requires RefHash(h)(a) == RefHash(h)(b)
    ensures CountsGroups(RefHash(h), GroupMap(RefHash(h), [a, b]), map[a := 2])
  {
    hide Merged, MergedInto, CountsGroups, GroupMap, RefHash;
    var none: map<Ref, int>, hashes: map<int, Ref> := map[], map[];
    var one, hashMap := none[a := 1], hashes[RefHash(h)(a) := a];
    NothingMerged(h);
    MergeNew(h, [], none, hashes, a);
    assert [] + [a] == [a];
    MergeKnown(h, [a], one, hashMap, b);
    assert [a] + [b] == [a, b];
    UpdateTwice(none, a, 1, 2);
    MergedCounts(h, [a, b], none[a := 2], hashMap);
  }

  lemma MergedCounts(h: Hasher, done: seq<Ref>, trainMap: map<Ref, int>, hashMap: map<int, Ref>)
    requires Merged(h, done, trainMap, hashMap)
    ensures CountsGroups(RefHash(h), GroupMap(RefHash(h), done), trainMap)
  {
  }

  lemma WitnessesComparable()
    ensures Comparable(FEW_THEN_MANY) && Comparable(MANY_THEN_FEW)
  {
    TotalOfTwo(SigCount(60, 1), SigCount(90, 31));
    TotalOfTwo(SigCount(60, 31), SigCount(90, 1));
  }

  lemma TotalOfTwo(x: SigCount, y: SigCount)
    ensures Total([x, y]) == x.num + y.num
  {
    AppendEntry([], x, 0);
    AppendEntry([x], y, 0);
    assert [] + [x] == [x] && [x] + [y] == [x, y];
  }

  /** Two unequal bursts that collide under every hash of the primitives: they are counted as one burst seen twice. */
  lemma CollisionWitness(h: Hasher)
    ensures Comparable(FEW_THEN_MANY) && Comparable(MANY_THEN_FEW)
    ensures var a: Ref, b: Ref := Shared(0, FEW_THEN_MANY), Shared(1, MANY_THEN_FEW);
            KeyOf(a.burst) != KeyOf(b.burst) &&
            CountsGroups(RefHash(h), GroupMap(RefHash(h), [a, b]), map[a := 2]) &&
            !NoCollision(h, [a, b]) && !CountsEqualBursts([a, b], map[a := 2])
  {
    hide CountsGroups, GroupMap, NoCollision, CountsEqualBursts, HashOf;
    WitnessesComparable();
    var a: Ref, b: Ref := Shared(0, FEW_THEN_MANY), Shared(1, MANY_THEN_FEW);
    assert KeyOf(a.burst).detail[0] != KeyOf(b.burst).detail[0];
    AlikeBurstsCollide(h, KeyOf(a.burst), KeyOf(b.burst));
    PairMerged(h, a, b);
    UnequalCollide(h, a, b);
    HashMergeExact(h, [a, b], map[a := 2]);
  }

  lemma UnequalCollide(h: Hasher, a: Ref, b: Ref)
    requires RefHash(h)(a) == RefHash(h)(b) && KeyOf(a.burst) != KeyOf(b.burst)
    ensures !NoCollision(h, [a, b])
  {
    assert a in [a, b] && b in [a, b];
    assert EqualityKey()(a) != EqualityKey()(b);
  }

  // ---------- MergeIdenticalKeys ----------

  datatype Entry = Entry(burst: Ref, num: int)

  datatype Found = Nothing | Just(burst: Ref)

  /** The greedy merge keeps at most this many bursts, plus one. */
  const MERGE_CAP := 1000

  predicate Big(v: BurstValue) {
    v.uniPktNum > 10 || v.pktNum > 6
  }

  predicate SameSigs(a: BurstValue, b: BurstValue) {
    |a.detail| == |b.detail| && forall i :: 0 <= i < |a.detail| ==> a.detail[i].sig == b.detail[i].sig
  }

  ghost predicate Descending(vec: seq<Entry>) {
    forall i, j :: 0 <= i < j < |vec| ==> vec[i].num >= vec[j].num
  }

  ghost predicate DistinctBursts(vec: seq<Entry>) {
    forall i, j :: 0 <= i < j < |vec| ==> vec[i].burst != vec[j].burst
  }

  /** vec holds the entries of given, each once. */
  ghost predicate Lists(vec: seq<Entry>, given: map<Ref, int>) {
    DistinctBursts(vec) && (forall e :: e in vec ==> e.burst in given && given[e.burst] == e.num) &&
    (forall r :: r in given ==> Entry(r, given[r]) in vec)
  }

  function SumNums(vec: seq<Entry>): int {
    if vec == [] then 0 else SumNums(vec[..|vec| - 1]) + vec[|vec| - 1].num
  }

  /** The counts of the entries credited to r. */
  function SumTo(seen: seq<Entry>, credits: seq<Ref>, r: Ref): int
    requires |seen| == |credits|
  {
    if seen == [] then 0
    else
      var n := |seen| - 1;
      SumTo(seen[..n], credits[..n], r) + (if credits[n] == r then seen[n].num else 0)
  }

  lemma SumSnoc(seen: seq<Entry>, credits: seq<Ref>, e: Entry, c: Ref, r: Ref)
    requires |seen| == |credits|
    ensures SumTo(seen + [e], credits + [c], r) == SumTo(seen, credits, r) + (if c == r then e.num else 0)
    ensures SumNums(seen + [e]) == SumNums(seen) + e.num
  {
    assert (seen + [e])[..|seen|] == seen && (credits + [c])[..|seen|] == credits;
  }

  lemma {:induction false} NothingCredited(seen: seq<Entry>, credits: seq<Ref>, r: Ref)
    requires |seen| == |credits| && r !in credits
    ensures SumTo(seen, credits, r) == 0
  {
    if seen != [] {
      NothingCredited(seen[..|seen| - 1], credits[..|seen| - 1], r);
    }
  }

  lemma {:induction false} NumsConcat(a: seq<Entry>, b: seq<Entry>)
    ensures SumNums(a + b) == SumNums(a) + SumNums(b)
  {
    if b == [] {
      assert a + b == a;
    } else {
      NumsConcat(a, b[..|b| - 1]);
      assert (a + b)[..|a + b| - 1] == a + b[..|b| - 1];
    }
  }

  ghost function Members(s: seq<Ref>): set<Ref> {
    set r | r in s
  }

  ghost predicate SomeSimilar(sqrt: real -> real, before: set<Ref>, e: Ref) {
    exists b :: b in before && DistanceOf(sqrt, b.burst, e.burst) < 0.2
  }

  ghost predicate SomeIdentical(before: set<Ref>, e: Ref) {
    exists b :: b in before && SameSigs(b.burst, e.burst)
  }

  ghost predicate SomeFarIdentical(sqrt: real -> real, before: set<Ref>, e: Ref) {
    exists b :: b in before && SameSigs(b.burst, e.burst) && DistanceOf(sqrt, b.burst, e.burst) >= 0.7
  }

  /**
   * r is what e may be credited to when the bursts before are kept: itself if it is not big; a burst closer than 0.2 if
   * there is one; otherwise one with the same signatures within 0.7, or itself, which with such bursts around takes
   * one that is 0.7 or more away, for the search looks at a single one.
   */
  ghost predicate StepOk(sqrt: real -> real, before: set<Ref>, e: Ref, r: Ref) {
    if !Big(e.burst) then r == e
    else if SomeSimilar(sqrt, before, e) then r in before && DistanceOf(sqrt, r.burst, e.burst) < 0.2
    else
      (r in before && SameSigs(r.burst, e.burst) && DistanceOf(sqrt, r.burst, e.burst) < 0.7) ||
      (r == e && (SomeIdentical(before, e) ==> SomeFarIdentical(sqrt, before, e)))
  }

  /** The entries credited to themselves, in the order they were taken: the bursts kept. */
  function KeptOf(seen: seq<Entry>, credits: seq<Ref>): seq<Ref>
    requires |seen| == |credits|
  {
    if seen == [] then []
    else
      var n := |seen| - 1;
      KeptOf(seen[..n], credits[..n]) + (if credits[n] == seen[n].burst then [credits[n]] else [])
  }

  /** Every entry went where the code may put it, given what was kept before it. */
  ghost predicate StepsOk(sqrt: real -> real, seen: seq<Entry>, credits: seq<Ref>)
    requires |seen| == |credits|
  {
    seen != [] ==>
      var n := |seen| - 1;
      StepsOk(sqrt, seen[..n], credits[..n]) &&
      StepOk(sqrt, Members(KeptOf(seen[..n], credits[..n])), seen[n].burst, credits[n])
  }

  /** The run behind the credits, and the kept bursts in the order of that run. */
  ghost predicate RunOk(sqrt: real -> real, seen: seq<Entry>, credits: seq<Ref>, kept: seq<Ref>) {
    |credits| == |seen| && kept == KeptOf(seen, credits) && StepsOk(sqrt, seen, credits)
  }

  lemma RunSnoc(sqrt: real -> real, seen: seq<Entry>, credits: seq<Ref>, kept: seq<Ref>, e: Entry, r: Ref)
    requires RunOk(sqrt, seen, credits, kept) && StepOk(sqrt, Members(kept), e.burst, r)
    ensures RunOk(sqrt, seen + [e], credits + [r], kept + (if r == e.burst then [r] else []))
  {
    hide StepOk;
    assert (seen + [e])[..|seen|] == seen && (credits + [r])[..|credits|] == credits;
  }

  /** Big kept bursts are at least 0.2 away from every burst kept before them. */
  ghost predicate Apart(sqrt: real -> real, kept: seq<Ref>) {
    forall i, j :: 0 <= i < j < |kept| && Big(kept[j].burst) ==> DistanceOf(sqrt, kept[i].burst, kept[j].burst) >= 0.2
  }

  /** An entry is credited to itself, or to a burst within 0.7 whose own count was at least as large. */
  ghost predicate CreditOk(sqrt: real -> real, given: map<Ref, int>, e: Entry, r: Ref) {
    r in given && given[r] >= e.num && (r == e.burst || DistanceOf(sqrt, r.burst, e.burst.burst) < 0.7)
  }

  ghost predicate CreditsOk(sqrt: real -> real, given: map<Ref, int>, seen: seq<Entry>, credits: seq<Ref>,
                            kept: seq<Ref>) {
    |credits| == |seen| &&
    forall k :: 0 <= k < |seen| ==> credits[k] in kept && CreditOk(sqrt, given, seen[k], credits[k])
  }

  /** counts holds, for every kept burst, the sum of the counts credited to it. */
  ghost predicate CountsCredits(seen: seq<Entry>, credits: seq<Ref>, kept: seq<Ref>, counts: map<Ref, int>) {
    |credits| == |seen| && (forall r :: r in counts <==> r in kept) &&
    (forall r :: r in counts ==> counts[r] == SumTo(seen, credits, r)) && MapSum(counts) == SumNums(seen)
  }

  /** The guarantees of the greedy merge after the entries seen. */
  ghost predicate Greedy(sqrt: real -> real, given: map<Ref, int>, seen: seq<Entry>, credits: seq<Ref>, kept: seq<Ref>,
                         counts: map<Ref, int>)
  {
    RunOk(sqrt, seen, credits, kept) && NoDup(kept) && Apart(sqrt, kept) &&
    CreditsOk(sqrt, given, seen, credits, kept) &&
    CountsCredits(seen, credits, kept, counts)
  }

  lemma CountsCredited(seen: seq<Entry>, credits: seq<Ref>, kept: seq<Ref>, counts: map<Ref, int>, e: Entry, r: Ref)
    requires CountsCredits(seen, credits, kept, counts) && r in counts
    ensures CountsCredits(seen + [e], credits + [r], kept, counts[r := counts[r] + e.num])
  {
    forall q: Ref { SumSnoc(seen, credits, e, r, q); }
    MapSumUpdate(counts, r, counts[r] + e.num);
  }

  lemma CountsKept(seen: seq<Entry>, credits: seq<Ref>, kept: seq<Ref>, counts: map<Ref, int>, e: Entry)
    requires CountsCredits(seen, credits, kept, counts) && e.burst !in counts && e.burst !in credits
    ensures CountsCredits(seen + [e], credits + [e.burst], kept + [e.burst], counts[e.burst := e.num])
  {
    forall q: Ref { SumSnoc(seen, credits, e, e.burst, q); }
    NothingCredited(seen, credits, e.burst);
    MapSumUpdate(counts, e.burst, e.num);
  }

  lemma ApartSnoc(sqrt: real -> real, kept: seq<Ref>, r: Ref)
    requires Apart(sqrt, kept) && (Big(r.burst) ==> FarFromAll(sqrt, kept, r))
    ensures Apart(sqrt, kept + [r])
  {
  }

  ghost predicate FarFromAll(sqrt: real -> real, kept: seq<Ref>, r: Ref) {
    forall b :: b in kept ==> DistanceOf(sqrt, b.burst, r.burst) >= 0.2
  }

  lemma CreditsSnoc(sqrt: real -> real, given: map<Ref, int>, seen: seq<Entry>, credits: seq<Ref>, kept: seq<Ref>,
                    more: seq<Ref>, e: Entry, r: Ref)
    requires CreditsOk(sqrt, given, seen, credits, kept) && CreditOk(sqrt, given, e, r) && r in kept + more
    ensures CreditsOk(sqrt, given, seen + [e], credits + [r], kept + more)
  {
    hide CreditOk;
  }

  lemma NotYetKept(sqrt: real -> real, given: map<Ref, int>, seen: seq<Entry>, credits: seq<Ref>, kept: seq<Ref>,
                   counts: map<Ref, int>, r: Ref)
    requires CreditsOk(sqrt, given, seen, credits, kept) && CountsCredits(seen, credits, kept, counts) && r !in counts
    ensures r !in kept && r !in credits
    ensures NoDup(kept) ==> NoDup(kept + [r])
  {
    hide CreditOk;
    assert forall k :: 0 <= k < |credits| ==> credits[k] in kept;
  }

  /** Keeping a burst. */
  lemma GreedyKeeps(sqrt: real -> real, given: map<Ref, int>, seen: seq<Entry>, credits: seq<Ref>, kept: seq<Ref>,
                    counts: map<Ref, int>, e: Entry)
    requires Greedy(sqrt, given, seen, credits, kept, counts) && e.burst !in counts
    requires e.burst in given && given[e.burst] == e.num && StepOk(sqrt, counts.Keys, e.burst, e.burst)
    ensures Greedy(sqrt, given, seen + [e], credits + [e.burst], kept + [e.burst], counts[e.burst := e.num])
  {
    hide NoDup, Apart, CreditsOk, CountsCredits, Big, FarFromAll, StepOk, RunOk;
    NotYetKept(sqrt, given, seen, credits, kept, counts, e.burst);
    KeptAreCounts(seen, credits, kept, counts);
    SelfIsFar(sqrt, kept, e.burst);
    RunSnoc(sqrt, seen, credits, kept, e, e.burst);
    CreditsSnoc(sqrt, given, seen, credits, kept, [e.burst], e, e.burst);
    CountsKept(seen, credits, kept, counts, e);
    ApartSnoc(sqrt, kept, e.burst);
  }

  lemma KeptAreCounts(seen: seq<Entry>, credits: seq<Ref>, kept: seq<Ref>, counts: map<Ref, int>)
    requires CountsCredits(seen, credits, kept, counts)
    ensures Members(kept) == counts.Keys
  {
  }

  lemma SelfIsFar(sqrt: real -> real, kept: seq<Ref>, e: Ref)
    requires StepOk(sqrt, Members(kept), e, e) && e !in kept
    ensures Big(e.burst) ==> FarFromAll(sqrt, kept, e)
  {
    hide DistanceOf;
  }

  /** Crediting an entry to a burst kept before. */
  lemma GreedyCredits(sqrt: real -> real, given: map<Ref, int>, seen: seq<Entry>, credits: seq<Ref>, kept: seq<Ref>,
                      counts: map<Ref, int>, e: Entry, r: Ref)
    requires Greedy(sqrt, given, seen, credits, kept, counts) && r in counts && CreditOk(sqrt, given, e, r)
    requires r != e.burst && StepOk(sqrt, counts.Keys, e.burst, r)
    ensures Greedy(sqrt, given, seen + [e], credits + [r], kept, counts[r := counts[r] + e.num])
  {
    hide NoDup, Apart, CreditsOk, CreditOk, CountsCredits, StepOk, RunOk;
    assert kept + [] == kept;
    KeptAreCounts(seen, credits, kept, counts);
    RunSnoc(sqrt, seen, credits, kept, e, r);
    MemberIsKept(kept, r);
    CreditsSnoc(sqrt, given, seen, credits, kept, [], e, r);
    CountsCredited(seen, credits, kept, counts, e, r);
  }

  lemma MemberIsKept(kept: seq<Ref>, r: Ref)
    requires r in Members(kept)
    ensures r in kept
  {
  }

  /** A kept burst with exactly the same signatures, if there is one; the map is searched in an arbitrary order. */
  method FindItenticalKeysInMap(kept: map<Ref, int>, burst: Ref) returns (found: Found)
    ensures found.Just? ==> found.burst in kept && SameSigs(found.burst.burst, burst.burst)
    ensures found.Nothing? ==> forall b :: b in kept ==> !SameSigs(b.burst, burst.burst)
  {
    var remaining := kept.Keys;
    while remaining != {}
      invariant remaining <= kept.Keys
      invariant forall b :: b in kept && b !in remaining ==> !SameSigs(b.burst, burst.burst)
      decreases remaining
    {
      var b :| b in remaining;
      var equal := SigsEqual(b.burst, burst.burst);
      if equal {
        return Just(b);
      }
      remaining := remaining - {b};
    }
    return Nothing;
  }

  method SigsEqual(b: BurstValue, burst: BurstValue) returns (equal: bool)
    ensures equal <==> SameSigs(b, burst)
    ensures equal <==> |b.detail| == |burst.detail| &&
                       forall i :: 0 <= i < |b.detail| ==> b.detail[i].sig == burst.detail[i].sig
  {
    if |b.detail| != |burst.detail| {
      return false;
    }
    for i := 0 to |b.detail|
      invariant forall k :: 0 <= k < i ==> b.detail[k].sig == burst.detail[k].sig
    {
      if burst.detail[i].sig != b.detail[i].sig {
        return false;
      }
    }
    return true;
  }

  /** A kept burst closer than 0.2, if there is one. */
  method FindUltraSimilarBurst(sqrt: real -> real, kept: map<Ref, int>, burst: Ref) returns (found: Found)
    requires SqrtLaw(sqrt)
    ensures found.Just? ==> found.burst in kept && DistanceOf(sqrt, found.burst.burst, burst.burst) < 0.2
    ensures found.Nothing? ==> forall b :: b in kept ==> DistanceOf(sqrt, b.burst, burst.burst) >= 0.2
  {
    hide DistanceOf;
    var remaining := kept.Keys;
    while remaining != {}
      invariant remaining <= kept.Keys
      invariant forall b :: b in kept && b !in remaining ==> DistanceOf(sqrt, b.burst, burst.burst) >= 0.2
      decreases remaining
    {
      var b: Ref :| b in remaining;
      var distance := Distance(sqrt, b.burst, burst.burst);
      if distance < 0.2 {
        return Just(b);
      }
      remaining := remaining - {b};
    }
    return Nothing;
  }

  /** Where the greedy merge puts an entry: with a kept burst, or nowhere, in which case it is kept itself. */
  method FindHome(sqrt: real -> real, kept: map<Ref, int>, burst: Ref) returns (home: Found)
    requires SqrtLaw(sqrt)
    ensures home.Just? ==> home.burst in kept && DistanceOf(sqrt, home.burst.burst, burst.burst) < 0.7
    ensures StepOk(sqrt, kept.Keys, burst, if home.Just? then home.burst else burst)
  {
    hide DistanceOf, SameSigs;
    if burst.burst.uniPktNum > 10 || burst.burst.pktNum > 6 {
      var identical := FindItenticalKeysInMap(kept, burst);
      var similar := FindUltraSimilarBurst(sqrt, kept, burst);
      if similar.Just? {
        return similar;
      }
      if identical.Just? {
        var distance := Distance(sqrt, identical.burst.burst, burst.burst);
        if distance < 0.7 {
          return identical;
        }
      }
    }
    return Nothing;
  }

  /** The entries in the order the merge takes them: by descending count, ties in the order the map is walked. */
  method Ranked(given: map<Ref, int>) returns (vec: seq<Entry>)
    ensures Lists(vec, given) && Descending(vec) && SumNums(vec) == MapSum(given)
  {
    hide MapSum, SumNums, Lists, Descending;
    vec := [];
    ghost var done: map<Ref, int> := map[];
    var remaining := given.Keys;
    NothingListed();
    while remaining != {}
      invariant remaining <= given.Keys && done == given - remaining
      invariant Lists(vec, done) && Descending(vec) && SumNums(vec) == MapSum(done)
      decreases remaining
    {
      var b: Ref :| b in remaining;
      var k := PlaceOf(vec, given[b]);
      Placed(vec, done, Entry(b, given[b]), k);
      vec := vec[..k] + [Entry(b, given[b])] + vec[k..];
      done := done[b := given[b]];
      remaining := remaining - {b};
    }
    assert done == given;
  }

  lemma NothingListed()
    ensures Lists([], map[]) && Descending([]) && SumNums([]) == MapSum<Ref>(map[])
  {
  }

  /** A stable sort puts an entry after every entry that does not have a smaller count. */
  ghost predicate IsPlace(vec: seq<Entry>, num: int, k: nat) {
    (forall i :: 0 <= i < k && i < |vec| ==> vec[i].num >= num) && (forall i :: k <= i < |vec| ==> vec[i].num < num)
  }

  method PlaceOf(vec: seq<Entry>, num: int) returns (k: nat)
    requires Descending(vec)
    ensures k <= |vec| && IsPlace(vec, num, k)
  {
    k := |vec|;
    while k > 0 && vec[k - 1].num < num
      invariant 0 <= k <= |vec| && forall i :: k <= i < |vec| ==> vec[i].num < num
    {
      k := k - 1;
    }
  }

  lemma SumInserted(vec: seq<Entry>, e: Entry, k: nat)
    requires k <= |vec|
    ensures SumNums(vec[..k] + [e] + vec[k..]) == SumNums(vec) + e.num
  {
    NumsConcat(vec[..k] + [e], vec[k..]);
    NumsConcat(vec[..k], [e]);
    NumsConcat(vec[..k], vec[k..]);
    assert vec == vec[..k] + vec[k..];
    assert SumNums([e]) == SumNums([]) + e.num;
  }

  lemma Placed(vec: seq<Entry>, done: map<Ref, int>, e: Entry, k: nat)
    requires k <= |vec| && IsPlace(vec, e.num, k) && e.burst !in done
    requires Lists(vec, done) && Descending(vec) && SumNums(vec) == MapSum(done)
    ensures var r := vec[..k] + [e] + vec[k..];
            Lists(r, done[e.burst := e.num]) && Descending(r) && SumNums(r) == MapSum(done[e.burst := e.num])
  {
    hide Lists, Descending, SumNums, MapSum, IsPlace;
    PlacedInOrder(vec, e, k);
    PlacedOnce(vec, done, e, k);
    SumInserted(vec, e, k);
    MapSumUpdate(done, e.burst, e.num);
  }

  lemma PlacedInOrder(vec: seq<Entry>, e: Entry, k: nat)
    requires k <= |vec| && Descending(vec) && IsPlace(vec, e.num, k)
    ensures Descending(vec[..k] + [e] + vec[k..])
  {
    var r := vec[..k] + [e] + vec[k..];
    forall i, j | 0 <= i < j < |r| ensures r[i].num >= r[j].num {
      assert r[i] == if i < k then vec[i] else if i == k then e else vec[i - 1];
      assert r[j] == if j < k then vec[j] else if j == k then e else vec[j - 1];
    }
  }

  lemma PlacedOnce(vec: seq<Entry>, done: map<Ref, int>, e: Entry, k: nat)
    requires Lists(vec, done) && e.burst !in done && k <= |vec|
    ensures Lists(vec[..k] + [e] + vec[k..], done[e.burst := e.num])
  {
    var r := vec[..k] + [e] + vec[k..];
    assert vec == vec[..k] + vec[k..];
    assert forall x :: x in r <==> x in vec || x == e;
    PlacedDistinct(vec, e, k);
  }

  lemma PlacedDistinct(vec: seq<Entry>, e: Entry, k: nat)
    requires DistinctBursts(vec) && k <= |vec| && forall x :: x in vec ==> x.burst != e.burst
    ensures DistinctBursts(vec[..k] + [e] + vec[k..])
  {
    var r := vec[..k] + [e] + vec[k..];
    forall i, j | 0 <= i < j < |r| ensures r[i].burst != r[j].burst {
      assert r[i] == if i < k then vec[i] else if i == k then e else vec[i - 1];
      assert r[j] == if j < k then vec[j] else if j == k then e else vec[j - 1];
    }
  }

  /** All that the greedy merge promises about its result. */
  ghost predicate MergedGreedily(sqrt: real -> real, given: map<Ref, int>, vec: seq<Entry>, stop: nat,
                                 credits: seq<Ref>, kept: seq<Ref>, result: map<Ref, int>)
  {
    Lists(vec, given) && Descending(vec) && stop <= |vec| &&
    Greedy(sqrt, given, vec[..stop], credits, kept, result) &&
    |result| <= MERGE_CAP + 1 && (stop < |vec| ==> |result| == MERGE_CAP + 1) &&
    MapSum(result) + SumNums(vec[stop..]) == MapSum(given)
  }

  /** What holds before entry i is taken: every kept burst is one of the entries taken. */
  ghost predicate KeptFrom(given: map<Ref, int>, taken: seq<Entry>, counts: map<Ref, int>) {
    forall r :: r in counts ==> r in given && Entry(r, given[r]) in taken
  }

  /** What is known of the next entry: it is not kept yet, and no kept burst has a smaller count. */
  lemma NextEntry(given: map<Ref, int>, vec: seq<Entry>, i: nat, counts: map<Ref, int>)
    requires Lists(vec, given) && Descending(vec) && i < |vec| && KeptFrom(given, vec[..i], counts)
    ensures vec[i].burst !in counts && vec[i].burst in given && given[vec[i].burst] == vec[i].num
    ensures forall r :: r in counts ==> r in given && given[r] >= vec[i].num
  {
    assert vec[i] in vec;
    forall r | r in counts ensures given[r] >= vec[i].num && r != vec[i].burst {
      assert Entry(r, given[r]) in vec[..i];
      var k :| 0 <= k < i && vec[k] == Entry(r, given[r]);
    }
  }

  lemma KeptGrows(given: map<Ref, int>, taken: seq<Entry>, counts: map<Ref, int>, e: Entry, r: Ref, num: int)
    requires KeptFrom(given, taken, counts) && e.burst in given && given[e.burst] == e.num &&
             (r in counts || r == e.burst)
    ensures KeptFrom(given, taken + [e], counts[r := num])
  {
  }

  /** A run of the greedy merge that ends in result. */
  ghost predicate GreedyRun(sqrt: real -> real, given: map<Ref, int>, result: map<Ref, int>) {
    exists vec, stop, credits, kept :: MergedGreedily(sqrt, given, vec, stop, credits, kept, result)
  }

  /** Merges similar bursts greedily, most frequent first, and stops taking entries once the cap is passed. */
  method MergeIdenticalKeys(sqrt: real -> real, given: map<Ref, int>) returns (result: map<Ref, int>)
    requires SqrtLaw(sqrt)
    ensures |result| <= 1001 && forall r :: r in result ==> r in given
    ensures GreedyRun(sqrt, given, result)
  {
    hide Lists, Descending, MapSum, SumNums, Greedy, KeptFrom;
    var vec := Ranked(given);
    result := map[];
    ghost var stop: nat, credits: seq<Ref>, kept: seq<Ref> := 0, [], [];
    NothingTaken(sqrt, given);
    for i := 0 to |vec|
      invariant stop == i && |result| <= MERGE_CAP + 1
      invariant Greedy(sqrt, given, vec[..i], credits, kept, result) && KeptFrom(given, vec[..i], result)
    {
      if |result| > MERGE_CAP {
        break;
      }
      result, credits, kept := TakeEntry(sqrt, given, vec, i, result, credits, kept);
      stop := i + 1;
    }
    CountsAddUp(sqrt, given, vec, stop, credits, kept, result);
    KeptAreGiven(given, vec[..stop], result);
    assert MergedGreedily(sqrt, given, vec, stop, credits, kept, result);
  }

  lemma KeptAreGiven(given: map<Ref, int>, taken: seq<Entry>, counts: map<Ref, int>)
    requires KeptFrom(given, taken, counts)
    ensures forall r :: r in counts ==> r in given
  {
  }

  lemma NothingTaken(sqrt: real -> real, given: map<Ref, int>)
    ensures Greedy(sqrt, given, [], [], [], map[]) && KeptFrom(given, [], map[])
  {
  }

  lemma GreedyTotal(sqrt: real -> real, given: map<Ref, int>, seen: seq<Entry>, credits: seq<Ref>, kept: seq<Ref>,
                    counts: map<Ref, int>)
    requires Greedy(sqrt, given, seen, credits, kept, counts)
    ensures MapSum(counts) == SumNums(seen)
  {
    hide RunOk, NoDup, Apart, CreditsOk, MapSum, SumNums;
  }

  lemma CountsAddUp(sqrt: real -> real, given: map<Ref, int>, vec: seq<Entry>, stop: nat, credits: seq<Ref>,
                    kept: seq<Ref>,
                    result: map<Ref, int>)
    requires stop <= |vec| && Greedy(sqrt, given, vec[..stop], credits, kept, result) && SumNums(vec) == MapSum(given)
    ensures MapSum(result) + SumNums(vec[stop..]) == MapSum(given)
  {
    hide Greedy, MapSum, SumNums;
    GreedyTotal(sqrt, given, vec[..stop], credits, kept, result);
    NumsConcat(vec[..stop], vec[stop..]);
    assert vec == vec[..stop] + vec[stop..];
  }

  /** The body of the loop: an entry joins a kept burst or is kept. */
  method TakeEntry(sqrt: real -> real, ghost given: map<Ref, int>, vec: seq<Entry>, i: nat, counts: map<Ref, int>,
                   ghost credits: seq<Ref>, ghost kept: seq<Ref>)
    returns (counts': map<Ref, int>, ghost credits': seq<Ref>, ghost kept': seq<Ref>)
    requires SqrtLaw(sqrt) && Lists(vec, given) && Descending(vec) && i < |vec| && |counts| <= MERGE_CAP
    requires Greedy(sqrt, given, vec[..i], credits, kept, counts) && KeptFrom(given, vec[..i], counts)
    ensures Greedy(sqrt, given, vec[..i + 1], credits', kept', counts') && KeptFrom(given, vec[..i + 1], counts')
    ensures |counts'| <= MERGE_CAP + 1
  {
    hide Lists, Descending, SumNums, Greedy, KeptFrom, DistanceOf, Big, StepOk;
    var e := vec[i];
    var home := FindHome(sqrt, counts, e.burst);
    assert vec[..i + 1] == vec[..i] + [e];
    NextEntry(given, vec, i, counts);
    if home.Just? {
      GreedyCredits(sqrt, given, vec[..i], credits, kept, counts, e, home.burst);
      counts' := counts[home.burst := counts[home.burst] + e.num];
      credits', kept' := credits + [home.burst], kept;
      KeptGrows(given, vec[..i], counts, e, home.burst, counts'[home.burst]);
    } else {
      GreedyKeeps(sqrt, given, vec[..i], credits, kept, counts, e);
      counts' := counts[e.burst := e.num];
      credits', kept' := credits + [e.burst], kept + [e.burst];
      KeptGrows(given, vec[..i], counts, e, e.burst, e.num);
    }
  }

  /** An entry taken by the merge has a kept burst that is itself or within 0.7. */
  lemma TakenHasHome(sqrt: real -> real, given: map<Ref, int>, vec: seq<Entry>, stop: nat, credits: seq<Ref>,
                     kept: seq<Ref>, result: map<Ref, int>, k: nat)
    requires MergedGreedily(sqrt, given, vec, stop, credits, kept, result) && k < stop
    ensures |credits| == stop && credits[k] in result
    ensures credits[k] == vec[k].burst || DistanceOf(sqrt, credits[k].burst, vec[k].burst.burst) < 0.7
  {
    hide DistanceOf, Lists, Descending, NoDup, Apart;
    assert CreditOk(sqrt, given, vec[..stop][k], credits[k]);
  }

  /** When the cap is not passed, every burst given has a kept one that is itself or within 0.7. */
  lemma EveryBurstHasHome(sqrt: real -> real, given: map<Ref, int>, result: map<Ref, int>, e: Ref) returns (r: Ref)
    requires GreedyRun(sqrt, given, result) && |result| <= MERGE_CAP && e in given
    ensures r in result && (r == e || DistanceOf(sqrt, r.burst, e.burst) < 0.7)
  {
    hide DistanceOf, Descending, Greedy;
    var vec, stop, credits, kept :| MergedGreedily(sqrt, given, vec, stop, credits, kept, result);
    assert Entry(e, given[e]) in vec;
    var k :| 0 <= k < |vec| && vec[k] == Entry(e, given[e]);
    TakenHasHome(sqrt, given, vec, stop, credits, kept, result, k);
    r := credits[k];
  }

  // ---------- what a run means entry by entry ----------

  lemma {:induction false} StepAt(sqrt: real -> real, seen: seq<Entry>, credits: seq<Ref>, k: nat)
    requires |credits| == |seen| && StepsOk(sqrt, seen, credits) && k < |seen|
    ensures StepOk(sqrt, Members(KeptOf(seen[..k], credits[..k])), seen[k].burst, credits[k])
  {
    hide StepOk;
    var n := |seen| - 1;
    if k < n {
      StepAt(sqrt, seen[..n], credits[..n], k);
      assert seen[..n][..k] == seen[..k] && credits[..n][..k] == credits[..k];
    }
  }

  lemma {:induction false} KeptWasTaken(seen: seq<Entry>, credits: seq<Ref>, r: Ref) returns (i: nat)
    requires |credits| == |seen| && r in KeptOf(seen, credits)
    ensures i < |seen| && seen[i].burst == r && credits[i] == r
  {
    var n := |seen| - 1;
    if credits[n] == seen[n].burst == r {
      i := n;
    } else {
      i := KeptWasTaken(seen[..n], credits[..n], r);
    }
  }

  /**
   * Where entry k went: to itself or to an entry taken before it that kept itself; a burst that is not big always kept
   * itself; and one that did not is within 0.2 of its new home, or has its signatures and is within 0.7.
   */
  lemma CreditMeaning(sqrt: real -> real, seen: seq<Entry>, credits: seq<Ref>, kept: seq<Ref>, k: nat) returns (i: nat)
    requires RunOk(sqrt, seen, credits, kept) && k < |seen|
    ensures i <= k && seen[i].burst == credits[k] && credits[i] == credits[k]
    ensures !Big(seen[k].burst.burst) ==> credits[k] == seen[k].burst
    ensures credits[k] != seen[k].burst ==>
              DistanceOf(sqrt, credits[k].burst, seen[k].burst.burst) < 0.2 ||
              (SameSigs(credits[k].burst, seen[k].burst.burst) &&
               DistanceOf(sqrt, credits[k].burst, seen[k].burst.burst) < 0.7)
  {
    hide DistanceOf, SameSigs, Big, StepsOk;
    RunSteps(sqrt, seen, credits, kept);
    StepAt(sqrt, seen, credits, k);
    if credits[k] == seen[k].burst {
      i := k;
    } else {
      MemberIsKept(KeptOf(seen[..k], credits[..k]), credits[k]);
      i := KeptWasTaken(seen[..k], credits[..k], credits[k]);
    }
  }

  lemma RunSteps(sqrt: real -> real, seen: seq<Entry>, credits: seq<Ref>, kept: seq<Ref>)
    requires RunOk(sqrt, seen, credits, kept)
    ensures |credits| == |seen| && StepsOk(sqrt, seen, credits) && kept == KeptOf(seen, credits)
  {
  }

  /**
   * The search looks at one burst with the same signatures only. So a big burst is kept beside an earlier one with its
   * signatures, near or not, if and only if some earlier one with its signatures is 0.7 or more away.
   */
  lemma KeptBesideSameSigs(sqrt: real -> real, before: set<Ref>, e: Ref)
    requires Big(e.burst) && e !in before && !SomeSimilar(sqrt, before, e) && SomeIdentical(before, e)
    ensures StepOk(sqrt, before, e, e) <==> SomeFarIdentical(sqrt, before, e)
  {
  }

  /**
   * In a whole run: a big burst that was kept has no earlier kept one within 0.2, and if an earlier kept one has its
   * signatures, then so does one that is 0.7 or more away.
   */
  lemma KeptBigStandsApart(sqrt: real -> real, seen: seq<Entry>, credits: seq<Ref>, kept: seq<Ref>, k: nat)
    requires RunOk(sqrt, seen, credits, kept) && DistinctBursts(seen) && k < |seen|
    requires Big(seen[k].burst.burst) && credits[k] == seen[k].burst
    ensures var before := Members(KeptOf(seen[..k], credits[..k]));
            !SomeSimilar(sqrt, before, seen[k].burst) &&
            (SomeIdentical(before, seen[k].burst) ==> SomeFarIdentical(sqrt, before, seen[k].burst))
  {
    hide DistanceOf, SameSigs, Big, StepsOk, SomeSimilar, SomeIdentical, SomeFarIdentical;
    RunSteps(sqrt, seen, credits, kept);
    StepAt(sqrt, seen, credits, k);
    if seen[k].burst in Members(KeptOf(seen[..k], credits[..k])) {
      MemberIsKept(KeptOf(seen[..k], credits[..k]), credits[k]);
      var i := KeptWasTaken(seen[..k], credits[..k], credits[k]);
      assert false;
    }
  }

  // ---------- the whole run in the numbers of the code ----------

  /** Before entry k, burst r was taken and kept. */
  ghost predicate KeptBefore(vec: seq<Entry>, credits: seq<Ref>, k: nat, r: Ref)
    requires k <= |credits| <= |vec|
  {
    exists i :: 0 <= i < k && credits[i] == vec[i].burst == r
  }

  lemma {:induction false} TakenIsKept(seen: seq<Entry>, credits: seq<Ref>, i: nat)
    requires |credits| == |seen| && i < |seen| && credits[i] == seen[i].burst
    ensures credits[i] in KeptOf(seen, credits)
  {
    if i < |seen| - 1 {
      TakenIsKept(seen[..|seen| - 1], credits[..|seen| - 1], i);
    }
  }

  lemma KeptBeforeIff(vec: seq<Entry>, credits: seq<Ref>, k: nat, r: Ref)
    requires k <= |credits| <= |vec|
    ensures r in Members(KeptOf(vec[..k], credits[..k])) <==> KeptBefore(vec, credits, k, r)
  {
    var seen, gone := vec[..k], credits[..k];
    if r in Members(KeptOf(seen, gone)) {
      var i := KeptWasTaken(seen, gone, r);
      assert credits[i] == vec[i].burst == r;
    }
    if KeptBefore(vec, credits, k, r) {
      var i :| 0 <= i < k && credits[i] == vec[i].burst == r;
      TakenIsKept(seen, gone, i);
    }
  }

  /** What happened to entry k, in the thresholds of the code. */
  ghost predicate StepDone(sqrt: real -> real, vec: seq<Entry>, credits: seq<Ref>, k: nat)
    requires k < |credits| <= |vec|
  {
    var e, r := vec[k].burst, credits[k];
    if e.burst.uniPktNum <= 10 && e.burst.pktNum <= 6 then r == e
    else if exists b :: KeptBefore(vec, credits, k, b) && DistanceOf(sqrt, b.burst, e.burst) < 0.2
    then KeptBefore(vec, credits, k, r) && DistanceOf(sqrt, r.burst, e.burst) < 0.2
    else
      (KeptBefore(vec, credits, k, r) && SameSigs(r.burst, e.burst) && DistanceOf(sqrt, r.burst, e.burst) < 0.7) ||
      (r == e &&
       ((exists b :: KeptBefore(vec, credits, k, b) && SameSigs(b.burst, e.burst)) ==>
        exists b :: KeptBefore(vec, credits, k, b) && SameSigs(b.burst, e.burst) &&
                    DistanceOf(sqrt, b.burst, e.burst) >= 0.7))
  }

  lemma StepInFull(sqrt: real -> real, vec: seq<Entry>, credits: seq<Ref>, k: nat)
    requires k < |credits| <= |vec|
    requires StepOk(sqrt, Members(KeptOf(vec[..k], credits[..k])), vec[k].burst, credits[k])
    ensures StepDone(sqrt, vec, credits, k)
  {
    hide DistanceOf, SameSigs, KeptBefore, KeptOf, Members;
    forall b { KeptBeforeIff(vec, credits, k, b); }
  }

  /**
   * A run of the greedy merge in full. All entries are lined up by descending count; they are taken in this order, all
   * of them unless 1001 bursts are kept; the bursts kept are those credited to themselves, and each has the sum of the
   * counts credited to it; and every entry went where its size and the bursts kept before it send it.
   */
  lemma RunInFull(sqrt: real -> real, given: map<Ref, int>, result: map<Ref, int>)
    returns (vec: seq<Entry>, credits: seq<Ref>)
    requires GreedyRun(sqrt, given, result)
    ensures |credits| <= |vec| && forall i, j :: 0 <= i < j < |vec| ==> vec[i].burst != vec[j].burst
    ensures forall i, j :: 0 <= i < j < |vec| ==> vec[i].num >= vec[j].num
    ensures forall r: Ref, n: int :: Entry(r, n) in vec <==> r in given && given[r] == n
    ensures |result| <= 1001 && (|credits| < |vec| ==> |result| == 1001)
    ensures forall r: Ref :: r in result <==> KeptBefore(vec, credits, |credits|, r)
    ensures forall r: Ref :: r in result ==> result[r] == SumTo(vec[..|credits|], credits, r)
    ensures forall k :: 0 <= k < |credits| ==> StepDone(sqrt, vec, credits, k)
  {
    hide Lists, Descending, StepsOk, StepDone, KeptOf, Members, KeptBefore, SumTo, Greedy;
    var stop: nat, kept: seq<Ref>;
    vec, stop, credits, kept :| MergedGreedily(sqrt, given, vec, stop, credits, kept, result);
    RunOfMerge(sqrt, given, vec, stop, credits, kept, result);
    EntriesGiven(vec, given);
    LinedUp(vec, given);
    KeptInFull(vec, credits, result);
    StepsDone(sqrt, vec, credits);
  }

  lemma LinedUp(vec: seq<Entry>, given: map<Ref, int>)
    requires Lists(vec, given) && Descending(vec)
    ensures forall i, j :: 0 <= i < j < |vec| ==> vec[i].burst != vec[j].burst
    ensures forall i, j :: 0 <= i < j < |vec| ==> vec[i].num >= vec[j].num
  {
  }

  lemma StepsDone(sqrt: real -> real, vec: seq<Entry>, credits: seq<Ref>)
    requires |credits| <= |vec| && StepsOk(sqrt, vec[..|credits|], credits)
    ensures forall k :: 0 <= k < |credits| ==> StepDone(sqrt, vec, credits, k)
  {
    hide StepOk, StepsOk, StepDone, KeptOf, Members;
    forall k | 0 <= k < |credits| ensures StepDone(sqrt, vec, credits, k) {
      StepAt(sqrt, vec[..|credits|], credits, k);
      assert vec[..|credits|][..k] == vec[..k];
      StepInFull(sqrt, vec, credits, k);
    }
  }

  lemma KeptInFull(vec: seq<Entry>, credits: seq<Ref>, result: map<Ref, int>)
    requires |credits| <= |vec|
    requires forall r :: r in result <==> r in Members(KeptOf(vec[..|credits|], credits))
    ensures forall r: Ref :: r in result <==> KeptBefore(vec, credits, |credits|, r)
  {
    hide KeptOf, Members, KeptBefore;
    assert credits[..|credits|] == credits;
    forall r: Ref ensures r in result <==> KeptBefore(vec, credits, |credits|, r) {
      KeptBeforeIff(vec, credits, |credits|, r);
    }
  }

  lemma RunOfMerge(sqrt: real -> real, given: map<Ref, int>, vec: seq<Entry>, stop: nat, credits: seq<Ref>,
                   kept: seq<Ref>, result: map<Ref, int>)
    requires MergedGreedily(sqrt, given, vec, stop, credits, kept, result)
    ensures Lists(vec, given) && Descending(vec) && stop == |credits| <= |vec|
    ensures |result| <= 1001 && (stop < |vec| ==> |result| == 1001)
    ensures StepsOk(sqrt, vec[..stop], credits)
    ensures forall r :: r in result <==> r in Members(KeptOf(vec[..stop], credits))
    ensures forall r :: r in result ==> result[r] == SumTo(vec[..stop], credits, r)
  {
    hide StepsOk, KeptOf, SumTo, NoDup, Apart, CreditsOk, MapSum, SumNums, Lists, Descending;
  }

  lemma EntriesGiven(vec: seq<Entry>, given: map<Ref, int>)
    requires Lists(vec, given)
    ensures forall r: Ref, n: int :: Entry(r, n) in vec <==> r in given && given[r] == n
  {
  }

  // ---------- a small burst taken first ----------

  function OneSig(num: int): BurstValue
    requires num >= 1
  {
    BurstValue("", 1, num, ZERO_STAMP, ZERO_STAMP, [SigCount(60, num)])
  }

  lemma OneSigComparable(num: int)
    requires num >= 1
    ensures Comparable(OneSig(num))
  {
    AppendEntry([], SigCount(60, num), 0);
    assert [] + [SigCount(60, num)] == [SigCount(60, num)];
  }

  lemma OneSigFrequency(num: int, s: int)
    requires num >= 1
    ensures Frequency(OneSig(num), s) == if s == 60 then 1.0 else 0.0
  {
    AppendEntry([], SigCount(60, num), s);
    assert [] + [SigCount(60, num)] == [SigCount(60, num)];
    FullShare(num);
  }

  lemma OneSigDistance(sqrt: real -> real, m: int, n: int)
    requires SqrtLaw(sqrt) && 1 <= m <= 100 && 1 <= n <= 100
    ensures DistanceOf(sqrt, OneSig(m), OneSig(n)) == 0.0
  {
    hide DistanceOf, Frequency;
    OneSigComparable(m);
    OneSigComparable(n);
    forall s ensures Frequency(OneSig(m), s) == Frequency(OneSig(n), s) {
      OneSigFrequency(m, s);
      OneSigFrequency(n, s);
    }
    DistanceZero(sqrt, OneSig(m), OneSig(n));
  }

  lemma EntryIsGiven(vec: seq<Entry>, given: map<Ref, int>, k: nat)
    requires Lists(vec, given) && k < |vec|
    ensures vec[k].burst in given && vec[k].num == given[vec[k].burst]
  {
    assert vec[k] in vec;
  }

  lemma AtMostTwo(vec: seq<Entry>, a: Ref, b: Ref)
    requires Lists(vec, map[a := 3, b := 5])
    ensures |vec| <= 2
  {
    if |vec| > 2 {
      var given: map<Ref, int> := map[a := 3, b := 5];
      EntryIsGiven(vec, given, 0);
      EntryIsGiven(vec, given, 1);
      EntryIsGiven(vec, given, 2);
      assert false;
    }
  }

  /** The entries of two bursts with different counts can be taken in one order only. */
  lemma TwoEntries(vec: seq<Entry>, a: Ref, b: Ref)
    requires a != b && Lists(vec, map[a := 3, b := 5]) && Descending(vec)
    ensures vec == [Entry(b, 5), Entry(a, 3)]
  {
    AtMostTwo(vec, a, b);
    var given: map<Ref, int> := map[a := 3, b := 5];
    assert a in given && b in given;
    assert Entry(a, 3) in vec && Entry(b, 5) in vec;
    var i :| 0 <= i < |vec| && vec[i] == Entry(a, 3);
    var j :| 0 <= j < |vec| && vec[j] == Entry(b, 5);
    assert i == 1 && j == 0;
  }

  /**
   * A small burst with the larger count is taken first, and the big one at distance zero joins it: the run that keeps
   * both, which the separation of big bursts would allow in the other order, does not exist.
   */
  lemma SmallTakenFirst(sqrt: real -> real, a: Ref, b: Ref, result: map<Ref, int>)
    requires SqrtLaw(sqrt) && a.burst == OneSig(7) && b.burst == OneSig(6)
    requires GreedyRun(sqrt, map[a := 3, b := 5], result)
    ensures result == map[b := 8]
  {
    hide DistanceOf, Apart, CreditsOk, NoDup;
    var given: map<Ref, int> := map[a := 3, b := 5];
    var vec, stop, credits, kept :| MergedGreedily(sqrt, given, vec, stop, credits, kept, result);
    TwoEntries(vec, a, b);
    SmallResult(given, vec, stop, credits, kept, result);
    OneSigDistance(sqrt, 6, 7);
    TwoSteps(sqrt, vec, credits, a, b);
    TwoCounts(vec, credits, kept, result, a, b);
  }

  /** With two bursts given the cap is out of reach. */
  lemma SmallResult(given: map<Ref, int>, vec: seq<Entry>, stop: nat, credits: seq<Ref>, kept: seq<Ref>,
                    result: map<Ref, int>)
    requires |vec| == 2 && stop <= |vec| && (stop < |vec| ==> |result| == MERGE_CAP + 1)
    requires CountsCredits(vec[..stop], credits, kept, result)
    requires kept == KeptOf(vec[..stop], credits)
    ensures stop == 2 && vec[..stop] == vec
  {
    KeptNoMore(vec[..stop], credits);
    assert result.Keys == Members(kept);
    MembersNoMore(kept);
  }

  lemma {:induction false} KeptNoMore(seen: seq<Entry>, credits: seq<Ref>)
    requires |seen| == |credits|
    ensures |KeptOf(seen, credits)| <= |seen|
  {
    if seen != [] {
      KeptNoMore(seen[..|seen| - 1], credits[..|seen| - 1]);
    }
  }

  lemma {:induction false} MembersNoMore(s: seq<Ref>)
    ensures |Members(s)| <= |s|
  {
    if s != [] {
      var n := |s| - 1;
      MembersNoMore(s[..n]);
      assert Members(s) == Members(s[..n]) + {s[n]} by {
        assert s == s[..n] + [s[n]];
      }
    }
  }

  lemma TwoSteps(sqrt: real -> real, vec: seq<Entry>, credits: seq<Ref>, a: Ref, b: Ref)
    requires a != b && vec == [Entry(b, 5), Entry(a, 3)] && |credits| == 2 && StepsOk(sqrt, vec, credits)
    requires !Big(b.burst) && Big(a.burst) && DistanceOf(sqrt, b.burst, a.burst) < 0.2
    ensures credits == [b, b]
  {
    hide DistanceOf, Big, SameSigs;
    StepAt(sqrt, vec, credits, 0);
    StepAt(sqrt, vec, credits, 1);
    assert vec[..1][..0] == [] && vec[..1][0] == vec[0] && credits[..1][0] == credits[0];
    assert KeptOf(vec[..1], credits[..1]) == [b];
    assert b in Members([b]);
    assert forall r :: r in Members([b]) ==> r == b;
  }

  lemma KeptSnoc(seen: seq<Entry>, credits: seq<Ref>, e: Entry, c: Ref)
    requires |seen| == |credits|
    ensures KeptOf(seen + [e], credits + [c]) == KeptOf(seen, credits) + (if c == e.burst then [c] else [])
  {
    assert (seen + [e])[..|seen|] == seen && (credits + [c])[..|seen|] == credits;
  }

  lemma OneKept(e: Entry, c: Ref)
    ensures KeptOf([e], [c]) == if c == e.burst then [c] else []
    ensures SumTo([e], [c], c) == e.num
  {
  }

  lemma TwoKept(d: Entry, e: Entry, c: Ref)
    requires d.burst == c && e.burst != c
    ensures KeptOf([d, e], [c, c]) == [c]
  {
    OneKept(d, c);
    KeptSnoc([d], [c], e, c);
    assert [d] + [e] == [d, e] && [c] + [c] == [c, c];
  }

  lemma TwoSummed(d: Entry, e: Entry, c: Ref)
    ensures SumTo([d, e], [c, c], c) == d.num + e.num
  {
    OneKept(d, c);
    SumSnoc([d], [c], e, c, c);
    assert [d] + [e] == [d, e] && [c] + [c] == [c, c];
  }

  lemma TwoCounts(vec: seq<Entry>, credits: seq<Ref>, kept: seq<Ref>, result: map<Ref, int>, a: Ref, b: Ref)
    requires a != b && vec == [Entry(b, 5), Entry(a, 3)] && credits == [b, b] && kept == KeptOf(vec, credits)
    requires CountsCredits(vec, credits, kept, result)
    ensures result == map[b := 8]
  {
    hide KeptOf, SumTo, MapSum, SumNums;
    TwoKept(Entry(b, 5), Entry(a, 3), b);
    TwoSummed(Entry(b, 5), Entry(a, 3), b);
    assert b in result && forall r :: r in result ==> r == b;
  }

  // ---------- one burst with the same signatures is looked at ----------

  function TwoSigs(p: int, q: int): BurstValue
    requires p >= 1 && q >= 1
  {
    BurstValue("", 2, p + q, ZERO_STAMP, ZERO_STAMP, [SigCount(60, p), SigCount(90, q)])
  }

  lemma TwoSigsSound(p: int, q: int)
    requires p >= 1 && q >= 1
    ensures Comparable(TwoSigs(p, q))
    ensures CountOf(TwoSigs(p, q).detail, 60) == p && CountOf(TwoSigs(p, q).detail, 90) == q
  {
    AppendEntry([], SigCount(60, p), 60);
    AppendEntry([], SigCount(60, p), 90);
    AppendEntry([SigCount(60, p)], SigCount(90, q), 60);
    AppendEntry([SigCount(60, p)], SigCount(90, q), 90);
    assert [] + [SigCount(60, p)] == [SigCount(60, p)];
    assert [SigCount(60, p)] + [SigCount(90, q)] == TwoSigs(p, q).detail;
  }

  lemma RootsOf25(sqrt: real -> real)
    requires SqrtLaw(sqrt)
    ensures Root(sqrt, 25)(9) == 0.6 && Root(sqrt, 25)(16) == 0.8
  {
    SameSquares(sqrt(Share(9, 25)), 0.6);
    SameSquares(sqrt(Share(16, 25)), 0.8);
  }

  lemma AffinityOfTwo(f: int -> real, g: int -> real, p: int, q: int, b: seq<SigCount>)
    requires p >= 1 && q >= 1
    ensures Affinity(f, TwoSigs(p, q).detail, g, b) == f(p) * g(CountOf(b, 60)) + f(q) * g(CountOf(b, 90))
  {
    var d := TwoSigs(p, q).detail;
    assert d[..1] == [SigCount(60, p)] && d[..1][..0] == [];
    assert Affinity(f, [SigCount(60, p)], g, b) == f(p) * g(CountOf(b, 60));
  }

  lemma MirrorGap(sqrt: real -> real)
    requires SqrtLaw(sqrt)
    ensures Gap(sqrt, TwoSigs(16, 9), TwoSigs(9, 16)) == 0.08
  {
    hide Root, CountOf;
    TwoSigsSound(9, 16);
    RootsOf25(sqrt);
    AffinityOfTwo(Root(sqrt, 25), Root(sqrt, 25), 16, 9, TwoSigs(9, 16).detail);
  }

  lemma MirrorDistance(sqrt: real -> real)
    requires SqrtLaw(sqrt)
    ensures 0.2 <= DistanceOf(sqrt, TwoSigs(16, 9), TwoSigs(9, 16)) < 0.7
  {
    hide DistanceOf, Gap;
    var x := DistanceOf(sqrt, TwoSigs(16, 9), TwoSigs(9, 16));
    TwoSigsSound(16, 9);
    TwoSigsSound(9, 16);
    DistanceBounds(sqrt, TwoSigs(16, 9), TwoSigs(9, 16));
    MirrorGap(sqrt);
    assert Squared(x) == 0.08;
    if x < 0.2 {
      SquaresOrdered(x, 0.2);
    }
    if x >= 0.7 {
      SquaresOrdered(0.5, x);
    }
  }

  /**
   * The same step with two outcomes: a big burst meets a near and a far kept burst with its signatures. Whichever the
   * search comes upon first decides whether it joins the near one or is kept beside it.
   */
  lemma TwoOutcomes(sqrt: real -> real, near: Ref, far: Ref, e: Ref)
    requires SqrtLaw(sqrt) && e != near && e != far
    requires e.burst == TwoSigs(9, 16) && near.burst == TwoSigs(16, 9) && far.burst == TwoSigs(100, 100)
    ensures StepOk(sqrt, {near, far}, e, near) && StepOk(sqrt, {near, far}, e, e)
    ensures SameSigs(near.burst, e.burst) && DistanceOf(sqrt, near.burst, e.burst) < 0.7
  {
    MirrorDistance(sqrt);
    assert DistanceOf(sqrt, far.burst, e.burst) == 1.0;
    hide DistanceOf;
    assert !SomeSimilar(sqrt, {near, far}, e);
    assert SomeFarIdentical(sqrt, {near, far}, e) by {
      assert far in {near, far} && SameSigs(far.burst, e.burst);
    }
  }
}
