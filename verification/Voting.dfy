/** The group vote of src/BurstGroupPolicycpp.cpp: predictions fill a bucket of scores, GenPrediction picks a label. */
module Voting {
  import opened Collections
  import opened BurstValues
  import opened Distances
  import opened Merging
  import opened NearestIndex
  import opened CacheProtocol

  const UNRELIABLE := "unreliable"

  // ---------- vote mass ----------

  /** The total weight one burst prediction adds: nothing beyond distance 0.5, or when nothing is near. */
  function Mass(sqrt: real -> real, log: real -> real, t: BurstValue, near: Nearest): real
    requires SqrtPositive(sqrt, near.dist)
  {
    if near.dist > 0.5 || near.bursts == [] then 0.0
    else log((t.uniPktNum as int + 1) as real) / (sqrt(near.dist) + 1.0)
  }

  predicate SqrtPositive(sqrt: real -> real, d: real) {
    sqrt(d) >= 0.0
  }

  /** k equal shares of size v. */
  function Times(k: int, v: real): real {
    k as real * v
  }

  function ShareSize(weight: real, n: int, scale: real): real
    requires n > 0 && scale > 0.0
  {
    weight / (n as real * scale)
  }

  lemma ShareOut(w: real, n: int, s: real)
    requires n > 0 && s > 0.0
    ensures Times(n, ShareSize(w, n, s)) == w / s
  {
    var m := n as real;
    var q := w / (m * s);
    assert m * s > 0.0;
    assert q * (m * s) == w;
    assert (m * q) * s == w;
  }

  lemma SharesAdd(k: int, v: real)
    ensures Times(k + 1, v) == Times(k, v) + v && Times(0, v) == 0.0
  {
  }

  function Plus(bucket: map<string, real>, item: string, v: real): map<string, real> {
    bucket[item := (if item in bucket then bucket[item] else 0.0) + v]
  }

  /** A share for each of the given names. */
  function PlusAll(bucket: map<string, real>, order: seq<string>, v: real): map<string, real> {
    if order == [] then bucket else Plus(PlusAll(bucket, order[..|order| - 1], v), order[|order| - 1], v)
  }

  lemma {:induction false} PlusAllAdds(bucket: map<string, real>, order: seq<string>, v: real)
    ensures RealSum(PlusAll(bucket, order, v)) == RealSum(bucket) + Times(|order|, v)
  {
    SharesAdd(0, v);
    if order != [] {
      var n := |order| - 1;
      var before := PlusAll(bucket, order[..n], v);
      PlusAllAdds(bucket, order[..n], v);
      SharesAdd(n, v);
      RealSumUpdate(before, order[n], (if order[n] in before then before[order[n]] else 0.0) + v);
    }
  }

  /** Exactly the named labels gain a share. */
  lemma {:induction false} PlusAllAt(bucket: map<string, real>, order: seq<string>, v: real, name: string)
    requires NoDup(order)
    ensures name in PlusAll(bucket, order, v) <==> name in bucket || name in order
    ensures name in PlusAll(bucket, order, v) ==>
              PlusAll(bucket, order, v)[name] ==
              (if name in bucket then bucket[name] else 0.0) + (if name in order then v else 0.0)
  {
    if order != [] {
      var n := |order| - 1;
      assert order == order[..n] + [order[n]];
      PlusAllAt(bucket, order[..n], v, name);
    }
  }

  /** The device names among the nearest bursts. */
  function NamesOf(bursts: seq<Ref>): set<string> {
    set b | b in bursts :: b.burst.instanceLabel
  }

  /** The names that gain something from a burst prediction. */
  function VotedNames(near: Nearest): set<string> {
    if near.dist > 0.5 then {} else NamesOf(near.bursts)
  }

  /** What each of them gains. */
  function ShareOf(sqrt: real -> real, log: real -> real, t: BurstValue, near: Nearest): real
    requires SqrtPositive(sqrt, near.dist)
  {
    if VotedNames(near) == {} then 0.0
    else ShareSize(log((t.uniPktNum as int + 1) as real), |VotedNames(near)|, sqrt(near.dist) + 1.0)
  }

  /** However many names tie, a burst prediction adds the same total. */
  lemma VoteMass(sqrt: real -> real, log: real -> real, t: BurstValue, near: Nearest, bucket: map<string, real>,
                 order: seq<string>)
    requires SqrtPositive(sqrt, near.dist) && WalkOrder(order, VotedNames(near))
    ensures RealSum(PlusAll(bucket, order, ShareOf(sqrt, log, t, near))) == RealSum(bucket) + Mass(sqrt, log, t, near)
    ensures Mass(sqrt, log, t, near) ==
            if near.dist <= 0.5 && near.bursts != [] then log((t.uniPktNum + 1) as real) / (sqrt(near.dist) + 1.0)
            else 0.0
  {
    hide RealSum, PlusAll, Times, ShareSize;
    PlusAllAdds(bucket, order, ShareOf(sqrt, log, t, near));
    WalkOrderSize(order, VotedNames(near));
    SharesAdd(0, 0.0);
    if near.bursts != [] {
      assert near.bursts[0].burst.instanceLabel in NamesOf(near.bursts);
    }
    if VotedNames(near) != {} {
      ShareOut(log((t.uniPktNum as int + 1) as real), |order|, sqrt(near.dist) + 1.0);
    }
  }

  lemma VotedMeaning(near: Nearest, name: string)
    ensures name in VotedNames(near) <==>
            near.dist <= 0.5 && exists b :: b in near.bursts && b.burst.instanceLabel == name
  {
  }

  lemma VotedOrder(near: Nearest, order: seq<string>)
    requires WalkOrder(order, VotedNames(near))
    ensures NoDup(order) && forall name :: name in order <==> name in VotedNames(near)
  {
  }

  /** Every predicted label gains the share, and nothing else changes. */
  lemma SharedOut(before: map<string, real>, after: map<string, real>, order: seq<string>, near: Nearest, share: real)
    requires after == PlusAll(before, order, share)
    requires NoDup(order) && forall name :: name in order <==> name in VotedNames(near)
    ensures forall name: string ::
              if near.dist <= 0.5 && exists b :: b in near.bursts && b.burst.instanceLabel == name
              then name in after && after[name] == (if name in before then before[name] else 0.0) + share
              else (name in after <==> name in before) && (name in after ==> after[name] == before[name])
  {
    hide PlusAll, VotedNames, NoDup;
    forall name: string
      ensures if near.dist <= 0.5 && exists b :: b in near.bursts && b.burst.instanceLabel == name
              then name in after && after[name] == (if name in before then before[name] else 0.0) + share
              else (name in after <==> name in before) && (name in after ==> after[name] == before[name])
    {
      VotedMeaning(near, name);
      PlusAllAt(before, order, share, name);
      assert name in order <==> name in VotedNames(near);
    }
  }

  /** The share in the terms of the code: the weight over the number of labels times the distance's root plus one. */
  lemma ShareMeaning(sqrt: real -> real, log: real -> real, t: BurstValue, near: Nearest)
    requires SqrtPositive(sqrt, near.dist) && near.dist <= 0.5 && near.bursts != []
    ensures var labels := set b | b in near.bursts :: b.burst.instanceLabel;
            |labels| > 0 &&
            ShareOf(sqrt, log, t, near) * (|labels| as real * (sqrt(near.dist) + 1.0)) == log((t.uniPktNum + 1) as real)
  {
    var labels := set b | b in near.bursts :: b.burst.instanceLabel;
    assert VotedNames(near) == labels;
    assert near.bursts[0].burst.instanceLabel in labels;
    var n, s := |labels| as real, sqrt(near.dist) + 1.0;
    PositiveProduct(n, s, 0.0);
    ShareTimes(log((t.uniPktNum as int + 1) as real), |labels|, s);
  }

  lemma ShareTimes(w: real, n: int, s: real)
    requires n > 0 && s > 0.0 && n as real * s > 0.0
    ensures ShareSize(w, n, s) * (n as real * s) == w
  {
  }

  lemma PlusAllSnoc(bucket: map<string, real>, order: seq<string>, item: string, v: real)
    ensures PlusAll(bucket, order + [item], v) == Plus(PlusAll(bucket, order, v), item, v)
  {
    assert (order + [item])[..|order|] == order;
  }

  // ---------- selection ----------

  /** An entry of the ranking. */
  datatype Scored = Scored(score: real, name: string)

  predicate Reliable(bucket: map<string, real>, name: string) {
    name in bucket && name != UNRELIABLE
  }

  /** A reliable label that no other one outperforms by more than the margin. */
  ghost predicate Contender(bucket: map<string, real>, margin: real, name: string) {
    Reliable(bucket, name) && forall other :: Reliable(bucket, other) ==> bucket[name] >= bucket[other] - margin
  }

  ghost predicate Tied(bucket: map<string, real>, margin: real) {
    exists a, b :: a != b && Contender(bucket, margin, a) && Contender(bucket, margin, b)
  }

  const INT_MAX := 2147483647

  function Abs(x: int): (r: nat)
    ensures r == x || r == -x
  {
    if x < 0 then -x else x
  }

  /** Packet-count gap between the merged test group and training block k of a device. */
  function BlockGap(blocks: string -> seq<int>, packets: int, name: string, k: nat): nat
    requires k < |blocks(name)|
  {
    Abs(packets - blocks(name)[k])
  }

  /** Some contender has a training block at all near the test group. */
  ghost predicate Usable(bucket: map<string, real>, margin: real, blocks: string -> seq<int>, packets: int) {
    exists name, k: nat :: Contender(bucket, margin, name) && k < |blocks(name)| &&
      BlockGap(blocks, packets, name, k) < INT_MAX
  }

  /** The start value of the search, the largest 32-bit integer, is the only thing that makes a block unusable. */
  lemma UsableMeaning(bucket: map<string, real>, margin: real, blocks: string -> seq<int>, packets: int)
    ensures Usable(bucket, margin, blocks, packets) <==>
            exists name, k: nat :: Contender(bucket, margin, name) && k < |blocks(name)| &&
              -0x7FFF_FFFF < packets - blocks(name)[k] < 0x7FFF_FFFF
  {
    hide Contender;
    forall name, k: nat | k < |blocks(name)|
      ensures BlockGap(blocks, packets, name, k) < INT_MAX <==>
              -0x7FFF_FFFF < packets - blocks(name)[k] < 0x7FFF_FFFF
    {
    }
  }

  /**
   * A contender with a block whose gap no block of any contender undercuts, and no block of a contender with a higher
   * score even equals.
   */
  ghost predicate Closest(bucket: map<string, real>, margin: real, blocks: string -> seq<int>, packets: int,
                          name: string) {
    Contender(bucket, margin, name) &&
    exists k: nat :: k < |blocks(name)| &&
      NoneCloser(bucket, margin, blocks, packets, BlockGap(blocks, packets, name, k)) &&
      HigherAreFarther(bucket, margin, blocks, packets, name, BlockGap(blocks, packets, name, k))
  }

  ghost predicate HigherAreFarther(bucket: map<string, real>, margin: real, blocks: string -> seq<int>, packets: int,
                                   name: string, gap: nat)
    requires name in bucket
  {
    forall other, k: nat :: Contender(bucket, margin, other) && bucket[other] > bucket[name] && k < |blocks(other)| ==>
                              gap < BlockGap(blocks, packets, other, k)
  }

  ghost predicate NoneCloser(bucket: map<string, real>, margin: real, blocks: string -> seq<int>, packets: int,
                             gap: nat) {
    forall name, k: nat :: Contender(bucket, margin, name) && k < |blocks(name)| ==>
                             gap <= BlockGap(blocks, packets, name, k)
  }

  /** The ranking holds every reliable label once, by ascending score. */
  ghost predicate Ranking(bucket: map<string, real>, ranked: seq<Scored>) {
    Ascending(ranked) && (forall e :: e in ranked ==> Reliable(bucket, e.name) && bucket[e.name] == e.score) &&
    (forall name :: Reliable(bucket, name) ==> Scored(bucket[name], name) in ranked)
  }

  ghost predicate Ascending(ranked: seq<Scored>) {
    forall i, j :: 0 <= i < j < |ranked| ==> ranked[i].score <= ranked[j].score && ranked[i].name != ranked[j].name
  }

  class BurstGroupPolicy {
    const testGroup: seq<Ref>
    var votes: nat
    var predictBucket: map<string, real>
    var rankedGroup: seq<Scored>
    var prediction: string

    constructor (testGroup: seq<Ref>)
      ensures this.testGroup == testGroup && votes == 0 && predictBucket == map[]
      ensures rankedGroup == [] && prediction == ""
    {
      this.testGroup := testGroup;
      votes, predictBucket, rankedGroup, prediction := 0, map[], [], "";
    }

    /** Records the prediction of the next test burst: every predicted name gains the same share. */
    method AddBurstPrediction(sqrt: real -> real, log: real -> real, near: Nearest)
      returns (ghost order: seq<string>, ghost share: real)
      requires votes < |testGroup| && SqrtPositive(sqrt, near.dist)
      modifies this`votes, this`predictBucket
      ensures votes == old(votes) + 1
      ensures WalkOrder(order, VotedNames(near))
      ensures predictBucket == PlusAll(old(predictBucket), order, ShareOf(sqrt, log, testGroup[old(votes)].burst, near))
      ensures forall name: string ::
                if near.dist <= 0.5 && exists b :: b in near.bursts && b.burst.instanceLabel == name
                then name in predictBucket &&
                     predictBucket[name] ==
                       (if name in old(predictBucket) then old(predictBucket)[name] else 0.0) + share
                else (name in predictBucket <==> name in old(predictBucket)) &&
                     (name in predictBucket ==> predictBucket[name] == old(predictBucket)[name])
      ensures near.dist <= 0.5 && near.bursts != [] ==>
                var labels := set b | b in near.bursts :: b.burst.instanceLabel;
                |labels| > 0 &&
                share * (|labels| as real * (sqrt(near.dist) + 1.0)) ==
                  log((testGroup[old(votes)].burst.uniPktNum + 1) as real)
    {
      hide Plus, ShareSize, PlusAll, ShareOf, VotedNames, WalkOrder;
      share := ShareOf(sqrt, log, testGroup[votes].burst, near);
      order := AddShares(sqrt, log, near);
      VotedOrder(near, order);
      SharedOut(old(predictBucket), predictBucket, order, near, share);
      if near.dist <= 0.5 && near.bursts != [] {
        ShareMeaning(sqrt, log, testGroup[old(votes)].burst, near);
      }
    }

    /** The loop over the labels, walked in an arbitrary order. */
    method AddShares(sqrt: real -> real, log: real -> real, near: Nearest) returns (ghost order: seq<string>)
      requires votes < |testGroup| && SqrtPositive(sqrt, near.dist)
      modifies this`votes, this`predictBucket
      ensures votes == old(votes) + 1
      ensures WalkOrder(order, VotedNames(near))
      ensures predictBucket == PlusAll(old(predictBucket), order, ShareOf(sqrt, log, testGroup[old(votes)].burst, near))
    {
      hide Plus, ShareSize;
      var uniPktNum: int := testGroup[votes].burst.uniPktNum;
      votes := votes + 1;
      order := [];
      var predictNames := NamesOf(near.bursts);
      if near.dist > 0.5 || predictNames == {} {
        return;
      }
      var share := ShareSize(log((uniPktNum + 1) as real), |predictNames|, sqrt(near.dist) + 1.0);
      var remaining := predictNames;
      while remaining != {}
        invariant remaining <= predictNames && WalkOrder(order, predictNames - remaining)
        invariant votes == old(votes) + 1
        invariant predictBucket == PlusAll(old(predictBucket), order, share)
        decreases remaining
      {
        var item :| item in remaining;
        predictBucket := Plus(predictBucket, item, share);
        WalkOrderSnoc(order, predictNames - remaining, item);
        PlusAllSnoc(old(predictBucket), order, item, share);
        assert predictNames - remaining + {item} == predictNames - (remaining - {item});
        order := order + [item];
        remaining := remaining - {item};
      }
    }

    /**
     * Picks a label. One contender alone wins; among several, one with the training block closest in packet count to
     * the merged test group wins. Without any usable block of a contender the field keeps its old value.
     */
    method GenPrediction(blocks: string -> seq<int>, minOutperform: real) returns (picked: string)
      requires rankedGroup == [] && minOutperform >= 0.0
      requires exists name :: Reliable(predictBucket, name)
      modifies this`rankedGroup, this`prediction
      ensures picked == prediction
      ensures !Tied(predictBucket, minOutperform) ==> Contender(predictBucket, minOutperform, picked)
      ensures Tied(predictBucket, minOutperform) ==>
                if Usable(predictBucket, minOutperform, blocks, GroupPackets())
                then Closest(predictBucket, minOutperform, blocks, GroupPackets(), picked)
                else picked == old(prediction)
    {
      hide Contender, Tied, Usable, Closest, BestAmong, InReach, Ascending, Reliable, Ranking;
      Rank();
      SomeoneRanked(predictBucket, rankedGroup);
      TiedIff(predictBucket, minOutperform, rankedGroup);
      var last := |rankedGroup| - 1;
      if last >= 1 && rankedGroup[last].score - rankedGroup[last - 1].score <= minOutperform {
        var maxScore := rankedGroup[last].score - minOutperform;
        PickClosest(blocks, maxScore);
        ghost var lo, gap :| InReach(rankedGroup, maxScore, lo) &&
                             BestAmong(rankedGroup, lo, blocks, GroupPackets(), old(prediction), prediction, gap);
        WalkFindsClosest(predictBucket, minOutperform, rankedGroup, lo, blocks, GroupPackets(), old(prediction),
                         prediction, gap);
        return prediction;
      }
      prediction := rankedGroup[last].name;
      return prediction;
    }

    function GroupPackets(): int
      reads this
    {
      SumPkts(BurstsOf(testGroup))
    }

    /** Enters every reliable label into the multimap, in the order the bucket is walked. */
    method Rank()
      requires rankedGroup == []
      modifies this`rankedGroup
      ensures Ranking(predictBucket, rankedGroup)
      ensures forall e: Scored :: e in rankedGroup <==>
                e.name in predictBucket && e.name != "unreliable" && predictBucket[e.name] == e.score
      ensures forall i, j :: 0 <= i < j < |rankedGroup| ==> rankedGroup[i].score <= rankedGroup[j].score
    {
      hide Ascending;
      var remaining := predictBucket.Keys;
      NothingRanked();
      while remaining != {}
        invariant remaining <= predictBucket.Keys
        invariant Ascending(rankedGroup) && Ranks(predictBucket, predictBucket.Keys - remaining, rankedGroup)
        decreases remaining
      {
        var name :| name in remaining;
        if name != UNRELIABLE {
          var k := RankOf(rankedGroup, predictBucket[name]);
          Inserted(predictBucket, predictBucket.Keys - remaining, rankedGroup, name, k);
          rankedGroup := rankedGroup[..k] + [Scored(predictBucket[name], name)] + rankedGroup[k..];
        }
        assert predictBucket.Keys - remaining + {name} == predictBucket.Keys - (remaining - {name});
        remaining := remaining - {name};
      }
      ScoresAscend(rankedGroup);
    }

    /** Walks the ranking from the top while labels are in reach, keeping the closest block's device. */
    method PickClosest(blocks: string -> seq<int>, maxScore: real)
      requires Ascending(rankedGroup)
      modifies this`prediction
      ensures exists lo, gap :: InReach(rankedGroup, maxScore, lo) &&
                                BestAmong(rankedGroup, lo, blocks, GroupPackets(), old(prediction), prediction, gap)
    {
      hide SumPkts, MergedValue, BestAmong, Ascending;
      NothingSeen(rankedGroup, blocks, GroupPackets(), prediction);
      var minDistance: nat := INT_MAX;
      var merged := MergedValue(BurstsOf(testGroup));
      MergedPackets(testGroup);
      var i := |rankedGroup|;
      while i > 0 && rankedGroup[i - 1].score >= maxScore
        invariant 0 <= i <= |rankedGroup|
        invariant forall m :: i <= m < |rankedGroup| ==> rankedGroup[m].score >= maxScore
        invariant BestAmong(rankedGroup, i, blocks, GroupPackets(), old(prediction), prediction, minDistance)
      {
        i := i - 1;
        var devName := rankedGroup[i].name;
        ghost var before, gap := prediction, minDistance;
        prediction, minDistance := PickBlock(blocks(devName), merged.pktNum, devName, prediction, minDistance);
        OneMoreLabel(rankedGroup, i, blocks, GroupPackets(), old(prediction), before, gap, prediction, minDistance);
      }
      ReachIs(rankedGroup, maxScore, i);
    }
  }

  /** The inner loop over one device's training blocks. */
  method PickBlock(blocks: seq<int>, packets: int, devName: string, before: string, start: nat)
    returns (picked: string, minDistance: nat)
    ensures minDistance <= start && forall k :: 0 <= k < |blocks| ==> minDistance <= Abs(packets - blocks[k])
    ensures (picked == before && minDistance == start) ||
            (picked == devName && minDistance < start &&
             exists k :: 0 <= k < |blocks| && Abs(packets - blocks[k]) == minDistance)
  {
    picked, minDistance := before, start;
    for k := 0 to |blocks|
      invariant minDistance <= start && forall j :: 0 <= j < k ==> minDistance <= Abs(packets - blocks[j])
      invariant (picked == before && minDistance == start) ||
                (picked == devName && minDistance < start &&
                 exists j :: 0 <= j < k && Abs(packets - blocks[j]) == minDistance)
    {
      var distance := Abs(packets - blocks[k]);
      if distance < minDistance {
        picked, minDistance := devName, distance;
      }
    }
  }

  method RankOf(ranked: seq<Scored>, score: real) returns (k: nat)
    requires Ascending(ranked)
    ensures k <= |ranked| && IsRank(ranked, score, k)
  {
    k := |ranked|;
    while k > 0 && ranked[k - 1].score > score
      invariant 0 <= k <= |ranked| && forall i :: k <= i < |ranked| ==> ranked[i].score > score
    {
      k := k - 1;
    }
  }

  ghost predicate IsRank(ranked: seq<Scored>, score: real, k: nat)
    requires k <= |ranked|
  {
    (forall i :: 0 <= i < k ==> ranked[i].score <= score) && (forall i :: k <= i < |ranked| ==> ranked[i].score > score)
  }

  function BurstsOf(group: seq<Ref>): (r: seq<BurstValue>)
    ensures |r| == |group|
  {
    MapSeq((b: Ref) => b.burst, group)
  }

  lemma MergedPackets(group: seq<Ref>)
    ensures MergedValue(BurstsOf(group)).pktNum == SumPkts(BurstsOf(group))
  {
    MergedConserves(BurstsOf(group), 0);
  }

  /** The ranking of the labels walked so far. */
  ghost predicate Ranks(bucket: map<string, real>, done: set<string>, ranked: seq<Scored>) {
    (forall e :: e in ranked ==> e.name in done && Reliable(bucket, e.name) && bucket[e.name] == e.score) &&
    (forall name :: name in done && Reliable(bucket, name) ==> Scored(bucket[name], name) in ranked)
  }

  lemma SomeoneRanked(bucket: map<string, real>, ranked: seq<Scored>)
    requires Ranking(bucket, ranked) && exists name :: Reliable(bucket, name)
    ensures ranked != [] && Ascending(ranked)
  {
    var name :| Reliable(bucket, name);
    assert Scored(bucket[name], name) in ranked;
  }

  lemma ScoresAscend(ranked: seq<Scored>)
    requires Ascending(ranked)
    ensures forall i, j :: 0 <= i < j < |ranked| ==> ranked[i].score <= ranked[j].score
  {
  }

  lemma NothingRanked()
    ensures Ascending([])
  {
  }

  lemma Inserted(bucket: map<string, real>, done: set<string>, ranked: seq<Scored>, name: string, k: nat)
    requires k <= |ranked| && Ranks(bucket, done, ranked) && Ascending(ranked)
    requires name !in done && Reliable(bucket, name) && IsRank(ranked, bucket[name], k)
    ensures var r := ranked[..k] + [Scored(bucket[name], name)] + ranked[k..];
            Ascending(r) && Ranks(bucket, done + {name}, r)
  {
    var e := Scored(bucket[name], name);
    var r := ranked[..k] + [e] + ranked[k..];
    assert ranked == ranked[..k] + ranked[k..];
    assert forall x :: x in r <==> x in ranked || x == e;
    forall i | 0 <= i < |ranked| ensures ranked[i].name != name {
      assert ranked[i] in ranked;
    }
    InsertedInOrder(ranked, e, k);
  }

  lemma InsertedInOrder(ranked: seq<Scored>, e: Scored, k: nat)
    requires k <= |ranked| && Ascending(ranked) && IsRank(ranked, e.score, k)
    requires forall i :: 0 <= i < |ranked| ==> ranked[i].name != e.name
    ensures Ascending(ranked[..k] + [e] + ranked[k..])
  {
    var r := ranked[..k] + [e] + ranked[k..];
    forall i, j | 0 <= i < j < |r| ensures r[i].score <= r[j].score && r[i].name != r[j].name {
      assert r[i] == if i < k then ranked[i] else if i == k then e else ranked[i - 1];
      assert r[j] == if j < k then ranked[j] else if j == k then e else ranked[j - 1];
    }
  }

  /** The labels from position lo on are exactly those in reach of the top score. */
  ghost predicate InReach(ranked: seq<Scored>, maxScore: real, lo: nat) {
    lo <= |ranked| && forall m :: 0 <= m < |ranked| ==> (ranked[m].score >= maxScore <==> lo <= m)
  }

  /** gap is the least gap of any block of the labels from lo on, or INT_MAX when none is smaller; picked attains it. */
  ghost predicate BestAmong(ranked: seq<Scored>, lo: nat, blocks: string -> seq<int>, packets: int,
                            before: string, picked: string, gap: nat)
  {
    (forall m: nat, k: nat :: lo <= m < |ranked| && k < |blocks(ranked[m].name)| ==>
                                gap <= BlockGap(blocks, packets, ranked[m].name, k)) &&
    gap <= INT_MAX &&
    if gap == INT_MAX then picked == before else Attained(ranked, lo, blocks, packets, picked, gap)
  }

  ghost predicate Attained(ranked: seq<Scored>, lo: nat, blocks: string -> seq<int>, packets: int, picked: string,
                           gap: nat) {
    exists m: nat, k: nat :: lo <= m < |ranked| && picked == ranked[m].name && k < |blocks(picked)| &&
                             BlockGap(blocks, packets, picked, k) == gap &&
                             AboveAreFarther(ranked, m, blocks, packets, gap)
  }

  /** The labels met before position m, which are those above it, have no block as close. */
  ghost predicate AboveAreFarther(ranked: seq<Scored>, m: nat, blocks: string -> seq<int>, packets: int, gap: nat) {
    forall j: nat, k: nat :: m < j < |ranked| && k < |blocks(ranked[j].name)| ==>
                               gap < BlockGap(blocks, packets, ranked[j].name, k)
  }

  lemma NothingSeen(ranked: seq<Scored>, blocks: string -> seq<int>, packets: int, before: string)
    ensures BestAmong(ranked, |ranked|, blocks, packets, before, before, INT_MAX)
  {
  }

  lemma ReachIs(ranked: seq<Scored>, maxScore: real, lo: nat)
    requires Ascending(ranked) && lo <= |ranked| && (lo > 0 ==> ranked[lo - 1].score < maxScore)
    requires forall m :: lo <= m < |ranked| ==> ranked[m].score >= maxScore
    ensures InReach(ranked, maxScore, lo)
  {
  }

  lemma OneMoreLabel(ranked: seq<Scored>, i: nat, blocks: string -> seq<int>, packets: int, start: string,
                     before: string, gap: nat, picked: string, gap': nat)
    requires i < |ranked| && BestAmong(ranked, i + 1, blocks, packets, start, before, gap)
    requires gap' <= gap &&
             forall k :: 0 <= k < |blocks(ranked[i].name)| ==> gap' <= Abs(packets - blocks(ranked[i].name)[k])
    requires (picked == before && gap' == gap) ||
             (picked == ranked[i].name && gap' < gap &&
              exists k :: 0 <= k < |blocks(ranked[i].name)| && Abs(packets - blocks(ranked[i].name)[k]) == gap')
    ensures BestAmong(ranked, i, blocks, packets, start, picked, gap')
  {
    if gap' < gap {
      var k :| 0 <= k < |blocks(ranked[i].name)| && Abs(packets - blocks(ranked[i].name)[k]) == gap';
      assert BlockGap(blocks, packets, picked, k) == gap';
      assert AboveAreFarther(ranked, i, blocks, packets, gap');
    } else if gap < INT_MAX {
      assert Attained(ranked, i + 1, blocks, packets, picked, gap);
    }
  }

  lemma ContenderIff(bucket: map<string, real>, margin: real, ranked: seq<Scored>, m: nat)
    requires Ranking(bucket, ranked) && m < |ranked|
    ensures Contender(bucket, margin, ranked[m].name) <==> ranked[m].score >= ranked[|ranked| - 1].score - margin
  {
    var top := ranked[|ranked| - 1];
    assert ranked[m] in ranked && top in ranked;
    if ranked[m].score >= top.score - margin {
      forall other | Reliable(bucket, other) ensures bucket[ranked[m].name] >= bucket[other] - margin {
        var j :| 0 <= j < |ranked| && ranked[j] == Scored(bucket[other], other);
      }
    }
  }

  lemma ContenderPlace(bucket: map<string, real>, margin: real, ranked: seq<Scored>, name: string) returns (m: nat)
    requires Ranking(bucket, ranked) && ranked != [] && Contender(bucket, margin, name)
    ensures m < |ranked| && ranked[m].name == name && ranked[m].score >= ranked[|ranked| - 1].score - margin
  {
    m :| 0 <= m < |ranked| && ranked[m] == Scored(bucket[name], name);
    ContenderIff(bucket, margin, ranked, m);
  }

  lemma TopIsContender(bucket: map<string, real>, margin: real, ranked: seq<Scored>)
    requires Ranking(bucket, ranked) && margin >= 0.0 && ranked != []
    ensures Contender(bucket, margin, ranked[|ranked| - 1].name)
  {
    hide Ranking, Contender;
    ContenderIff(bucket, margin, ranked, |ranked| - 1);
  }

  lemma TiedThenClose(bucket: map<string, real>, margin: real, ranked: seq<Scored>)
    requires Ranking(bucket, ranked) && ranked != [] && Tied(bucket, margin)
    ensures |ranked| >= 2 && ranked[|ranked| - 1].score - ranked[|ranked| - 2].score <= margin
  {
    hide Contender;
    var a, b :| a != b && Contender(bucket, margin, a) && Contender(bucket, margin, b);
    var i := ContenderPlace(bucket, margin, ranked, a);
    var j := ContenderPlace(bucket, margin, ranked, b);
  }

  lemma CloseThenTied(bucket: map<string, real>, margin: real, ranked: seq<Scored>)
    requires Ranking(bucket, ranked) && margin >= 0.0
    requires |ranked| >= 2 && ranked[|ranked| - 1].score - ranked[|ranked| - 2].score <= margin
    ensures Tied(bucket, margin)
  {
    hide Contender;
    ContenderIff(bucket, margin, ranked, |ranked| - 1);
    ContenderIff(bucket, margin, ranked, |ranked| - 2);
  }

  /** Several contenders exactly when the runner-up is within the margin of the top. */
  lemma TiedIff(bucket: map<string, real>, margin: real, ranked: seq<Scored>)
    requires Ranking(bucket, ranked) && margin >= 0.0 && ranked != []
    ensures Tied(bucket, margin) <==> |ranked| >= 2 && ranked[|ranked| - 1].score - ranked[|ranked| - 2].score <= margin
    ensures Contender(bucket, margin, ranked[|ranked| - 1].name)
  {
    hide Ranking, Contender, Tied;
    TopIsContender(bucket, margin, ranked);
    if Tied(bucket, margin) {
      TiedThenClose(bucket, margin, ranked);
    } else if |ranked| >= 2 && ranked[|ranked| - 1].score - ranked[|ranked| - 2].score <= margin {
      CloseThenTied(bucket, margin, ranked);
    }
  }

  /** A contender in the scores of the bucket; a label ahead of all others by more than the margin is the only one. */
  lemma LabelsInReach(bucket: map<string, real>, margin: real)
    requires margin >= 0.0
    ensures forall name: string :: Contender(bucket, margin, name) <==>
              name in bucket && name != "unreliable" &&
              forall other :: other in bucket && other != "unreliable" ==> bucket[name] >= bucket[other] - margin
    ensures forall top: string ::
              top in bucket && top != "unreliable" &&
              (forall other :: other in bucket && other != "unreliable" && other != top ==>
                                 bucket[other] < bucket[top] - margin) ==>
                !Tied(bucket, margin) && forall name :: Contender(bucket, margin, name) ==> name == top
  {
    forall name: string | Contender(bucket, margin, name)
      ensures name in bucket && name != "unreliable"
      ensures forall other :: other in bucket && other != "unreliable" ==> bucket[name] >= bucket[other] - margin
    {
      forall other | other in bucket && other != "unreliable" ensures bucket[name] >= bucket[other] - margin {
        assert Reliable(bucket, other);
      }
    }
    forall top: string |
      top in bucket && top != "unreliable" &&
      (forall other :: other in bucket && other != "unreliable" && other != top ==>
                         bucket[other] < bucket[top] - margin)
      ensures !Tied(bucket, margin) && forall name :: Contender(bucket, margin, name) ==> name == top
    {
      assert Reliable(bucket, top);
    }
  }

  /** What the walk over the ranking found is the closest block among all contenders' blocks. */
  lemma WalkFindsClosest(bucket: map<string, real>, margin: real, ranked: seq<Scored>, lo: nat,
                         blocks: string -> seq<int>,
                         packets: int, before: string, picked: string, gap: nat)
    requires Ranking(bucket, ranked) && ranked != [] && InReach(ranked, ranked[|ranked| - 1].score - margin, lo)
    requires BestAmong(ranked, lo, blocks, packets, before, picked, gap)
    ensures if Usable(bucket, margin, blocks, packets)
            then Closest(bucket, margin, blocks, packets, picked) else picked == before
  {
    forall name | Contender(bucket, margin, name)
      ensures exists m: nat :: lo <= m < |ranked| && ranked[m].name == name
    {
      var m :| 0 <= m < |ranked| && ranked[m] == Scored(bucket[name], name);
      ContenderIff(bucket, margin, ranked, m);
    }
    assert NoneCloser(bucket, margin, blocks, packets, gap);
    if gap < INT_MAX {
      var m: nat, k: nat :| lo <= m < |ranked| && picked == ranked[m].name && k < |blocks(picked)| &&
                            BlockGap(blocks, packets, picked, k) == gap &&
                            AboveAreFarther(ranked, m, blocks, packets, gap);
      ContenderIff(bucket, margin, ranked, m);
      HigherIsAbove(bucket, margin, ranked, m, blocks, packets, gap);
    }
  }

  lemma HigherIsAbove(bucket: map<string, real>, margin: real, ranked: seq<Scored>, m: nat, blocks: string -> seq<int>,
                      packets: int, gap: nat)
    requires Ranking(bucket, ranked) && m < |ranked| && ranked[m].name in bucket
    requires AboveAreFarther(ranked, m, blocks, packets, gap)
    ensures HigherAreFarther(bucket, margin, blocks, packets, ranked[m].name, gap)
  {
    assert ranked[m] in ranked;
    forall other, k: nat |
      Contender(bucket, margin, other) && bucket[other] > bucket[ranked[m].name] && k < |blocks(other)|
      ensures gap < BlockGap(blocks, packets, other, k)
    {
      var j :| 0 <= j < |ranked| && ranked[j] == Scored(bucket[other], other);
      assert j > m;
    }
  }

  // ---------- a whole group ----------

  /** The sum of the weights of all bursts of a group, each predicted by an uncached scan. */
  ghost function GroupMass(sqrt: real -> real, log: real -> real, p: IndexParam, trained: seq<Ref>,
                           group: seq<Ref>): real
    requires SqrtLaw(sqrt)
  {
    if group == [] then 0.0
    else
      var n := |group| - 1;
      ScanNonNegative(sqrt, p, trained, group[n]);
      GroupMass(sqrt, log, p, trained, group[..n]) + Mass(sqrt, log, group[n].burst, ScanOf(sqrt, p, trained, group[n]))
  }

  /** What one burst prediction gives a label: an equal share of the weight, if it is among the nearest within 0.5. */
  ghost function Gain(sqrt: real -> real, log: real -> real, t: BurstValue, near: Nearest, name: string): real
    requires SqrtPositive(sqrt, near.dist)
  {
    if near.dist <= 0.5 && exists b :: b in near.bursts && b.burst.instanceLabel == name then
      var labels := set b | b in near.bursts :: b.burst.instanceLabel;
      LabelListed(near, name);
      log((t.uniPktNum + 1) as real) / (|labels| as real * (sqrt(near.dist) + 1.0))
    else 0.0
  }

  lemma LabelListed(near: Nearest, name: string)
    requires exists b :: b in near.bursts && b.burst.instanceLabel == name
    ensures var labels := set b | b in near.bursts :: b.burst.instanceLabel; |labels| > 0
  {
    var labels := set b | b in near.bursts :: b.burst.instanceLabel;
    assert name in labels;
  }

  /** The score of a label after a whole group, each burst predicted by an uncached scan. */
  ghost function LabelScore(sqrt: real -> real, log: real -> real, p: IndexParam, trained: seq<Ref>,
                            group: seq<Ref>, name: string): real
    requires SqrtLaw(sqrt)
  {
    if group == [] then 0.0
    else
      var n := |group| - 1;
      ScanNonNegative(sqrt, p, trained, group[n]);
      LabelScore(sqrt, log, p, trained, group[..n], name) +
      Gain(sqrt, log, group[n].burst, ScanOf(sqrt, p, trained, group[n]), name)
  }

  lemma LabelScoreSnoc(sqrt: real -> real, log: real -> real, p: IndexParam, trained: seq<Ref>, group: seq<Ref>, i: nat,
                       name: string)
    requires SqrtLaw(sqrt) && i < |group|
    ensures ScanOf(sqrt, p, trained, group[i]).dist >= 0.0
    ensures LabelScore(sqrt, log, p, trained, group[..i + 1], name)
            == LabelScore(sqrt, log, p, trained, group[..i], name) +
               Gain(sqrt, log, group[i].burst, ScanOf(sqrt, p, trained, group[i]), name)
  {
    hide Gain, ScanOf;
    ScanNonNegative(sqrt, p, trained, group[i]);
    assert group[..i + 1][..i] == group[..i];
  }

  lemma GainIsShare(sqrt: real -> real, log: real -> real, t: BurstValue, near: Nearest, name: string, share: real)
    requires SqrtPositive(sqrt, near.dist)
    requires near.dist <= 0.5 && exists b :: b in near.bursts && b.burst.instanceLabel == name
    requires var labels := set b | b in near.bursts :: b.burst.instanceLabel;
             |labels| > 0 && share * (|labels| as real * (sqrt(near.dist) + 1.0)) == log((t.uniPktNum + 1) as real)
    ensures Gain(sqrt, log, t, near, name) == share
  {
    var labels := set b | b in near.bursts :: b.burst.instanceLabel;
    var n, s := |labels| as real, sqrt(near.dist) + 1.0;
    PositiveProduct(n, s, 0.0);
    QuotientIs(share, n * s, log((t.uniPktNum + 1) as real));
  }

  lemma QuotientIs(q: real, d: real, w: real)
    requires d > 0.0 && q * d == w
    ensures w / d == q
  {
  }

  /** One more burst predicted: every label's score grows by what the prediction gives it. */
  lemma ScoresGrow(sqrt: real -> real, log: real -> real, p: IndexParam, trained: seq<Ref>, group: seq<Ref>, i: nat,
                   before: map<string, real>, after: map<string, real>, near: Nearest, share: real)
    requires SqrtLaw(sqrt) && i < |group| && near == ScanOf(sqrt, p, trained, group[i]) && near.dist >= 0.0
    requires forall name: string ::
               ScoreIn(before, name) == LabelScore(sqrt, log, p, trained, group[..i], name)
    requires forall name: string ::
               if near.dist <= 0.5 && exists b :: b in near.bursts && b.burst.instanceLabel == name
               then name in after && after[name] == (if name in before then before[name] else 0.0) + share
               else (name in after <==> name in before) && (name in after ==> after[name] == before[name])
    requires near.dist <= 0.5 && near.bursts != [] ==>
               var labels := set b | b in near.bursts :: b.burst.instanceLabel;
               |labels| > 0 &&
               share * (|labels| as real * (sqrt(near.dist) + 1.0)) == log((group[i].burst.uniPktNum + 1) as real)
    ensures forall name: string ::
              ScoreIn(after, name) == LabelScore(sqrt, log, p, trained, group[..i + 1], name)
  {
    hide ScanOf, LabelScore, Gain;
    forall name: string ensures ScoreIn(after, name) == LabelScore(sqrt, log, p, trained, group[..i + 1], name) {
      LabelScoreSnoc(sqrt, log, p, trained, group, i, name);
      if near.dist <= 0.5 && exists b :: b in near.bursts && b.burst.instanceLabel == name {
        GainIsShare(sqrt, log, group[i].burst, near, name, share);
      } else {
        NoGain(sqrt, log, group[i].burst, near, name);
      }
    }
  }

  lemma NoGain(sqrt: real -> real, log: real -> real, t: BurstValue, near: Nearest, name: string)
    requires SqrtPositive(sqrt, near.dist)
    requires !(near.dist <= 0.5 && exists b :: b in near.bursts && b.burst.instanceLabel == name)
    ensures Gain(sqrt, log, t, near, name) == 0.0
  {
  }

  lemma NoLabelScores(sqrt: real -> real, log: real -> real, p: IndexParam, trained: seq<Ref>)
    requires SqrtLaw(sqrt)
    ensures forall name: string :: ScoreIn(map[], name) == LabelScore(sqrt, log, p, trained, [], name)
  {
  }

  function ScoreIn(bucket: map<string, real>, name: string): real {
    if name in bucket then bucket[name] else 0.0
  }

  lemma GroupMassSnoc(sqrt: real -> real, log: real -> real, p: IndexParam, trained: seq<Ref>, group: seq<Ref>, i: nat)
    requires SqrtLaw(sqrt) && i < |group|
    ensures ScanOf(sqrt, p, trained, group[i]).dist >= 0.0
    ensures GroupMass(sqrt, log, p, trained, group[..i + 1])
            == GroupMass(sqrt, log, p, trained, group[..i]) +
               Mass(sqrt, log, group[i].burst, ScanOf(sqrt, p, trained, group[i]))
  {
    ScanNonNegative(sqrt, p, trained, group[i]);
    assert group[..i + 1][..i] == group[..i];
  }

  /**
   * Predicts every burst of a group, from the cache where possible. The total score handed out is the sum of
   * log(uni + 1) / (1 + sqrt(d)) over the bursts found within 0.5, cached or not, however many names tie.
   */
  method PredictBurstGroup(sqrt: real -> real, log: real -> real, cache: PredictionCache, classifier: Classifier,
                           burstGroup: seq<Ref>)
    returns (policy: BurstGroupPolicy)
    requires SqrtLaw(sqrt) && classifier.Valid() && CacheOk(sqrt, classifier.p, classifier.trained, cache.cache)
    modifies cache
    ensures fresh(policy) && policy.testGroup == burstGroup && policy.votes == |burstGroup|
    ensures policy.rankedGroup == [] && policy.prediction == ""
    ensures CacheOk(sqrt, classifier.p, classifier.trained, cache.cache)
    ensures RealSum(policy.predictBucket) == GroupMass(sqrt, log, classifier.p, classifier.trained, burstGroup)
    ensures forall name: string ::
              ScoreIn(policy.predictBucket, name) ==
              LabelScore(sqrt, log, classifier.p, classifier.trained, burstGroup, name)
  {
    hide ScanOf, Mass, PlusAll, ShareOf, CacheOk, RealSum, ScoreIn, LabelScore;
    NoScores();
    NoLabelScores(sqrt, log, classifier.p, classifier.trained);
    policy := new BurstGroupPolicy(burstGroup);
    for i := 0 to |burstGroup|
      invariant fresh(policy) && policy.testGroup == burstGroup && policy.votes == i
      invariant policy.rankedGroup == [] && policy.prediction == ""
      invariant classifier.Valid() && CacheOk(sqrt, classifier.p, classifier.trained, cache.cache)
      invariant RealSum(policy.predictBucket) == GroupMass(sqrt, log, classifier.p, classifier.trained, burstGroup[..i])
      invariant forall name: string ::
                  ScoreIn(policy.predictBucket, name) ==
                  LabelScore(sqrt, log, classifier.p, classifier.trained, burstGroup[..i], name)
    {
      var near := cache.PredictBurst(sqrt, classifier, burstGroup[i]);
      GroupMassSnoc(sqrt, log, classifier.p, classifier.trained, burstGroup, i);
      ghost var bucket := policy.predictBucket;
      ghost var order, share := policy.AddBurstPrediction(sqrt, log, near);
      VoteMass(sqrt, log, burstGroup[i].burst, near, bucket, order);
      ScoresGrow(sqrt, log, classifier.p, classifier.trained, burstGroup, i, bucket, policy.predictBucket, near, share);
    }
    WholePrefix(burstGroup);
  }

  lemma NoScores()
    ensures RealSum<string>(map[]) == 0.0
  {
  }
}
