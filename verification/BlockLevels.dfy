/**
 * The training blocks that GenPrediction compares with (include/BurstGroupPolicy.h:35-36): a static map that every
 * training extends and nothing clears, so that a second classifier still sees the blocks of the first.
 */
module BlockLevels {
  import opened Collections
  import opened BurstValues
  import opened Merging
  import opened Voting

  /** The packet counts of the merged blocks of one device, as one classifier is trained with it. */
  datatype Trained = Trained(name: string, blocks: seq<int>)

  function BlockPackets(groups: seq<seq<Ref>>): seq<int> {
    MapSeq((group: seq<Ref>) => SumPkts(BurstsOf(group)), groups)
  }

  /** The blocks of a device after a history of trainings. */
  function BlocksAfter(history: seq<Trained>, name: string): seq<int> {
    if history == [] then []
    else
      var last := history[|history| - 1];
      BlocksAfter(history[..|history| - 1], name) + (if last.name == name then last.blocks else [])
  }

  lemma BlocksSnoc(history: seq<Trained>, t: Trained, name: string)
    ensures BlocksAfter(history + [t], name) == BlocksAfter(history, name) + (if t.name == name then t.blocks else [])
  {
    assert (history + [t])[..|history|] == history;
  }

  lemma NothingTrained(name: string)
    ensures BlocksAfter([], name) == []
  {
  }

  lemma BlocksLast(history: seq<Trained>, name: string)
    requires history != []
    ensures var n := |history| - 1;
            BlocksAfter(history, name) ==
              BlocksAfter(history[..n], name) + (if history[n].name == name then history[n].blocks else [])
  {
  }

  function BlocksIn(history: seq<Trained>): string -> seq<int> {
    (name: string) => BlocksAfter(history, name)
  }

  class BlockLevel {
    var blockLevelDistribution: map<string, seq<BurstValue>>
    /** Every training so far, by whatever classifier. */
    ghost var history: seq<Trained>

    ghost predicate Valid()
      reads this
    {
      forall name: string :: PacketsAt(name) == BlocksAfter(history, name)
    }

    function BurstsAt(name: string): seq<BurstValue>
      reads this
    {
      if name in blockLevelDistribution then blockLevelDistribution[name] else []
    }

    function PacketsAt(name: string): seq<int>
      reads this
    {
      PacketCounts(BurstsAt(name))
    }

    constructor ()
      ensures Valid() && history == []
    {
      blockLevelDistribution, history := map[], [];
    }

    /** Merges every block of a device and appends it to what is there. */
    method TrainOneDevice(deviceId: string, burstGroups: seq<seq<Ref>>)
      requires Valid()
      modifies this
      ensures Valid() && history == old(history) + [Trained(deviceId, BlockPackets(burstGroups))]
    {
      hide MergedValue, SumPkts, PacketCounts, BlocksAfter;
      NoBlocks();
      for i := 0 to |burstGroups|
        invariant history == old(history)
        invariant forall name :: name != deviceId ==> PacketsAt(name) == old(PacketsAt(name))
        invariant PacketsAt(deviceId) == old(PacketsAt(deviceId)) + BlockPackets(burstGroups[..i])
      {
        var merged := MergedValue(BurstsOf(burstGroups[i]));
        MergedPackets(burstGroups[i]);
        OneMoreBlock(burstGroups, i);
        CountsSnoc(BurstsAt(deviceId), merged);
        blockLevelDistribution := blockLevelDistribution[deviceId := BurstsAt(deviceId) + [merged]];
      }
      WholePrefix(burstGroups);
      forall name { BlocksSnoc(history, Trained(deviceId, BlockPackets(burstGroups)), name); }
      history := history + [Trained(deviceId, BlockPackets(burstGroups))];
    }
  }

  function PacketCounts(bursts: seq<BurstValue>): seq<int> {
    MapSeq((b: BurstValue) => b.pktNum, bursts)
  }

  lemma CountsSnoc(bursts: seq<BurstValue>, b: BurstValue)
    ensures PacketCounts(bursts + [b]) == PacketCounts(bursts) + [b.pktNum]
  {
  }

  lemma NoBlocks()
    ensures BlockPackets([]) == []
  {
  }

  lemma OneMoreBlock(groups: seq<seq<Ref>>, i: nat)
    requires i < |groups|
    ensures BlockPackets(groups[..i + 1]) == BlockPackets(groups[..i]) + [SumPkts(BurstsOf(groups[i]))]
  {
    hide SumPkts, BurstsOf;
    assert groups[..i + 1] == groups[..i] + [groups[i]];
  }

  /** What a later classifier's trainings add comes behind what earlier ones left. */
  lemma {:induction false} HistoriesJoin(earlier: seq<Trained>, later: seq<Trained>, name: string)
    ensures BlocksAfter(earlier + later, name) == BlocksAfter(earlier, name) + BlocksAfter(later, name)
  {
    hide BlocksAfter;
    if later == [] {
      assert earlier + later == earlier;
      NothingTrained(name);
    } else {
      var n := |later| - 1;
      HistoriesJoin(earlier, later[..n], name);
      BlocksLast(later, name);
      BlocksLast(earlier + later, name);
      assert (earlier + later)[..|earlier + later| - 1] == earlier + later[..n];
    }
  }

  // ---------- which blocks decide ----------

  /** The contenders, scores and group size of one vote. */
  datatype Vote = Vote(bucket: map<string, real>, margin: real, packets: int)

  function Score(v: Vote, name: string): real {
    if name in v.bucket then v.bucket[name] else 0.0
  }

  ghost predicate Contends(v: Vote, name: string) {
    Contender(v.bucket, v.margin, name)
  }

  /** The label that a run of GenPrediction with several contenders may pick. */
  ghost predicate Picks(v: Vote, blocks: string -> seq<int>, name: string) {
    Closest(v.bucket, v.margin, blocks, v.packets, name)
  }

  /** Contender name has a block at this gap. */
  ghost predicate Reaches(v: Vote, blocks: string -> seq<int>, name: string, gap: nat) {
    Contends(v, name) && exists k: nat :: k < |blocks(name)| && BlockGap(blocks, v.packets, name, k) == gap
  }

  /** The smallest gap of any block of a contender. */
  ghost predicate LeastGap(v: Vote, blocks: string -> seq<int>, gap: nat) {
    (exists name :: Reaches(v, blocks, name, gap)) &&
    forall name, other: nat :: Reaches(v, blocks, name, other) ==> gap <= other
  }

  /** No contender with a higher score has a block at this gap. */
  ghost predicate NoneAbove(v: Vote, blocks: string -> seq<int>, name: string, gap: nat) {
    Contends(v, name) &&
    forall other :: Reaches(v, blocks, other, gap) ==> Score(v, other) <= Score(v, name)
  }

  lemma ReachesOwn(v: Vote, blocks: string -> seq<int>, name: string, k: nat)
    requires Contends(v, name) && k < |blocks(name)|
    ensures Reaches(v, blocks, name, BlockGap(blocks, v.packets, name, k))
  {
  }

  lemma ContendsInBucket(v: Vote, name: string)
    requires Contends(v, name)
    ensures name in v.bucket
  {
  }

  lemma LeastIsNoneCloser(v: Vote, blocks: string -> seq<int>, gap: nat)
    requires LeastGap(v, blocks, gap)
    ensures NoneCloser(v.bucket, v.margin, blocks, v.packets, gap)
  {
    hide BlockGap, Contender, Reaches;
    forall name, k: nat | Contender(v.bucket, v.margin, name) && k < |blocks(name)|
      ensures gap <= BlockGap(blocks, v.packets, name, k)
    {
      ReachesOwn(v, blocks, name, k);
    }
  }

  lemma NoneCloserIsLeast(v: Vote, blocks: string -> seq<int>, gap: nat, g: nat)
    requires LeastGap(v, blocks, gap) && NoneCloser(v.bucket, v.margin, blocks, v.packets, g)
    ensures g <= gap
  {
    hide Contender, BlockGap;
    var name :| Reaches(v, blocks, name, gap);
    var k: nat :| k < |blocks(name)| && BlockGap(blocks, v.packets, name, k) == gap;
  }

  lemma HigherIsNoneAbove(v: Vote, blocks: string -> seq<int>, name: string, gap: nat)
    requires Contends(v, name) && LeastGap(v, blocks, gap)
    ensures HigherAreFarther(v.bucket, v.margin, blocks, v.packets, name, gap) <==> NoneAbove(v, blocks, name, gap)
  {
    LeastIsNoneCloser(v, blocks, gap);
    hide BlockGap, LeastGap;
    ContendsInBucket(v, name);
    if NoneAbove(v, blocks, name, gap) {
      forall other, k: nat | Contender(v.bucket, v.margin, other) && Score(v, other) > Score(v, name) &&
                             k < |blocks(other)|
        ensures gap < BlockGap(blocks, v.packets, other, k)
      {
        ReachesOwn(v, blocks, other, k);
      }
    }
  }

  /** A pick is a contender that reaches the least gap and has no better scored rival there. */
  lemma PicksIff(v: Vote, blocks: string -> seq<int>, name: string, gap: nat)
    requires LeastGap(v, blocks, gap)
    ensures Picks(v, blocks, name) <==> Reaches(v, blocks, name, gap) && NoneAbove(v, blocks, name, gap)
  {
    hide NoneAbove, HigherAreFarther, NoneCloser, Contender, BlockGap;
    LeastIsNoneCloser(v, blocks, gap);
    if Contends(v, name) {
      ContendsInBucket(v, name);
      HigherIsNoneAbove(v, blocks, name, gap);
      if Picks(v, blocks, name) {
        var k: nat :| k < |blocks(name)| &&
                      NoneCloser(v.bucket, v.margin, blocks, v.packets, BlockGap(blocks, v.packets, name, k)) &&
                      HigherAreFarther(v.bucket, v.margin, blocks, v.packets, name,
                                       BlockGap(blocks, v.packets, name, k));
        ReachesOwn(v, blocks, name, k);
        NoneCloserIsLeast(v, blocks, gap, BlockGap(blocks, v.packets, name, k));
      }
    }
  }

  lemma ReachesJoin(v: Vote, earlier: seq<Trained>, later: seq<Trained>, name: string, gap: nat)
    ensures Reaches(v, BlocksIn(earlier + later), name, gap) <==>
            Reaches(v, BlocksIn(earlier), name, gap) || Reaches(v, BlocksIn(later), name, gap)
  {
    hide Contender, BlocksAfter;
    HistoriesJoin(earlier, later, name);
    var a, b := BlocksAfter(earlier, name), BlocksAfter(later, name);
    if Reaches(v, BlocksIn(earlier), name, gap) {
      var k: nat :| k < |a| && Abs(v.packets - a[k]) == gap;
      assert BlockGap(BlocksIn(earlier + later), v.packets, name, k) == gap;
    }
    if Reaches(v, BlocksIn(later), name, gap) {
      var k: nat :| k < |b| && Abs(v.packets - b[k]) == gap;
      assert BlockGap(BlocksIn(earlier + later), v.packets, name, |a| + k) == gap;
    }
    if Reaches(v, BlocksIn(earlier + later), name, gap) {
      var k: nat :| k < |a + b| && Abs(v.packets - (a + b)[k]) == gap;
      if k < |a| {
        assert BlockGap(BlocksIn(earlier), v.packets, name, k) == gap;
      } else {
        assert BlockGap(BlocksIn(later), v.packets, name, k - |a|) == gap;
      }
    }
  }

  function Lesser(a: nat, b: nat): nat {
    if a < b then a else b
  }

  lemma LeastJoin(v: Vote, earlier: seq<Trained>, later: seq<Trained>, g1: nat, g2: nat)
    requires LeastGap(v, BlocksIn(earlier), g1) && LeastGap(v, BlocksIn(later), g2)
    ensures LeastGap(v, BlocksIn(earlier + later), Lesser(g1, g2))
  {
    hide Reaches, BlocksIn;
    forall name, gap: nat { ReachesJoin(v, earlier, later, name, gap); }
    var x :| Reaches(v, BlocksIn(earlier), x, g1);
    var y :| Reaches(v, BlocksIn(later), y, g2);
    assert Reaches(v, BlocksIn(earlier + later), if g1 < g2 then x else y, Lesser(g1, g2));
  }

  /** Whose blocks decide: those of the classifier with the smaller gap; on equal gaps those of the better score. */
  lemma StaleBlocks(v: Vote, earlier: seq<Trained>, later: seq<Trained>, g1: nat, g2: nat, name: string)
    requires LeastGap(v, BlocksIn(earlier), g1) && LeastGap(v, BlocksIn(later), g2)
    ensures g2 < g1 ==> (Picks(v, BlocksIn(earlier + later), name) <==> Picks(v, BlocksIn(later), name))
    ensures g1 < g2 ==> (Picks(v, BlocksIn(earlier + later), name) <==> Picks(v, BlocksIn(earlier), name))
    ensures g1 == g2 ==>
              (Picks(v, BlocksIn(earlier + later), name) <==>
               (Picks(v, BlocksIn(earlier), name) || Picks(v, BlocksIn(later), name)) &&
               NoneAbove(v, BlocksIn(earlier + later), name, g1))
  {
    hide Reaches, BlocksIn, Picks, Contends;
    LeastJoin(v, earlier, later, g1, g2);
    PicksIff(v, BlocksIn(earlier), name, g1);
    PicksIff(v, BlocksIn(later), name, g2);
    PicksIff(v, BlocksIn(earlier + later), name, Lesser(g1, g2));
    forall other, gap: nat { ReachesJoin(v, earlier, later, other, gap); }
  }

  /** Whoever reaches a gap is matched by one that reaches it and has no better scored rival there. */
  lemma {:induction false} BestReacher(v: Vote, blocks: string -> seq<int>, name: string, gap: nat) returns (y: string)
    requires Reaches(v, blocks, name, gap)
    ensures Reaches(v, blocks, y, gap) && NoneAbove(v, blocks, y, gap) && Score(v, y) >= Score(v, name)
    decreases |Above(v, name)|
  {
    hide Contender, BlockGap;
    y := name;
    if !NoneAbove(v, blocks, name, gap) {
      var other :| Reaches(v, blocks, other, gap) && Score(v, other) > Score(v, name);
      FewerAbove(v, name, other);
      y := BestReacher(v, blocks, other, gap);
    }
  }

  ghost function Above(v: Vote, name: string): set<string> {
    set other | other in v.bucket && Score(v, other) > Score(v, name)
  }

  lemma SmallerSet(a: set<string>, b: set<string>)
    requires a < b
    ensures |a| < |b|
  {
    assert b == a + (b - a);
    assert |b - a| > 0;
  }

  lemma FewerAbove(v: Vote, name: string, other: string)
    requires Contends(v, other) && Score(v, other) > Score(v, name)
    ensures |Above(v, other)| < |Above(v, name)|
  {
    ContendsInBucket(v, other);
    assert Above(v, other) <= Above(v, name) && other in Above(v, name) && other !in Above(v, other);
    SmallerSet(Above(v, other), Above(v, name));
  }

  lemma {:induction false} LeastGapExists(v: Vote, blocks: string -> seq<int>, name: string, gap: nat)
    returns (smallest: nat)
    requires Reaches(v, blocks, name, gap)
    ensures LeastGap(v, blocks, smallest)
    decreases gap
  {
    hide Reaches;
    if other, smaller: nat :| Reaches(v, blocks, other, smaller) && smaller < gap {
      smallest := LeastGapExists(v, blocks, other, smaller);
    } else {
      smallest := gap;
    }
  }

  /** On equal gaps: the earlier classifier's picks must be picks of the later one too, or be outscored by one. */
  ghost predicate Outscored(v: Vote, earlier: seq<Trained>, later: seq<Trained>) {
    forall y :: Picks(v, BlocksIn(earlier), y) ==> Picks(v, BlocksIn(later), y) || Beaten(v, later, y)
  }

  ghost predicate Beaten(v: Vote, later: seq<Trained>, y: string) {
    exists z :: Picks(v, BlocksIn(later), z) && Score(v, y) < Score(v, z)
  }

  ghost predicate SamePicks(v: Vote, a: seq<Trained>, b: seq<Trained>) {
    forall name :: Picks(v, BlocksIn(a), name) <==> Picks(v, BlocksIn(b), name)
  }

  /**
   * When a classifier's picks do not depend on the trainings before its own: exactly when its own nearest block is
   * nearer, or when what the earlier blocks pick makes no difference.
   */
  lemma EarlierDoesNotMatterIff(v: Vote, earlier: seq<Trained>, later: seq<Trained>, g1: nat, g2: nat)
    requires LeastGap(v, BlocksIn(earlier), g1) && LeastGap(v, BlocksIn(later), g2)
    ensures SamePicks(v, earlier + later, later) <==>
            g2 < g1 || (g1 < g2 && SamePicks(v, earlier, later)) || (g1 == g2 && Outscored(v, earlier, later))
  {
    hide LeastGap, BlocksIn, Picks, NoneAbove, Outscored;
    forall name { StaleBlocks(v, earlier, later, g1, g2, name); }
    if g1 == g2 {
      if Outscored(v, earlier, later) {
        forall x { OutscoredSame(v, earlier, later, g1, x); }
      } else {
        NotOutscored(v, earlier, later, g1);
      }
    }
  }

  lemma OutscoredAt(v: Vote, earlier: seq<Trained>, later: seq<Trained>, y: string) returns (z: string)
    requires Outscored(v, earlier, later) && Picks(v, BlocksIn(earlier), y)
    ensures Picks(v, BlocksIn(later), z) && Contends(v, y) && Contends(v, z) && Score(v, y) <= Score(v, z)
    ensures z == y || Score(v, y) < Score(v, z)
  {
    hide Contender, BlocksIn, NoneCloser, HigherAreFarther;
    ContendsInBucket(v, y);
    if Picks(v, BlocksIn(later), y) {
      z := y;
    } else {
      z :| Picks(v, BlocksIn(later), z) && Score(v, y) < Score(v, z);
    }
  }

  lemma OutscoredSame(v: Vote, earlier: seq<Trained>, later: seq<Trained>, g: nat, x: string)
    requires LeastGap(v, BlocksIn(earlier), g) && LeastGap(v, BlocksIn(later), g) && Outscored(v, earlier, later)
    ensures Picks(v, BlocksIn(earlier + later), x) <==> Picks(v, BlocksIn(later), x)
  {
    hide LeastGap, BlocksIn, Picks, Reaches, Contends, Outscored;
    StaleBlocks(v, earlier, later, g, g, x);
    forall other { ReachesJoin(v, earlier, later, other, g); }
    forall other { PicksIff(v, BlocksIn(later), other, g); }
    if Picks(v, BlocksIn(earlier + later), x) && !Picks(v, BlocksIn(later), x) {
      var z := OutscoredAt(v, earlier, later, x);
    }
    if Picks(v, BlocksIn(later), x) {
      forall other | Reaches(v, BlocksIn(earlier + later), other, g) ensures Score(v, other) <= Score(v, x) {
        ReacherBelow(v, earlier, later, g, x, other);
      }
    }
  }

  lemma ReacherBelow(v: Vote, earlier: seq<Trained>, later: seq<Trained>, g: nat, x: string, other: string)
    requires LeastGap(v, BlocksIn(earlier), g) && LeastGap(v, BlocksIn(later), g) && Outscored(v, earlier, later)
    requires Picks(v, BlocksIn(later), x) && Reaches(v, BlocksIn(earlier + later), other, g)
    ensures Contends(v, x) && Score(v, other) <= Score(v, x)
  {
    hide LeastGap, BlocksIn, Picks, Contender, BlockGap, Outscored;
    PicksIff(v, BlocksIn(later), x, g);
    ReachesJoin(v, earlier, later, other, g);
    if Reaches(v, BlocksIn(earlier), other, g) {
      var y := BestReacher(v, BlocksIn(earlier), other, g);
      PicksIff(v, BlocksIn(earlier), y, g);
      var z := OutscoredAt(v, earlier, later, y);
      PicksIff(v, BlocksIn(later), z, g);
    }
  }

  lemma NotOutscored(v: Vote, earlier: seq<Trained>, later: seq<Trained>, g: nat)
    requires LeastGap(v, BlocksIn(earlier), g) && LeastGap(v, BlocksIn(later), g) && !Outscored(v, earlier, later)
    ensures !SamePicks(v, earlier + later, later)
  {
    hide LeastGap, BlocksIn, Picks, Reaches, Contends;
    var y :| Picks(v, BlocksIn(earlier), y) && !Picks(v, BlocksIn(later), y) && !Beaten(v, later, y);
    PicksIff(v, BlocksIn(earlier), y, g);
    StaleBlocks(v, earlier, later, g, g, y);
    forall other | Reaches(v, BlocksIn(earlier + later), other, g) ensures Score(v, other) <= Score(v, y) {
      ReachesJoin(v, earlier, later, other, g);
      if Reaches(v, BlocksIn(later), other, g) {
        var z := BestReacher(v, BlocksIn(later), other, g);
        PicksIff(v, BlocksIn(later), z, g);
      }
    }
    assert Picks(v, BlocksIn(earlier + later), y);
  }

  /** A vote in which no contender has an earlier block is decided by the later ones. */
  lemma NothingStale(v: Vote, earlier: seq<Trained>, later: seq<Trained>, g: nat)
    requires LeastGap(v, BlocksIn(later), g)
    requires forall name, gap: nat :: !Reaches(v, BlocksIn(earlier), name, gap)
    ensures SamePicks(v, earlier + later, later)
  {
    hide Reaches, BlocksIn, Picks, Contends;
    forall name, gap: nat { ReachesJoin(v, earlier, later, name, gap); }
    assert LeastGap(v, BlocksIn(earlier + later), g);
    forall name ensures Picks(v, BlocksIn(earlier + later), name) <==> Picks(v, BlocksIn(later), name) {
      PicksIff(v, BlocksIn(later), name, g);
      PicksIff(v, BlocksIn(earlier + later), name, g);
    }
  }

  lemma SameBlocks(v: Vote, f: string -> seq<int>, g: string -> seq<int>, name: string)
    requires forall n :: f(n) == g(n)
    ensures Usable(v.bucket, v.margin, f, v.packets) <==> Usable(v.bucket, v.margin, g, v.packets)
    ensures Picks(v, f, name) <==> Picks(v, g, name)
  {
    hide Contender;
    assert forall n, k: nat :: k < |f(n)| ==> BlockGap(f, v.packets, n, k) == BlockGap(g, v.packets, n, k);
  }

  /** GenPrediction with the static map: the label comes from the blocks of every training there has been. */
  method PickLabel(level: BlockLevel, policy: BurstGroupPolicy, minOutperform: real) returns (picked: string)
    requires level.Valid() && policy.rankedGroup == [] && minOutperform >= 0.0
    requires exists name :: Reliable(policy.predictBucket, name)
    modifies policy
    ensures policy.predictBucket == old(policy.predictBucket)
    ensures var v := Vote(policy.predictBucket, minOutperform, policy.GroupPackets());
            var blocks := BlocksIn(level.history);
            if !Tied(v.bucket, v.margin) then Contends(v, picked)
            else if Usable(v.bucket, v.margin, blocks, v.packets) then Picks(v, blocks, picked)
            else picked == old(policy.prediction)
  {
    hide Tied, Usable, Closest, Contender, BlocksAfter, PacketCounts;
    var distribution := level.blockLevelDistribution;
    var blocks := (name: string) => PacketCounts(if name in distribution then distribution[name] else []);
    assert forall name :: blocks(name) == level.PacketsAt(name);
    picked := policy.GenPrediction(blocks, minOutperform);
    ghost var v := Vote(policy.predictBucket, minOutperform, policy.GroupPackets());
    SameBlocks(v, blocks, BlocksIn(level.history), picked);
  }

  // ---------- a stale block decides ----------

  const FIRST: seq<Trained> := [Trained("b", [10])]
  const SECOND: seq<Trained> := [Trained("a", [12]), Trained("b", [20])]
  const VOTE: Vote := Vote(map["a" := 1.0, "b" := 0.9], 0.2, 10)

  lemma BlocksOfBoth(name: string)
    ensures BlocksAfter(FIRST, name) == if name == "b" then [10] else []
    ensures BlocksAfter(SECOND, name) == if name == "a" then [12] else if name == "b" then [20] else []
  {
    BlocksSnoc([], Trained("b", [10]), name);
    assert [] + [Trained("b", [10])] == FIRST;
    BlocksSnoc([], Trained("a", [12]), name);
    BlocksSnoc([Trained("a", [12])], Trained("b", [20]), name);
    assert [] + [Trained("a", [12])] == [Trained("a", [12])];
    assert [Trained("a", [12])] + [Trained("b", [20])] == SECOND;
  }

  lemma TwoContend(name: string)
    ensures Contends(VOTE, name) <==> name == "a" || name == "b"
  {
    assert Reliable(VOTE.bucket, "a") && Reliable(VOTE.bucket, "b");
  }

  lemma Reached(name: string, gap: nat)
    ensures Reaches(VOTE, BlocksIn(FIRST), name, gap) <==> name == "b" && gap == 0
    ensures Reaches(VOTE, BlocksIn(SECOND), name, gap) <==> (name == "a" && gap == 2) || (name == "b" && gap == 10)
  {
    hide Contends, BlocksAfter;
    TwoContend(name);
    BlocksOfBoth(name);
    if name == "a" {
      assert BlockGap(BlocksIn(SECOND), 10, name, 0) == 2;
    }
    if name == "b" {
      assert BlockGap(BlocksIn(FIRST), 10, name, 0) == 0 && BlockGap(BlocksIn(SECOND), 10, name, 0) == 10;
    }
  }

  /**
   * A group of ten packets, two contenders. The second classifier's nearest block belongs to one; with the block of
   * ten packets that the first one left for the other, the pick is the other.
   */
  lemma StaleBlockDecides(name: string)
    ensures Picks(VOTE, BlocksIn(SECOND), name) <==> name == "a"
    ensures Picks(VOTE, BlocksIn(FIRST + SECOND), name) <==> name == "b"
  {
    hide Contends, BlocksIn, Picks, Reaches;
    forall n, gap: nat { Reached(n, gap); }
    assert Reaches(VOTE, BlocksIn(FIRST), "b", 0) && Reaches(VOTE, BlocksIn(SECOND), "a", 2);
    TwoContend(name);
    PicksIff(VOTE, BlocksIn(FIRST), name, 0);
    PicksIff(VOTE, BlocksIn(SECOND), name, 2);
    StaleBlocks(VOTE, FIRST, SECOND, 0, 2, name);
  }
}
