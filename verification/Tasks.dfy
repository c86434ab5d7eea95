/**
 * How work is cut into tasks and how the wait groups count them: splitVector of include/Utils.h, Predict and
 * PredictGroups of src/KBurstClassifier.cpp, and the per-file counters of src/Reorganizer.cpp.
 */
module Tasks {
  import opened Collections

  // ---------- splitVector ----------

  function Least(a: nat, b: nat): nat {
    if a < b then a else b
  }

  /** vec cut into pieces of chunkSize, the last one possibly shorter. */
  function Chunks<T>(vec: seq<T>, chunkSize: nat): seq<seq<T>>
    requires chunkSize >= 1
  {
    if vec == [] then []
    else
      var k := Least(chunkSize, |vec|);
      [vec[..k]] + Chunks(vec[k..], chunkSize)
  }

  /** n divided by d, rounded up. */
  function CeilDiv(n: nat, d: nat): (q: nat)
    requires d >= 1
    ensures q * d >= n && (q >= 1 ==> (q - 1) * d < n)
  {
    CeilDivBounds(n, d);
    if n % d == 0 then n / d else n / d + 1
  }

  lemma CeilDivBounds(n: nat, d: nat)
    requires d >= 1
    ensures n / d * d + n % d == n && 0 <= n % d < d
    ensures (n / d + 1) * d == n / d * d + d && (n / d >= 1 ==> (n / d - 1) * d == n / d * d - d)
  {
  }

  lemma SameQuotient(a: nat, b: nat, n: nat, d: nat)
    requires d >= 1 && a * d >= n && (a >= 1 ==> (a - 1) * d < n) && b * d >= n && (b >= 1 ==> (b - 1) * d < n)
    ensures a == b
  {
    if a < b {
      MulOrder(a, b - 1, d);
    } else if b < a {
      MulOrder(b, a - 1, d);
    }
  }

  lemma MulOrder(a: nat, b: nat, d: nat)
    requires a <= b
    ensures a * d <= b * d
  {
  }

  lemma CeilDivStep(n: nat, d: nat)
    requires d >= 1 && n >= 1
    ensures CeilDiv(n, d) == 1 + CeilDiv(if n <= d then 0 else n - d, d)
  {
    var m := if n <= d then 0 else n - d;
    var q := CeilDiv(m, d);
    assert (1 + q) * d == d + q * d;
    if q >= 1 {
      assert q * d == (q - 1) * d + d;
    }
    SameQuotient(CeilDiv(n, d), 1 + q, n, d);
  }

  /** The pieces concatenate to the whole, and there are n / chunkSize of them, rounded up. */
  lemma {:induction false} ChunksPartition<T>(vec: seq<T>, chunkSize: nat)
    requires chunkSize >= 1
    ensures Flatten(Chunks(vec, chunkSize)) == vec
    ensures |Chunks(vec, chunkSize)| == CeilDiv(|vec|, chunkSize)
    decreases |vec|
  {
    if vec != [] {
      var k := Least(chunkSize, |vec|);
      ChunksPartition(vec[k..], chunkSize);
      FlattenConcat([vec[..k]], Chunks(vec[k..], chunkSize));
      FlattenSnoc<T>([], vec[..k]);
      assert [] + [vec[..k]] == [vec[..k]];
      CeilDivStep(|vec|, chunkSize);
    }
  }

  /** No piece is empty or too long, and all but the last are full. */
  lemma {:induction false} ChunkSizes<T>(vec: seq<T>, chunkSize: nat, k: nat)
    requires chunkSize >= 1 && k < |Chunks(vec, chunkSize)|
    ensures 1 <= |Chunks(vec, chunkSize)[k]| <= chunkSize
    ensures k < |Chunks(vec, chunkSize)| - 1 ==> |Chunks(vec, chunkSize)[k]| == chunkSize
    decreases |vec|
  {
    var rest := vec[Least(chunkSize, |vec|)..];
    if k > 0 {
      ChunkSizes(rest, chunkSize, k - 1);
    }
  }

  lemma ChunksMove<T>(vec: seq<T>, i: nat, chunkSize: nat)
    requires chunkSize >= 1 && i < |vec|
    ensures var size := Least(i + chunkSize, |vec|);
            Chunks(vec[i..], chunkSize) == [vec[i..size]] + Chunks(vec[size..], chunkSize)
  {
    var size := Least(i + chunkSize, |vec|);
    assert vec[i..][..size - i] == vec[i..size];
    assert vec[i..][size - i..] == vec[size..];
  }

  /** Where the loop of splitVector stands after the given number of rounds. */
  function Position(n: nat, chunkSize: nat, rounds: nat): nat {
    if rounds == 0 then 0
    else
      var i := Position(n, chunkSize, rounds - 1);
      if i < n then i + chunkSize else i
  }

  /** The loop reaches the end of a vector of n elements. */
  ghost predicate CutEnds(n: nat, chunkSize: nat) {
    exists rounds :: Position(n, chunkSize, rounds) >= n
  }

  lemma {:induction false} PositionBounds(n: nat, chunkSize: nat, rounds: nat)
    ensures chunkSize >= 1 ==> Position(n, chunkSize, rounds) >= Least(rounds, n)
    ensures chunkSize == 0 ==> Position(n, chunkSize, rounds) == 0
  {
    if rounds > 0 {
      PositionBounds(n, chunkSize, rounds - 1);
    }
  }

  /** splitVector ends, and within n rounds, if and only if the chunk size is positive or there is nothing to cut. */
  lemma CutEndsIff(n: nat, chunkSize: nat)
    ensures CutEnds(n, chunkSize) <==> chunkSize >= 1 || n == 0
    ensures CutEnds(n, chunkSize) <==> Position(n, chunkSize, n) >= n
  {
    PositionBounds(n, chunkSize, n);
    if CutEnds(n, chunkSize) {
      var rounds :| Position(n, chunkSize, rounds) >= n;
      PositionBounds(n, chunkSize, rounds);
    }
  }

  /** The pieces of a vector, of which an empty one has none. */
  function Pieces<T>(vec: seq<T>, chunkSize: nat): seq<seq<T>>
    requires chunkSize >= 1 || vec == []
  {
    if vec == [] then [] else Chunks(vec, chunkSize)
  }

  /** The loop of splitVector, followed for a number of rounds. */
  method SplitRounds<T>(vec: seq<T>, chunkSize: nat, rounds: nat) returns (chunks: seq<seq<T>>, i: nat)
    ensures i == Position(|vec|, chunkSize, rounds)
    ensures chunkSize >= 1 ==> chunks + Chunks(vec[Least(i, |vec|)..], chunkSize) == Chunks(vec, chunkSize)
    ensures vec == [] ==> chunks == []
  {
    chunks, i := [], 0;
    for r := 0 to rounds
      invariant i == Position(|vec|, chunkSize, r)
      invariant chunkSize >= 1 ==> chunks + Chunks(vec[Least(i, |vec|)..], chunkSize) == Chunks(vec, chunkSize)
      invariant vec == [] ==> chunks == []
    {
      if i < |vec| {
        var size := if i + chunkSize < |vec| then i + chunkSize else |vec|;
        if chunkSize >= 1 {
          ChunksMove(vec, i, chunkSize);
          ConcatAssoc(chunks, [vec[i..size]], Chunks(vec[size..], chunkSize));
        }
        chunks := chunks + [vec[i..size]];
        i := i + chunkSize;
      }
    }
  }

  /** The outcome of splitVector: its chunks, or no outcome at all. */
  datatype Cut<T> = Ends(chunks: seq<seq<T>>) | RunsForever

  /** splitVector: whatever is not reached within one round per element is never reached. */
  method SplitVector<T>(vec: seq<T>, chunkSize: nat) returns (cut: Cut<T>)
    ensures cut.Ends? <==> CutEnds(|vec|, chunkSize)
    ensures cut.Ends? <==> chunkSize >= 1 || vec == []
    ensures cut.Ends? ==> cut.chunks == Pieces(vec, chunkSize)
  {
    var chunks, i := SplitRounds(vec, chunkSize, |vec|);
    CutEndsIff(|vec|, chunkSize);
    cut := if i >= |vec| then Ends(chunks) else RunsForever;
  }

  // ---------- the tasks of Predict ----------

  const EPOCH_TIMESLOT := 4

  /** How many slots make one prediction task; slots are at most four hours long. */
  function EpochSlots(timeslot: int): (e: nat)
    requires 0 < timeslot <= EPOCH_TIMESLOT * 3600
    ensures e >= 1 && e * timeslot <= 14400 < (e + 1) * timeslot
  {
    DivAtLeastOne(EPOCH_TIMESLOT * 3600, timeslot);
    EPOCH_TIMESLOT * 3600 / timeslot
  }

  lemma DivAtLeastOne(n: int, d: int)
    requires 0 < d <= n
    ensures n / d >= 1 && n / d * d <= n < (n / d + 1) * d
  {
    assert n == n / d * d + n % d;
  }

  function TasksFor<G>(e: nat): seq<G> -> int
    requires e >= 1
  {
    (groups: seq<G>) => CeilDiv(|groups|, e)
  }

  /** The tasks of all devices. */
  ghost function TaskTotal<G>(testset: map<nat, seq<G>>, e: nat): int
    requires e >= 1
  {
    MapSum(MapValues(TasksFor(e), testset))
  }

  lemma TaskTotalSnoc<G>(done: map<nat, seq<G>>, d: nat, groups: seq<G>, e: nat)
    requires e >= 1 && d !in done
    ensures TaskTotal(done[d := groups], e) == TaskTotal(done, e) + CeilDiv(|groups|, e)
  {
    MapValuesUpdate(TasksFor(e), done, d, groups);
    MapSumUpdate(MapValues(TasksFor(e), done), d, CeilDiv(|groups|, e));
  }

  lemma NoTasks<G>(e: nat)
    requires e >= 1
    ensures TaskTotal<G>(map[], e) == 0
  {
    var none: map<nat, seq<G>> := map[];
    assert MapValues(TasksFor<G>(e), none) == map[];
  }

  /** The number the wait group is created with. */
  method CountTasks<G>(testset: map<nat, seq<G>>, timeslot: int) returns (taskNum: int)
    requires 0 < timeslot <= EPOCH_TIMESLOT * 3600
    ensures taskNum == TaskTotal(testset, EpochSlots(timeslot))
  {
    hide TaskTotal, EpochSlots;
    taskNum := 0;
    var epochSlotNum := EpochSlots(timeslot);
    ghost var done: map<nat, seq<G>> := map[];
    NoTasks<G>(epochSlotNum);
    var remaining := testset.Keys;
    while remaining != {}
      invariant remaining <= testset.Keys && done == testset - remaining
      invariant taskNum == TaskTotal(done, epochSlotNum)
      decreases remaining
    {
      var d :| d in remaining;
      var size := |testset[d]|;
      TaskTotalSnoc(done, d, testset[d], epochSlotNum);
      taskNum := taskNum + size / epochSlotNum;
      taskNum := if size % epochSlotNum > 0 then taskNum + 1 else taskNum;
      done := done[d := testset[d]];
      remaining := remaining - {d};
    }
    assert done == testset;
  }

  /** The loop that starts the tasks; each of them calls done exactly once. */
  method StartTasks<G>(testset: map<nat, seq<G>>, timeslot: int) returns (doneCalls: int)
    requires 0 < timeslot <= EPOCH_TIMESLOT * 3600
    ensures doneCalls == TaskTotal(testset, EpochSlots(timeslot))
  {
    hide TaskTotal, EpochSlots, Chunks, CeilDiv;
    doneCalls := 0;
    var epochSlotNum := EpochSlots(timeslot);
    ghost var done: map<nat, seq<G>> := map[];
    NoTasks<G>(epochSlotNum);
    var remaining := testset.Keys;
    while remaining != {}
      invariant remaining <= testset.Keys && done == testset - remaining
      invariant doneCalls == TaskTotal(done, epochSlotNum)
      decreases remaining
    {
      var d :| d in remaining;
      var cut := SplitVector(testset[d], epochSlotNum);
      var tasks := cut.chunks;
      ChunksPartition(testset[d], epochSlotNum);
      NoChunks<G>(epochSlotNum);
      TaskTotalSnoc(done, d, testset[d], epochSlotNum);
      doneCalls := doneCalls + |tasks|;
      done := done[d := testset[d]];
      remaining := remaining - {d};
    }
    assert done == testset;
  }

  lemma NoChunks<G>(e: nat)
    requires e >= 1
    ensures Chunks<G>([], e) == []
  {
  }

  /** Predict waits for exactly as many done calls as its tasks make. */
  method Predict<G>(testset: map<nat, seq<G>>, timeslot: int) returns (taskNum: int, doneCalls: int)
    requires 0 < timeslot <= EPOCH_TIMESLOT * 3600
    ensures taskNum == doneCalls == TaskTotal(testset, EpochSlots(timeslot))
  {
    taskNum := CountTasks(testset, timeslot);
    doneCalls := StartTasks(testset, timeslot);
  }

  // ---------- the per-file counters of RawCvtoPktDataset ----------

  const STORE_MULTITHREAD := 10

  const SIZE_T := 0x1_0000_0000_0000_0000

  /** How many tasks a file of n packets is cut into, when it is cut at all. */
  function FileTasks(n: nat): nat {
    var chunkSize := n / (STORE_MULTITHREAD - 1);
    if chunkSize == 0 then 0 else CeilDiv(n, chunkSize)
  }

  /** One done call per task, and the rest in a loop whose bound is a size_t difference. */
  function DoneCalls(n: nat): nat {
    FileTasks(n) + (STORE_MULTITHREAD - FileTasks(n)) % SIZE_T
  }

  /** The done calls a file's counter receives; none while splitVector does not return. */
  method CountDone<T>(rawVec: seq<T>) returns (ended: bool, done: nat)
    ensures ended <==> CutEnds(|rawVec|, |rawVec| / (STORE_MULTITHREAD - 1))
    ensures done == if ended then DoneCalls(|rawVec|) else 0
    ensures ended <==> |rawVec| == 0 || |rawVec| >= 9
    ensures ended && done == 10 <==> |rawVec| % 9 <= |rawVec| / 9
  {
    DoneCallsExact(|rawVec|);
    var cut := SplitVector(rawVec, |rawVec| / (STORE_MULTITHREAD - 1));
    done := 0;
    match cut {
      case RunsForever =>
        ended := false;
      case Ends(splittedVec) =>
        ended := true;
        if rawVec != [] {
          ChunksPartition(rawVec, |rawVec| / (STORE_MULTITHREAD - 1));
        }
        for t := 0 to |splittedVec|
          invariant done == t
        {
          done := done + 1;
        }
        var rest := (STORE_MULTITHREAD - |splittedVec|) % SIZE_T;
        for j := 0 to rest
          invariant done == |splittedVec| + j
        {
          done := done + 1;
        }
    }
  }

  /**
   * For every file: the cut ends and the counter receives exactly ten done calls if and only if the
   * packets left over after nine equal parts are no more than one part. From 72 packets on that always holds, and the
   * file makes nine or ten tasks; from one to eight packets the cut does not end.
   */
  lemma DoneCallsExact(n: nat)
    ensures CutEnds(n, n / 9) && DoneCalls(n) == 10 <==> n % 9 <= n / 9
    ensures CutEnds(n, n / 9) <==> n == 0 || n >= 9
    ensures n >= 72 ==> n % 9 <= n / 9
    ensures n > 0 && n % 9 <= n / 9 ==> FileTasks(n) == if n % 9 == 0 then 9 else 10
  {
    CutEndsIff(n, n / 9);
    if n >= 9 {
      var q, r := n / 9, n % 9;
      assert n == 9 * q + r;
      var t := FileTasks(n);
      assert t * q >= n && (t - 1) * q < n;
      if r <= q {
        SameQuotient(t, if r == 0 then 9 else 10, n, q);
      } else {
        if t <= 10 {
          MulOrder(t, 10, q);
        }
        assert t > 10;
        TasksBounded(n, q, t);
      }
    }
  }

  /** A file of 17 packets makes 17 tasks of one packet, and its counter 2^64 + 10 done calls. */
  lemma SeventeenPackets()
    ensures FileTasks(17) == 17 && DoneCalls(17) == 0x1_0000_0000_0000_0000 + 10
  {
  }

  lemma TasksBounded(n: nat, q: nat, t: nat)
    requires q >= 1 && q < 9 && n < 9 * q + 9 && (t >= 1 ==> (t - 1) * q < n)
    ensures t <= 90
  {
    if t > 90 {
      MulOrder(90, t - 1, q);
    }
  }

  // ---------- the indices PredictGroups records ----------

  function CountKept(kept: seq<bool>): nat {
    if kept == [] then 0 else CountKept(kept[..|kept| - 1]) + (if kept[|kept| - 1] then 1 else 0)
  }

  /** One task: groups that pass the packet-count filter are scored under consecutive indices. */
  method PredictGroups(pktNums: seq<int>, minBlockPktNum: int, index: nat) returns (recorded: seq<int>)
    ensures recorded == Range(index, index + CountKept(Passing(pktNums, minBlockPktNum)))
    ensures |recorded| == |set g | 0 <= g < |pktNums| && pktNums[g] >= minBlockPktNum|
    ensures forall n :: 0 <= n < |recorded| ==> recorded[n] == index + n
  {
    KeptCount(pktNums, minBlockPktNum);
    recorded := [];
    var next := index;
    for g := 0 to |pktNums|
      invariant next == index + CountKept(Passing(pktNums, minBlockPktNum)[..g])
      invariant recorded == Range(index, next)
    {
      ghost var kept := Passing(pktNums, minBlockPktNum);
      assert kept[..g + 1][..g] == kept[..g];
      if pktNums[g] < minBlockPktNum {
        continue;
      }
      recorded := recorded + [next];
      next := next + 1;
    }
    WholePrefix(Passing(pktNums, minBlockPktNum));
  }

  /** Kept are the groups with at least minBlockPktNum packets. */
  lemma {:induction false} KeptCount(pktNums: seq<int>, minBlockPktNum: int)
    ensures CountKept(Passing(pktNums, minBlockPktNum)) ==
              |set g | 0 <= g < |pktNums| && pktNums[g] >= minBlockPktNum|
  {
    KeptFiltered(pktNums, minBlockPktNum);
    var places := set g | 0 <= g < |pktNums| && pktNums[g] >= minBlockPktNum;
    PlacesCount((n: int) => n >= minBlockPktNum, pktNums, places);
  }

  lemma {:induction false} KeptFiltered(pktNums: seq<int>, minBlockPktNum: int)
    ensures CountKept(Passing(pktNums, minBlockPktNum)) == |Filter((n: int) => n >= minBlockPktNum, pktNums)|
  {
    if pktNums != [] {
      var n := |pktNums| - 1;
      KeptFiltered(pktNums[..n], minBlockPktNum);
      assert Passing(pktNums, minBlockPktNum)[..n] == Passing(pktNums[..n], minBlockPktNum);
    }
  }

  function Passing(pktNums: seq<int>, minBlockPktNum: int): seq<bool> {
    MapSeq((n: int) => n >= minBlockPktNum, pktNums)
  }

  /** How many groups each task of a device keeps. */
  function KeptPerTask(kept: seq<bool>, e: nat): seq<nat>
    requires e >= 1
  {
    MapSeq((chunk: seq<bool>) => CountKept(chunk), Chunks(kept, e))
  }

  /** All indices recorded for a device, task by task; task k starts at k times e. */
  function Recorded(counts: seq<nat>, e: nat): seq<int> {
    if counts == [] then []
    else
      var k := |counts| - 1;
      Recorded(counts[..k], e) + Range(k * e, k * e + counts[k])
  }

  function SumOf(counts: seq<nat>): nat {
    if counts == [] then 0 else SumOf(counts[..|counts| - 1]) + counts[|counts| - 1]
  }

  predicate AllFull(counts: seq<nat>, e: nat) {
    forall k :: 0 <= k < |counts| ==> counts[k] == e
  }

  /** Every task before one that keeps anything keeps everything. */
  predicate FilteredAtEnd(counts: seq<nat>, e: nat) {
    forall l :: 0 <= l < |counts| && counts[l] > 0 ==> AllFull(counts[..l], e)
  }

  ghost predicate Bounded(counts: seq<nat>, e: nat) {
    forall k :: 0 <= k < |counts| ==> counts[k] <= e
  }

  lemma {:induction false} SumBounds(counts: seq<nat>, e: nat)
    requires Bounded(counts, e)
    ensures SumOf(counts) <= |counts| * e
    ensures SumOf(counts) == |counts| * e <==> AllFull(counts, e)
  {
    if counts != [] {
      var m := |counts| - 1;
      SumBounds(counts[..m], e);
      assert |counts| * e == m * e + e;
      assert AllFull(counts, e) <==> AllFull(counts[..m], e) && counts[m] == e;
    }
  }

  lemma FilteredSnoc(counts: seq<nat>, e: nat)
    requires counts != []
    ensures var m := |counts| - 1;
            FilteredAtEnd(counts, e) <==> FilteredAtEnd(counts[..m], e) && (counts[m] > 0 ==> AllFull(counts[..m], e))
  {
    var m := |counts| - 1;
    forall l | 0 <= l < m ensures counts[..m][..l] == counts[..l] {
    }
    if FilteredAtEnd(counts, e) {
      forall l | 0 <= l < m && counts[..m][l] > 0 ensures AllFull(counts[..m][..l], e) {
        assert counts[l] > 0;
      }
    }
    if FilteredAtEnd(counts[..m], e) && (counts[m] > 0 ==> AllFull(counts[..m], e)) {
      forall l | 0 <= l < |counts| && counts[l] > 0 ensures AllFull(counts[..l], e) {
        if l < m {
          assert counts[..m][l] > 0;
        }
      }
    }
  }

  lemma {:induction false} FullIsFiltered(counts: seq<nat>, e: nat)
    requires AllFull(counts, e)
    ensures FilteredAtEnd(counts, e)
  {
  }

  lemma {:induction false} RecordedLength(counts: seq<nat>, e: nat)
    ensures |Recorded(counts, e)| == SumOf(counts)
  {
    if counts != [] {
      RecordedLength(counts[..|counts| - 1], e);
    }
  }

  lemma RangesJoin(a: nat, b: nat)
    ensures Range(0, a) + Range(a, a + b) == Range(0, a + b)
  {
  }

  ghost predicate InBounds(indices: seq<int>, n: nat) {
    forall i :: i in indices ==> 0 <= i < n
  }

  lemma BoundedPrefix(counts: seq<nat>, e: nat)
    requires counts != [] && Bounded(counts, e)
    ensures Bounded(counts[..|counts| - 1], e)
  {
  }

  lemma LastRecorded(counts: seq<nat>, e: nat)
    requires counts != [] && counts[|counts| - 1] > 0
    ensures (|counts| - 1) * e + counts[|counts| - 1] - 1 in Recorded(counts, e)
  {
    var m := |counts| - 1;
    var last := Range(m * e, m * e + counts[m]);
    assert last[counts[m] - 1] in last;
  }

  /** A task after a filtered group records an index that is too large. */
  lemma GapOverflows(counts: seq<nat>, e: nat)
    requires counts != [] && counts[|counts| - 1] > 0 && Bounded(counts, e) && !AllFull(counts[..|counts| - 1], e)
    ensures !InBounds(Recorded(counts, e), SumOf(counts))
  {
    hide Recorded, AllFull, Bounded;
    BoundedPrefix(counts, e);
    SumBounds(counts[..|counts| - 1], e);
    LastRecorded(counts, e);
  }

  /** Full tasks so far: the next one continues where they stop. */
  lemma FullContinues(counts: seq<nat>, e: nat)
    requires counts != [] && Bounded(counts, e) && AllFull(counts[..|counts| - 1], e)
    requires Recorded(counts[..|counts| - 1], e) == Range(0, SumOf(counts[..|counts| - 1]))
    ensures Recorded(counts, e) == Range(0, SumOf(counts))
  {
    hide AllFull, Bounded;
    var m := |counts| - 1;
    BoundedPrefix(counts, e);
    SumBounds(counts[..m], e);
    RangesJoin(m * e, counts[m]);
  }

  lemma NothingRecorded(counts: seq<nat>, e: nat)
    requires counts != [] && counts[|counts| - 1] == 0
    ensures Recorded(counts, e) == Recorded(counts[..|counts| - 1], e) && SumOf(counts) == SumOf(counts[..|counts| - 1])
  {
  }

  /**
   * The n indices recorded for a device are 0, 1, ..., n - 1, each once, if and only if they all stay below n, and
   * that is so if and only if groups are filtered out only after the last task that keeps one.
   */
  lemma {:induction false} RecordedOnceEach(counts: seq<nat>, e: nat)
    requires e >= 1 && Bounded(counts, e)
    ensures InBounds(Recorded(counts, e), SumOf(counts)) <==> FilteredAtEnd(counts, e)
    ensures FilteredAtEnd(counts, e) ==> Recorded(counts, e) == Range(0, SumOf(counts))
  {
    if counts != [] {
      hide FilteredAtEnd, AllFull, Bounded, Recorded, SumOf;
      var m := |counts| - 1;
      BoundedPrefix(counts, e);
      RecordedOnceEach(counts[..m], e);
      FilteredSnoc(counts, e);
      if counts[m] == 0 {
        NothingRecorded(counts, e);
      } else if AllFull(counts[..m], e) {
        FullIsFiltered(counts[..m], e);
        FullContinues(counts, e);
      } else {
        GapOverflows(counts, e);
      }
    }
  }

  lemma {:induction false} CountKeptBounds(kept: seq<bool>)
    ensures CountKept(kept) <= |kept|
    ensures CountKept(kept) == |kept| <==> forall k :: 0 <= k < |kept| ==> kept[k]
  {
    if kept != [] {
      CountKeptBounds(kept[..|kept| - 1]);
    }
  }

  /** The tasks of a device never record more than their share. */
  lemma KeptBounded(kept: seq<bool>, e: nat)
    requires e >= 1
    ensures Bounded(KeptPerTask(kept, e), e)
  {
    forall k | 0 <= k < |Chunks(kept, e)| ensures KeptPerTask(kept, e)[k] <= e {
      ChunkSizes(kept, e, k);
      CountKeptBounds(Chunks(kept, e)[k]);
    }
  }

  /** When no group is filtered out, every task before the last one is full. */
  lemma NothingFiltered(kept: seq<bool>, e: nat)
    requires e >= 1 && forall g :: 0 <= g < |kept| ==> kept[g]
    ensures FilteredAtEnd(KeptPerTask(kept, e), e) && SumOf(KeptPerTask(kept, e)) == |kept|
  {
    var counts, chunks := KeptPerTask(kept, e), Chunks(kept, e);
    ChunksPartition(kept, e);
    forall k | 0 <= k < |chunks| ensures counts[k] == |chunks[k]| {
      PartAllKept(chunks, k);
      CountKeptBounds(chunks[k]);
    }
    forall l | 0 <= l < |counts| ensures AllFull(counts[..l], e) {
      forall k | 0 <= k < l ensures counts[..l][k] == e {
        ChunkSizes(kept, e, k);
      }
    }
    LengthsAddUp(chunks, counts);
  }

  lemma {:induction false} PartAllKept(chunks: seq<seq<bool>>, k: nat)
    requires k < |chunks| && forall g :: 0 <= g < |Flatten(chunks)| ==> Flatten(chunks)[g]
    ensures forall g :: 0 <= g < |chunks[k]| ==> chunks[k][g]
  {
    var n := |chunks| - 1;
    var before := Flatten(chunks[..n]);
    if k < n {
      assert forall g :: 0 <= g < |before| ==> before[g] == Flatten(chunks)[g];
      PartAllKept(chunks[..n], k);
    } else {
      assert forall g :: 0 <= g < |chunks[n]| ==> chunks[n][g] == Flatten(chunks)[|before| + g];
    }
  }

  lemma {:induction false} LengthsAddUp<T>(chunks: seq<seq<T>>, counts: seq<nat>)
    requires |counts| == |chunks| && forall k :: 0 <= k < |chunks| ==> counts[k] == |chunks[k]|
    ensures SumOf(counts) == |Flatten(chunks)|
  {
    if chunks != [] {
      LengthsAddUp(chunks[..|chunks| - 1], counts[..|counts| - 1]);
    }
  }

  lemma SevenAndOneRecord()
    ensures Recorded([7, 1], 8) == [0, 1, 2, 3, 4, 5, 6, 8] && SumOf([7, 1]) == 8
  {
    assert [7, 1][..1] == [7] && [7][..0] == [];
    assert Recorded([7], 8) == Range(0, 7);
  }

  /** Seven of eight groups kept in the first task and one in the second: 8 indices are recorded, one of them 8. */
  lemma FilteredGroupOverflows()
    ensures Recorded([7, 1], 8) == [0, 1, 2, 3, 4, 5, 6, 8] && SumOf([7, 1]) == 8
    ensures !FilteredAtEnd([7, 1], 8)
  {
    SevenAndOneRecord();
    assert [7, 1][1] > 0 && [7, 1][..1][0] != 8;
  }

  // ---------- several devices under one type label ----------

  function CountAt(counts: seq<nat>, k: nat): nat {
    if k < |counts| then counts[k] else 0
  }

  function Longer(a: nat, b: nat): nat {
    if a < b then b else a
  }

  /** What two devices keep together, task number by task number. */
  function Together(a: seq<nat>, b: seq<nat>): (r: seq<nat>)
    ensures |r| == Longer(|a|, |b|) && forall k :: 0 <= k < |r| ==> r[k] == CountAt(a, k) + CountAt(b, k)
  {
    seq(Longer(|a|, |b|), k requires k >= 0 => CountAt(a, k) + CountAt(b, k))
  }

  function AllTogether(devices: seq<seq<nat>>): seq<nat> {
    if devices == [] then [] else Together(AllTogether(devices[..|devices| - 1]), devices[|devices| - 1])
  }

  /** The indices all devices record. */
  function AllRecorded(devices: seq<seq<nat>>, e: nat): seq<int> {
    if devices == [] then []
    else AllRecorded(devices[..|devices| - 1], e) + Recorded(devices[|devices| - 1], e)
  }

  /** No task number at which both keep a group. */
  ghost predicate NoneShared(a: seq<nat>, b: seq<nat>) {
    forall k: nat :: CountAt(a, k) == 0 || CountAt(b, k) == 0
  }

  /** No task number at which two of the devices keep a group. */
  ghost predicate NoTaskShared(devices: seq<seq<nat>>) {
    forall i, j :: 0 <= i < j < |devices| ==> NoneShared(devices[i], devices[j])
  }

  ghost predicate AllBounded(devices: seq<seq<nat>>, e: nat) {
    forall i :: 0 <= i < |devices| ==> Bounded(devices[i], e)
  }

  /** The indices of the first m tasks. */
  function RecordedUpTo(counts: seq<nat>, m: nat, e: nat): seq<int> {
    if m == 0 then [] else RecordedUpTo(counts, m - 1, e) + Range((m - 1) * e, (m - 1) * e + CountAt(counts, m - 1))
  }

  lemma {:induction false} UpToAgrees(a: seq<nat>, b: seq<nat>, m: nat, e: nat)
    requires forall k :: 0 <= k < m ==> CountAt(a, k) == CountAt(b, k)
    ensures RecordedUpTo(a, m, e) == RecordedUpTo(b, m, e)
  {
    if m > 0 {
      UpToAgrees(a, b, m - 1, e);
    }
  }

  lemma {:induction false} RecordedIsUpTo(counts: seq<nat>, m: nat, e: nat)
    requires m >= |counts|
    ensures Recorded(counts, e) == RecordedUpTo(counts, m, e)
    decreases m
  {
    if m > |counts| {
      RecordedIsUpTo(counts, m - 1, e);
    } else if m > 0 {
      RecordedIsUpTo(counts[..m - 1], m - 1, e);
      UpToAgrees(counts[..m - 1], counts, m - 1, e);
    }
  }

  lemma NothingUpTo(counts: seq<nat>, e: nat)
    ensures RecordedUpTo(counts, 0, e) == []
  {
  }

  lemma UpToStep(counts: seq<nat>, k: nat, e: nat)
    ensures RecordedUpTo(counts, k + 1, e) == RecordedUpTo(counts, k, e) + TaskRange(k, e, CountAt(counts, k))
  {
  }

  lemma TaskMerges(pa: seq<int>, pb: seq<int>, pt: seq<int>, ra: seq<int>, rb: seq<int>, rt: seq<int>)
    requires multiset(pt) == multiset(pa) + multiset(pb) && multiset(rt) == multiset(ra) + multiset(rb)
    ensures multiset(pt + rt) == multiset(pa + ra) + multiset(pb + rb)
  {
  }

  /** The indices of task k when c groups are kept. */
  function TaskRange(k: nat, e: nat, c: nat): seq<int> {
    Range(k * e, k * e + c)
  }

  lemma TaskRangesMerge(k: nat, e: nat, a: nat, b: nat)
    requires a == 0 || b == 0
    ensures multiset(TaskRange(k, e, a + b)) == multiset(TaskRange(k, e, a)) + multiset(TaskRange(k, e, b))
  {
    assert TaskRange(k, e, 0) == [];
  }

  lemma {:induction false} UpToMerges(a: seq<nat>, b: seq<nat>, t: seq<nat>, m: nat, e: nat)
    requires NoneShared(a, b) && forall k: nat :: CountAt(t, k) == CountAt(a, k) + CountAt(b, k)
    ensures multiset(RecordedUpTo(t, m, e)) == multiset(RecordedUpTo(a, m, e)) + multiset(RecordedUpTo(b, m, e))
  {
    hide RecordedUpTo, CountAt;
    if m == 0 {
      NothingUpTo(a, e);
      NothingUpTo(b, e);
      NothingUpTo(t, e);
    } else {
      UpToMerges(a, b, t, m - 1, e);
      OneMoreTask(a, b, t, m - 1, e);
    }
  }

  lemma OneMoreTask(a: seq<nat>, b: seq<nat>, t: seq<nat>, k: nat, e: nat)
    requires (CountAt(a, k) == 0 || CountAt(b, k) == 0) && CountAt(t, k) == CountAt(a, k) + CountAt(b, k)
    requires multiset(RecordedUpTo(t, k, e)) == multiset(RecordedUpTo(a, k, e)) + multiset(RecordedUpTo(b, k, e))
    ensures multiset(RecordedUpTo(t, k + 1, e)) ==
              multiset(RecordedUpTo(a, k + 1, e)) + multiset(RecordedUpTo(b, k + 1, e))
  {
    hide TaskRange, RecordedUpTo, CountAt;
    UpToStep(a, k, e);
    UpToStep(b, k, e);
    UpToStep(t, k, e);
    TaskRangesMerge(k, e, CountAt(a, k), CountAt(b, k));
    TaskMerges(RecordedUpTo(a, k, e), RecordedUpTo(b, k, e), RecordedUpTo(t, k, e),
               TaskRange(k, e, CountAt(a, k)), TaskRange(k, e, CountAt(b, k)), TaskRange(k, e, CountAt(t, k)));
  }

  lemma RecordedMerges(a: seq<nat>, b: seq<nat>, e: nat)
    requires NoneShared(a, b)
    ensures multiset(Recorded(Together(a, b), e)) == multiset(Recorded(a, e)) + multiset(Recorded(b, e))
  {
    var m := Longer(|a|, |b|);
    RecordedIsUpTo(a, m, e);
    RecordedIsUpTo(b, m, e);
    RecordedIsUpTo(Together(a, b), m, e);
    UpToMerges(a, b, Together(a, b), m, e);
  }

  lemma {:induction false} CountTogether(devices: seq<seq<nat>>, k: nat)
    ensures CountAt(AllTogether(devices), k) > 0 <==> exists i :: 0 <= i < |devices| && CountAt(devices[i], k) > 0
  {
    if devices != [] {
      var n := |devices| - 1;
      var before := AllTogether(devices[..n]);
      CountTogether(devices[..n], k);
      assert CountAt(AllTogether(devices), k) == CountAt(before, k) + CountAt(devices[n], k);
      if CountAt(before, k) > 0 {
        var i :| 0 <= i < n && CountAt(devices[..n][i], k) > 0;
        assert CountAt(devices[i], k) > 0;
      }
      if i :| 0 <= i < n && CountAt(devices[i], k) > 0 {
        assert CountAt(devices[..n][i], k) > 0;
      }
    }
  }

  /** Without shared task numbers the devices record what one device with the summed counts would. */
  lemma {:induction false} DevicesMerge(devices: seq<seq<nat>>, e: nat)
    requires NoTaskShared(devices) && AllBounded(devices, e)
    ensures multiset(AllRecorded(devices, e)) == multiset(Recorded(AllTogether(devices), e))
    ensures Bounded(AllTogether(devices), e)
  {
    if devices != [] {
      var n := |devices| - 1;
      DevicesMerge(devices[..n], e);
      forall k: nat ensures CountAt(AllTogether(devices[..n]), k) == 0 || CountAt(devices[n], k) == 0 {
        CountTogether(devices[..n], k);
        if i :| 0 <= i < n && CountAt(devices[..n][i], k) > 0 {
          assert NoneShared(devices[i], devices[n]);
        }
      }
      RecordedMerges(AllTogether(devices[..n]), devices[n], e);
      TogetherBounded(AllTogether(devices[..n]), devices[n], e);
    }
  }

  lemma TogetherBounded(a: seq<nat>, b: seq<nat>, e: nat)
    requires NoneShared(a, b) && Bounded(a, e) && Bounded(b, e)
    ensures Bounded(Together(a, b), e)
  {
    forall k | 0 <= k < |Together(a, b)| ensures Together(a, b)[k] <= e {
      assert CountAt(a, k) == 0 || CountAt(b, k) == 0;
    }
  }

  lemma {:induction false} StartIsRecorded(counts: seq<nat>, k: nat, e: nat)
    requires k < |counts| && counts[k] > 0
    ensures k * e in Recorded(counts, e)
  {
    var m := |counts| - 1;
    if k < m {
      StartIsRecorded(counts[..m], k, e);
    } else {
      var r := Range(m * e, m * e + counts[m]);
      assert r[0] in r;
    }
  }

  lemma {:induction false} DeviceWithin(devices: seq<seq<nat>>, i: nat, e: nat)
    requires i < |devices|
    ensures multiset(Recorded(devices[i], e)) <= multiset(AllRecorded(devices, e))
  {
    if i < |devices| - 1 {
      DeviceWithin(devices[..|devices| - 1], i, e);
    }
  }

  lemma {:induction false} DevicesWithin(devices: seq<seq<nat>>, i: nat, j: nat, e: nat)
    requires i < j < |devices|
    ensures multiset(Recorded(devices[i], e)) + multiset(Recorded(devices[j], e)) <= multiset(AllRecorded(devices, e))
  {
    hide Recorded;
    var n := |devices| - 1;
    assert multiset(AllRecorded(devices, e)) ==
             multiset(AllRecorded(devices[..n], e)) + multiset(Recorded(devices[n], e));
    if j < n {
      DevicesWithin(devices[..n], i, j, e);
    } else {
      DeviceWithin(devices[..n], i, e);
    }
  }

  lemma RangeOnce(n: nat, x: int)
    ensures multiset(Range(0, n))[x] <= 1
    decreases n
  {
    if n > 0 {
      RangeOnce(n - 1, x);
      assert Range(0, n) == Range(0, n - 1) + [n - 1];
      assert x in Range(0, n - 1) ==> x < n - 1;
    }
  }

  /** Two devices that keep a group at the same task number record the same index. */
  lemma SharedTaskCollides(devices: seq<seq<nat>>, e: nat, n: nat)
    requires !NoTaskShared(devices)
    ensures multiset(AllRecorded(devices, e)) != multiset(Range(0, n))
  {
    var i, j :| 0 <= i < j < |devices| && !NoneShared(devices[i], devices[j]);
    var k: nat :| CountAt(devices[i], k) != 0 && CountAt(devices[j], k) != 0;
    StartIsRecorded(devices[i], k, e);
    StartIsRecorded(devices[j], k, e);
    DevicesWithin(devices, i, j, e);
    RangeOnce(n, k * e);
    assert multiset(Recorded(devices[i], e))[k * e] >= 1 && multiset(Recorded(devices[j], e))[k * e] >= 1;
  }

  /**
   * The indices recorded by all devices of one type label are 0, 1, ..., n - 1, each once, if and only if no task
   * number is used by two devices that keep a group there, and the summed counts are filtered at the end only.
   */
  lemma DevicesOnceEach(devices: seq<seq<nat>>, e: nat)
    requires e >= 1 && AllBounded(devices, e)
    ensures multiset(AllRecorded(devices, e)) == multiset(Range(0, |AllRecorded(devices, e)|)) <==>
            NoTaskShared(devices) && FilteredAtEnd(AllTogether(devices), e)
  {
    var n := |AllRecorded(devices, e)|;
    if !NoTaskShared(devices) {
      SharedTaskCollides(devices, e, n);
    } else {
      var total := AllTogether(devices);
      DevicesMerge(devices, e);
      SamePermutationLength(AllRecorded(devices, e), Recorded(total, e));
      RecordedLength(total, e);
      RecordedOnceEach(total, e);
      if multiset(AllRecorded(devices, e)) == multiset(Range(0, n)) {
        RangeInBounds(Recorded(total, e), n);
      }
    }
  }

  lemma RangeInBounds(a: seq<int>, n: nat)
    requires multiset(a) == multiset(Range(0, n))
    ensures InBounds(a, n)
  {
    forall x | x in a ensures 0 <= x < n {
      assert x in multiset(Range(0, n));
    }
  }

  /** Two devices of one type scoring one group each both record index 0. */
  lemma TwoDevicesCollide()
    ensures AllRecorded([[1], [1]], 8) == [0, 0] && !NoTaskShared([[1], [1]])
  {
    var devices: seq<seq<nat>> := [[1], [1]];
    assert devices[..1] == [[1]] && [[1]][..0] == [];
    assert Recorded([1], 8) == [0];
    assert CountAt(devices[0], 0) == 1 && CountAt(devices[1], 0) == 1;
    assert !NoneShared(devices[0], devices[1]);
  }

  /** Cutting and filtering commute. */
  lemma {:induction false} ChunksPassing(pktNums: seq<int>, minBlockPktNum: int, e: nat)
    requires e >= 1
    ensures var chunks := Chunks(pktNums, e);
            |Chunks(Passing(pktNums, minBlockPktNum), e)| == |chunks| &&
            forall k :: 0 <= k < |chunks| ==>
                          Chunks(Passing(pktNums, minBlockPktNum), e)[k] == Passing(chunks[k], minBlockPktNum)
    decreases |pktNums|
  {
    if pktNums != [] {
      var k := Least(e, |pktNums|);
      ChunksPassing(pktNums[k..], minBlockPktNum, e);
      assert Passing(pktNums, minBlockPktNum)[k..] == Passing(pktNums[k..], minBlockPktNum);
      assert Passing(pktNums, minBlockPktNum)[..k] == Passing(pktNums[..k], minBlockPktNum);
    }
  }

  /** The tasks of one device, one after the other: the start index advances by e whatever the filter drops. */
  method PredictDevice(pktNums: seq<int>, minBlockPktNum: int, e: nat) returns (recorded: seq<int>)
    requires e >= 1
    ensures recorded == Recorded(KeptPerTask(Passing(pktNums, minBlockPktNum), e), e)
  {
    hide Chunks, Passing, CountKept, Range;
    var cut := SplitVector(pktNums, e);
    var smallGroups := cut.chunks;
    NoChunks<int>(e);
    ChunksPassing(pktNums, minBlockPktNum, e);
    ghost var counts := KeptPerTask(Passing(pktNums, minBlockPktNum), e);
    recorded := [];
    var index := 0;
    for k := 0 to |smallGroups|
      invariant index == k * e && recorded == Recorded(counts[..k], e)
    {
      var more := PredictGroups(smallGroups[k], minBlockPktNum, index);
      assert counts[..k + 1][..k] == counts[..k];
      recorded := recorded + more;
      index := index + e;
    }
    WholePrefix(counts);
  }
}
