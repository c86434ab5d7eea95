/** How one slot's packets are cut into bursts: the rules of src/DeviceBurstGenerator.cpp as functions. */
module Segmentation {
  import opened Collections
  import opened Packets
  import opened BurstValues

  /** The cut parameters: seconds, seconds, and distinct signatures. */
  datatype DivisionParam = DivisionParam(maxInterval: byte, maxDuration: byte, maxUniSig: byte)

  /** Parameter values the program is meant to run with; Distance marks matches in 101 slots. */
  predicate ValidParam(c: DivisionParam) {
    c.maxInterval >= 1 && c.maxDuration >= 1 && 1 <= c.maxUniSig <= 100
  }

  predicate AllNormal(ps: seq<Packet>) {
    forall k :: 0 <= k < |ps| ==> Normal(ps[k].stamp)
  }

  /** Captured packets carry a real time of day, so a second count of zero means "not stamped". */
  predicate AllTimed(ps: seq<Packet>) {
    forall k :: 0 <= k < |ps| ==> Normal(ps[k].stamp) && ps[k].stamp.sec >= 1
  }

  function Last(ps: seq<Packet>): Packet
    requires ps != []
  {
    ps[|ps| - 1]
  }

  function Floor(later: Packet, earlier: Packet): int {
    FloorDuration(later.stamp, earlier.stamp)
  }

  // ---------- LongShortSplit ----------

  datatype Chunk = Chunk(isLong: bool, packets: seq<Packet>)

  /** The chunks pushed so far, to either vector, and the chunk being collected. */
  datatype SplitState = SplitState(chunks: seq<Chunk>, raw: seq<Packet>)

  function SplitStep(c: DivisionParam, st: SplitState, p: Packet): SplitState {
    var floorDiff := if st.raw == [] then 0 else Floor(p, Last(st.raw));
    if floorDiff >= c.maxInterval then
      SplitState(st.chunks + [Chunk(false, st.raw)], [p])
    else if st.raw != [] && Floor(Last(st.raw), st.raw[0]) > c.maxDuration then
      SplitState(st.chunks + [Chunk(true, st.raw)], [p])
    else
      SplitState(st.chunks, st.raw + [p])
  }

  function SplitRun(c: DivisionParam, ps: seq<Packet>): SplitState {
    if ps == [] then SplitState([], []) else SplitStep(c, SplitRun(c, ps[..|ps| - 1]), Last(ps))
  }

  lemma SplitRunSnoc(c: DivisionParam, ps: seq<Packet>, k: nat)
    requires k < |ps|
    ensures SplitRun(c, ps[..k + 1]) == SplitStep(c, SplitRun(c, ps[..k]), ps[k])
  {
    assert ps[..k + 1][..k] == ps[..k];
  }

  /** All chunks in the order they are emitted. */
  function ChunksOf(c: DivisionParam, ps: seq<Packet>): seq<Chunk> {
    SplitRun(c, ps).chunks + [Chunk(false, SplitRun(c, ps).raw)]
  }

  function Shorts(chunks: seq<Chunk>): seq<seq<Packet>> {
    if chunks == [] then []
    else
      var k := chunks[|chunks| - 1];
      Shorts(chunks[..|chunks| - 1]) + (if k.isLong then [] else [k.packets])
  }

  function Longs(chunks: seq<Chunk>): seq<seq<Packet>> {
    if chunks == [] then []
    else
      var k := chunks[|chunks| - 1];
      Longs(chunks[..|chunks| - 1]) + (if k.isLong then [k.packets] else [])
  }

  lemma ChunksSnoc(chunks: seq<Chunk>, k: Chunk)
    ensures Shorts(chunks + [k]) == Shorts(chunks) + (if k.isLong then [] else [k.packets])
    ensures Longs(chunks + [k]) == Longs(chunks) + (if k.isLong then [k.packets] else [])
  {
    assert (chunks + [k])[..|chunks|] == chunks;
  }

  function Contents(chunks: seq<Chunk>): seq<Packet> {
    if chunks == [] then [] else Contents(chunks[..|chunks| - 1]) + chunks[|chunks| - 1].packets
  }

  /** No gap of maxInterval inside, and every packet but the last within maxDuration of the first. */
  predicate Unbroken(c: DivisionParam, ps: seq<Packet>) {
    var n := |ps| - 1;
    n >= 1 ==>
      Unbroken(c, ps[..n]) && Floor(ps[n], ps[n - 1]) < c.maxInterval && Floor(ps[n - 1], ps[0]) <= c.maxDuration
  }

  /** A finished chunk: a long one lasts more than maxDuration. */
  predicate ChunkOk(c: DivisionParam, k: Chunk) {
    k.packets != [] && Unbroken(c, k.packets) && (k.isLong ==> Floor(Last(k.packets), k.packets[0]) > c.maxDuration)
  }

  /** Why a chunk ended before next: a long one by its duration alone, a short one by a gap. */
  predicate EndedBy(c: DivisionParam, k: Chunk, next: Packet) {
    k.packets != [] && (k.isLong <==> Floor(next, Last(k.packets)) < c.maxInterval)
  }

  /** Every chunk is finished, and every chunk but the last ended for the right reason. */
  predicate ChunksOk(c: DivisionParam, chunks: seq<Chunk>) {
    chunks != [] ==>
      var n := |chunks| - 1;
      ChunkOk(c, chunks[n]) && ChunksOk(c, chunks[..n]) && (n > 0 ==> EndedBy(c, chunks[n - 1], chunks[n].packets[0]))
  }

  /** What holds while a chunk is collected. */
  predicate SplitOk(c: DivisionParam, st: SplitState) {
    st.raw != [] && Unbroken(c, st.raw) && ChunksOk(c, st.chunks) &&
    (st.chunks != [] ==> EndedBy(c, st.chunks[|st.chunks| - 1], st.raw[0]))
  }

  lemma ChunkAppends(c: DivisionParam, chunks: seq<Chunk>, k: Chunk)
    requires ChunksOk(c, chunks) && ChunkOk(c, k)
    requires chunks != [] ==> EndedBy(c, chunks[|chunks| - 1], k.packets[0])
    ensures ChunksOk(c, chunks + [k])
    ensures Contents(chunks + [k]) == Contents(chunks) + k.packets
  {
    assert (chunks + [k])[..|chunks|] == chunks;
  }

  lemma UnbrokenAppends(c: DivisionParam, ps: seq<Packet>, p: Packet)
    requires ps != [] && Unbroken(c, ps)
    requires Floor(p, Last(ps)) < c.maxInterval && Floor(Last(ps), ps[0]) <= c.maxDuration
    ensures Unbroken(c, ps + [p])
  {
    assert (ps + [p])[..|ps|] == ps;
  }

  lemma ChunkCloses(c: DivisionParam, st: SplitState, isLong: bool, p: Packet)
    requires SplitOk(c, st) && ChunkOk(c, Chunk(isLong, st.raw)) && EndedBy(c, Chunk(isLong, st.raw), p)
    ensures SplitOk(c, SplitState(st.chunks + [Chunk(isLong, st.raw)], [p]))
  {
    ChunkAppends(c, st.chunks, Chunk(isLong, st.raw));
  }

  lemma ChunkGrows(c: DivisionParam, st: SplitState, p: Packet)
    requires SplitOk(c, st)
    requires Floor(p, Last(st.raw)) < c.maxInterval && Floor(Last(st.raw), st.raw[0]) <= c.maxDuration
    ensures SplitOk(c, SplitState(st.chunks, st.raw + [p]))
  {
    hide Unbroken, ChunksOk, EndedBy;
    UnbrokenAppends(c, st.raw, p);
  }

  lemma SplitStepKeeps(c: DivisionParam, st: SplitState, p: Packet)
    requires ValidParam(c) && SplitOk(c, st)
    ensures SplitOk(c, SplitStep(c, st, p))
  {
    hide ChunksOk, Unbroken;
    if Floor(p, Last(st.raw)) >= c.maxInterval {
      ChunkCloses(c, st, false, p);
    } else if Floor(Last(st.raw), st.raw[0]) > c.maxDuration {
      ChunkCloses(c, st, true, p);
    } else {
      ChunkGrows(c, st, p);
    }
  }

  /** Every packet taken in so far. */
  function Taken(st: SplitState): seq<Packet> {
    Contents(st.chunks) + st.raw
  }

  lemma SplitStepTakes(c: DivisionParam, st: SplitState, p: Packet)
    ensures Taken(SplitStep(c, st, p)) == Taken(st) + [p]
  {
    var r := SplitStep(c, st, p);
    if |r.chunks| > |st.chunks| {
      assert r.chunks[..|st.chunks|] == st.chunks;
    } else {
      assert Contents(st.chunks) + (st.raw + [p]) == Contents(st.chunks) + st.raw + [p];
    }
  }

  lemma {:induction false} SplitTakesAll(c: DivisionParam, ps: seq<Packet>)
    ensures Taken(SplitRun(c, ps)) == ps
  {
    if ps != [] {
      var n := |ps| - 1;
      SplitTakesAll(c, ps[..n]);
      SplitStepTakes(c, SplitRun(c, ps[..n]), ps[n]);
      assert ps[..n] + [ps[n]] == ps;
    }
  }

  lemma {:induction false} SplitInvariant(c: DivisionParam, ps: seq<Packet>)
    requires ValidParam(c) && ps != []
    ensures SplitOk(c, SplitRun(c, ps))
    ensures Taken(SplitRun(c, ps)) == ps
  {
    var n := |ps| - 1;
    SplitTakesAll(c, ps);
    if n == 0 {
      assert SplitRun(c, ps[..n]) == SplitState([], []);
    } else {
      SplitInvariant(c, ps[..n]);
      SplitStepKeeps(c, SplitRun(c, ps[..n]), ps[n]);
    }
  }

  lemma UnbrokenDuration(c: DivisionParam, ps: seq<Packet>)
    requires AllNormal(ps) && ps != [] && Unbroken(c, ps)
    ensures Floor(Last(ps), ps[0]) <= c.maxDuration + c.maxInterval
  {
    var n := |ps| - 1;
    if n > 0 {
      var a, b, d := ps[0].stamp, ps[n - 1].stamp, ps[n].stamp;
      var r := FloorDuration(d, a);
      assert Nanos(d) - Nanos(b) < c.maxInterval * NANOS;
      assert Nanos(b) - Nanos(a) < (c.maxDuration + 1) * NANOS;
      assert r * NANOS < (c.maxDuration + c.maxInterval + 1) * NANOS;
    }
  }

  /**
   * LongShortSplit partitions the packets: nothing is lost or reordered, no gap of maxInterval remains inside
   * a chunk, long chunks last more than maxDuration, and a chunk that is not the last is long exactly when the
   * gap after it is below maxInterval.
   */
  lemma LongShortPartition(c: DivisionParam, ps: seq<Packet>)
    requires ValidParam(c) && ps != []
    ensures var chunks := ChunksOf(c, ps);
            Contents(chunks) == ps && ChunksOk(c, chunks) && !chunks[|chunks| - 1].isLong
  {
    SplitInvariant(c, ps);
    var st := SplitRun(c, ps);
    ChunkAppends(c, st.chunks, Chunk(false, st.raw));
  }

  lemma AllNormalParts(a: seq<Packet>, b: seq<Packet>)
    requires AllNormal(a + b)
    ensures AllNormal(a) && AllNormal(b)
  {
    assert forall i :: 0 <= i < |a| ==> a[i] == (a + b)[i];
    assert forall i :: 0 <= i < |b| ==> b[i] == (a + b)[|a| + i];
  }

  /** No chunk, long or short, lasts more than maxDuration + maxInterval. */
  lemma {:induction false} ChunkDurations(c: DivisionParam, chunks: seq<Chunk>, k: nat)
    requires ChunksOk(c, chunks) && AllNormal(Contents(chunks)) && k < |chunks|
    ensures chunks[k].packets != []
    ensures Floor(Last(chunks[k].packets), chunks[k].packets[0]) <= c.maxDuration + c.maxInterval
    ensures chunks[k].isLong ==> Floor(Last(chunks[k].packets), chunks[k].packets[0]) > c.maxDuration
  {
    var n := |chunks| - 1;
    AllNormalParts(Contents(chunks[..n]), chunks[n].packets);
    if k < n {
      ChunkDurations(c, chunks[..n], k);
    } else {
      UnbrokenDuration(c, chunks[n].packets);
    }
  }

  /** The short chunks, and the long ones, in order. */
  lemma {:induction false} ChunksByKind(chunks: seq<Chunk>)
    ensures Shorts(chunks) == MapSeq((k: Chunk) => k.packets, Filter((k: Chunk) => !k.isLong, chunks))
    ensures Longs(chunks) == MapSeq((k: Chunk) => k.packets, Filter((k: Chunk) => k.isLong, chunks))
  {
    if chunks != [] {
      var n := |chunks| - 1;
      ChunksByKind(chunks[..n]);
    }
  }

  lemma ChunkOfPart(chunks: seq<Chunk>, isLong: bool, q: seq<Packet>) returns (k: nat)
    requires q in (if isLong then Longs(chunks) else Shorts(chunks))
    ensures k < |chunks| && chunks[k].isLong == isLong && chunks[k].packets == q
  {
    ChunksByKind(chunks);
    var kept := Filter((k: Chunk) => k.isLong == isLong, chunks);
    FilterMembers((k: Chunk) => k.isLong == isLong, chunks);
    if isLong {
      FilterSame((k: Chunk) => k.isLong, (k: Chunk) => k.isLong == isLong, chunks);
    } else {
      FilterSame((k: Chunk) => !k.isLong, (k: Chunk) => k.isLong == isLong, chunks);
    }
    var j :| 0 <= j < |kept| && kept[j].packets == q;
    assert kept[j] in kept;
    k :| 0 <= k < |chunks| && chunks[k] == kept[j];
  }

  /** Only a chunk that lasts more than maxDuration is long. */
  lemma LongsLast(c: DivisionParam, ps: seq<Packet>, q: seq<Packet>)
    requires ValidParam(c) && ps != [] && q in Longs(ChunksOf(c, ps))
    ensures q != [] && FloorDuration(q[|q| - 1].stamp, q[0].stamp) > c.maxDuration
  {
    hide ChunksOf;
    LongShortPartition(c, ps);
    var k := ChunkOfPart(ChunksOf(c, ps), true, q);
    EveryChunkOk(c, ChunksOf(c, ps), k);
  }

  lemma {:induction false} EveryChunkOk(c: DivisionParam, chunks: seq<Chunk>, k: nat)
    requires ChunksOk(c, chunks) && k < |chunks|
    ensures ChunkOk(c, chunks[k])
  {
    hide ChunkOk, EndedBy;
    if k < |chunks| - 1 {
      EveryChunkOk(c, chunks[..|chunks| - 1], k);
    }
  }

  lemma {:induction false} ShortsAndLongs(chunks: seq<Chunk>)
    ensures multiset(Flatten(Shorts(chunks))) + multiset(Flatten(Longs(chunks))) == multiset(Contents(chunks))
  {
    if chunks != [] {
      var n := |chunks| - 1;
      ShortsAndLongs(chunks[..n]);
      if chunks[n].isLong {
        assert Shorts(chunks) == Shorts(chunks[..n]);
        FlattenSnoc(Longs(chunks[..n]), chunks[n].packets);
      } else {
        assert Longs(chunks) == Longs(chunks[..n]);
        FlattenSnoc(Shorts(chunks[..n]), chunks[n].packets);
      }
    }
  }

  // ---------- SeparateBy5Tuple ----------

  function HashKey(): Packet -> nat {
    (p: Packet) => p.hash5tuple
  }

  function HasHash(h: nat): Packet -> bool {
    WithKey(HashKey(), h)
  }

  function HashesOf(ps: seq<Packet>): set<nat> {
    KeysOf<Packet, nat>(HashKey(), ps)
  }

  /** One flow per 5-tuple hash: its packets in capture order. */
  function FlowsOf(ps: seq<Packet>): (m: map<nat, seq<Packet>>)
    ensures m.Keys == HashesOf(ps)
  {
    GroupMap<Packet, nat>(HashKey(), ps)
  }

  function FlowsIn(m: map<nat, seq<Packet>>, order: seq<nat>): seq<seq<Packet>>
    requires forall h :: h in order ==> h in m
  {
    if order == [] then [] else FlowsIn(m, order[..|order| - 1]) + [m[order[|order| - 1]]]
  }

  lemma {:induction false} FlowsAreGroups(ps: seq<Packet>, order: seq<nat>)
    requires forall h :: h in order ==> h in HashesOf(ps)
    ensures FlowsIn(FlowsOf(ps), order) == Groups(HashKey(), ps, order)
  {
    if order != [] {
      FlowsAreGroups(ps, order[..|order| - 1]);
    }
  }

  /** The flows of a packet list, in the field of the packets: one per hash that occurs, in capture order. */
  lemma FlowsByHash(ps: seq<Packet>)
    ensures forall h :: h in FlowsOf(ps) <==> exists p :: p in ps && p.hash5tuple == h
    ensures forall h :: h in FlowsOf(ps) ==> FlowsOf(ps)[h] == Filter((p: Packet) => p.hash5tuple == h, ps)
  {
    forall h | h in FlowsOf(ps) ensures FlowsOf(ps)[h] == Filter((p: Packet) => p.hash5tuple == h, ps) {
      FilterSame(HasHash(h), (p: Packet) => p.hash5tuple == h, ps);
    }
  }

  /** Every packet is in the flow of its own hash, and in no other. */
  lemma FlowMembers(ps: seq<Packet>)
    ensures forall h, p :: h in FlowsOf(ps) ==> (p in FlowsOf(ps)[h] <==> p in ps && p.hash5tuple == h)
    ensures forall p :: p in ps ==> p.hash5tuple in FlowsOf(ps)
  {
    FlowsByHash(ps);
    forall h | h in FlowsOf(ps)
      ensures forall p :: p in FlowsOf(ps)[h] <==> p in ps && p.hash5tuple == h
    {
      FilterMembers((p: Packet) => p.hash5tuple == h, ps);
    }
  }

  /** Regrouping by 5-tuple keeps every packet, whatever order the flows are walked in. */
  lemma RegroupingKeepsPackets(ps: seq<Packet>, order: seq<nat>)
    requires WalkOrder(order, HashesOf(ps))
    ensures multiset(Flatten(FlowsIn(FlowsOf(ps), order))) == multiset(ps)
  {
    FlowsAreGroups(ps, order);
    GroupingKeeps(HashKey(), ps, order);
  }

  // ---------- StrictToBursts ----------

  /** Packets of one burst and its first-packet stamp, which is zero until set. */
  datatype Segment = Segment(packets: seq<Packet>, stamp: TimeSpec)

  datatype CutState = CutState(done: seq<Segment>, cur: Segment)

  function Sigs(ps: seq<Packet>): seq<int> {
    if ps == [] then [] else Sigs(ps[..|ps| - 1]) + [Last(ps).signedLen]
  }

  /** The histogram of a segment together with its two stamps. */
  function BurstOf(name: string, seg: Segment): BurstValue {
    AddAll(Empty(name), Sigs(seg.packets)).(
      firstStamp := seg.stamp,
      lastStamp := if seg.packets == [] then ZERO_STAMP else Last(seg.packets).stamp)
  }

  function Stamped(seg: Segment, p: Packet): Segment {
    if seg.stamp.sec == 0 then seg.(stamp := p.stamp) else seg
  }

  function NearDiff(seg: Segment, p: Packet): int {
    if seg.packets == [] then 0 else FloorDuration(p.stamp, Last(seg.packets).stamp)
  }

  function FarDiff(seg: Segment, p: Packet): int {
    if seg.packets == [] then 0 else FloorDuration(p.stamp, seg.stamp)
  }

  predicate MustCut(c: DivisionParam, name: string, seg: Segment, p: Packet) {
    BurstOf(name, seg).uniPktNum >= c.maxUniSig || NearDiff(seg, p) >= c.maxInterval || FarDiff(seg, p) >= c.maxDuration
  }

  function CutStep(c: DivisionParam, name: string, st: CutState, p: Packet): CutState {
    var cur := Stamped(st.cur, p);
    if MustCut(c, name, cur, p)
    then CutState(st.done + [cur], Segment([p], ZERO_STAMP))
    else CutState(st.done, cur.(packets := cur.packets + [p]))
  }

  lemma CutRunSnoc(c: DivisionParam, name: string, ps: seq<Packet>, k: nat)
    requires k < |ps|
    ensures CutRun(c, name, ps[..k + 1]) == CutStep(c, name, CutRun(c, name, ps[..k]), ps[k])
  {
    assert ps[..k + 1][..k] == ps[..k];
  }

  function CutRun(c: DivisionParam, name: string, ps: seq<Packet>): CutState {
    if ps == [] then CutState([], Segment([], ZERO_STAMP))
    else CutStep(c, name, CutRun(c, name, ps[..|ps| - 1]), Last(ps))
  }

  function SegmentsOf(c: DivisionParam, name: string, ps: seq<Packet>): seq<Segment> {
    CutRun(c, name, ps).done + [CutRun(c, name, ps).cur]
  }

  function BurstsOfSegments(name: string, segs: seq<Segment>): seq<BurstValue> {
    if segs == [] then [] else BurstsOfSegments(name, segs[..|segs| - 1]) + [BurstOf(name, segs[|segs| - 1])]
  }

  lemma BurstsSnoc(name: string, segs: seq<Segment>, seg: Segment)
    ensures BurstsOfSegments(name, segs + [seg]) == BurstsOfSegments(name, segs) + [BurstOf(name, seg)]
  {
    assert (segs + [seg])[..|segs|] == segs;
  }

  function SegmentContents(segs: seq<Segment>): seq<Packet> {
    if segs == [] then [] else SegmentContents(segs[..|segs| - 1]) + segs[|segs| - 1].packets
  }

  predicate GapsBelow(ps: seq<Packet>, bound: int) {
    var n := |ps| - 1;
    n >= 1 ==> GapsBelow(ps[..n], bound) && Floor(ps[n], ps[n - 1]) < bound
  }

  predicate SpansBelow(ps: seq<Packet>, bound: int) {
    forall k :: 0 <= k < |ps| ==> Floor(ps[k], ps[0]) < bound
  }

  /** Distinct signatures of a burst stay within the cap. */
  ghost predicate Capped(c: DivisionParam, ps: seq<Packet>) {
    |Seen(Sigs(ps))| <= c.maxUniSig
  }

  /** The stamp of a burst that has one already; StampFor gives the stamp of every burst of a call. */
  predicate StampRule(seg: Segment, first: bool)
    requires seg.packets != []
  {
    if first then seg.stamp == seg.packets[0].stamp
    else |seg.packets| >= 2 ==> seg.stamp == seg.packets[1].stamp
  }

  /** Every packet after the first comes less than bound seconds after the stamp. */
  predicate CloseTo(stamp: TimeSpec, ps: seq<Packet>, bound: int) {
    forall k :: 1 <= k < |ps| ==> FloorDuration(ps[k].stamp, stamp) < bound
  }

  /** What holds of a burst while it is filled; first tells whether it is the first of its call. */
  ghost predicate Growing(c: DivisionParam, seg: Segment, first: bool) {
    seg.packets != [] && AllTimed(seg.packets) && GapsBelow(seg.packets, c.maxInterval) && Capped(c, seg.packets) &&
    StampRule(seg, first) && (!first && |seg.packets| == 1 ==> seg.stamp == ZERO_STAMP) &&
    CloseTo(seg.stamp, seg.packets, c.maxDuration)
  }

  /** What holds of a finished burst. */
  ghost predicate Finished(c: DivisionParam, seg: Segment, first: bool) {
    seg.packets != [] && AllTimed(seg.packets) && GapsBelow(seg.packets, c.maxInterval) && Capped(c, seg.packets) &&
    StampRule(seg, first) &&
    SpansBelow(seg.packets, if first then c.maxDuration else c.maxDuration + c.maxInterval)
  }

  lemma {:induction false} GapAt(ps: seq<Packet>, bound: int, k: nat)
    requires GapsBelow(ps, bound) && 0 < k < |ps|
    ensures Floor(ps[k], ps[k - 1]) < bound
  {
    if k < |ps| - 1 {
      GapAt(ps[..|ps| - 1], bound, k);
    }
  }

  lemma GrowingIsBounded(c: DivisionParam, seg: Segment, first: bool)
    requires ValidParam(c) && Growing(c, seg, first)
    ensures Finished(c, seg, first)
  {
    var ps := seg.packets;
    var bound := if first then c.maxDuration else c.maxDuration + c.maxInterval;
    forall k | 0 <= k < |ps| ensures Floor(ps[k], ps[0]) < bound {
      if k > 0 && !first {
        GapAt(ps, c.maxInterval, 1);
        FloorChainsStrictly(ps[0].stamp, ps[1].stamp, ps[k].stamp, c.maxInterval, c.maxDuration);
      }
    }
  }

  lemma UniOfSegment(name: string, seg: Segment)
    requires |Seen(Sigs(seg.packets))| <= 255
    ensures BurstOf(name, seg).uniPktNum == |Seen(Sigs(seg.packets))|
  {
    AddAllDistinct(name, Sigs(seg.packets));
  }

  lemma SeenSnoc(sigs: seq<int>, s: int)
    ensures Seen(sigs + [s]) == Seen(sigs) + {s}
    ensures |Seen(sigs + [s])| <= |Seen(sigs)| + 1
  {
    assert Seen(sigs + [s]) == Seen(sigs) + {s};
  }

  lemma CappedStep(c: DivisionParam, name: string, seg: Segment, p: Packet)
    requires ValidParam(c) && Capped(c, seg.packets) && BurstOf(name, seg).uniPktNum < c.maxUniSig
    ensures Capped(c, seg.packets + [p])
  {
    var ps := seg.packets + [p];
    UniOfSegment(name, seg);
    SeenSnoc(Sigs(seg.packets), p.signedLen);
    assert ps[..|seg.packets|] == seg.packets;
    assert Sigs(ps) == Sigs(seg.packets) + [p.signedLen];
  }

  lemma GapsStep(ps: seq<Packet>, bound: int, p: Packet)
    requires ps != [] && GapsBelow(ps, bound) && Floor(p, Last(ps)) < bound
    ensures GapsBelow(ps + [p], bound)
  {
    assert (ps + [p])[..|ps|] == ps;
  }

  lemma TimedStep(stamp: TimeSpec, ps: seq<Packet>, bound: int, p: Packet)
    requires AllTimed(ps) && Normal(p.stamp) && p.stamp.sec >= 1
    requires CloseTo(stamp, ps, bound) && FloorDuration(p.stamp, stamp) < bound
    ensures AllTimed(ps + [p]) && CloseTo(stamp, ps + [p], bound)
  {
  }

  lemma StampKeepsClose(seg: Segment, first: bool, p: Packet, c: DivisionParam)
    requires Growing(c, seg, first)
    ensures CloseTo(Stamped(seg, p).stamp, seg.packets, c.maxDuration)
  {
    hide Capped, GapsBelow;
  }

  /** A packet that does not force a cut keeps the burst within all bounds. */
  lemma GrowthStep(c: DivisionParam, name: string, seg: Segment, first: bool, p: Packet)
    requires ValidParam(c) && Growing(c, seg, first) && Normal(p.stamp) && p.stamp.sec >= 1
    requires !MustCut(c, name, Stamped(seg, p), p)
    ensures Growing(c, Stamped(seg, p).(packets := seg.packets + [p]), first)
  {
    hide Capped, GapsBelow, BurstOf, AllTimed, CloseTo;
    var s := Stamped(seg, p);
    StampKeepsClose(seg, first, p, c);
    CappedStep(c, name, s, p);
    GapsStep(seg.packets, c.maxInterval, p);
    TimedStep(s.stamp, seg.packets, c.maxDuration, p);
  }

  lemma FreshSegmentGrows(c: DivisionParam, p: Packet)
    requires ValidParam(c) && Normal(p.stamp) && p.stamp.sec >= 1
    ensures Growing(c, Segment([p], ZERO_STAMP), false)
    ensures Growing(c, Segment([p], p.stamp), true)
  {
    assert [p][..0] == [];
    assert Sigs([p]) == [p.signedLen];
    SeenSnoc([], p.signedLen);
    assert [] + [p.signedLen] == [p.signedLen];
    assert |Seen([])| == 0;
  }

  /** Why a burst ended before p: its signatures are used up, the gap is too long, or its stamp too far back. */
  ghost predicate ForcedCut(c: DivisionParam, seg: Segment, p: Packet) {
    seg.packets != [] &&
    (|Seen(Sigs(seg.packets))| >= c.maxUniSig || Floor(p, Last(seg.packets)) >= c.maxInterval ||
     FloorDuration(p.stamp, seg.stamp) >= c.maxDuration)
  }

  /** The cut after the last of segs, if any, was forced by p, which also stamped a burst not stamped so far. */
  ghost predicate CutBefore(c: DivisionParam, segs: seq<Segment>, p: Packet) {
    segs != [] ==>
      var last := segs[|segs| - 1];
      ForcedCut(c, last, p) && (|segs| > 1 && |last.packets| == 1 ==> last.stamp == p.stamp)
  }

  /** Every burst of a call is within its bounds, only the first having the tighter one, and every cut was forced. */
  ghost predicate Segmented(c: DivisionParam, segs: seq<Segment>) {
    segs != [] ==>
      var n := |segs| - 1;
      Segmented(c, segs[..n]) && Finished(c, segs[n], n == 0) && CutBefore(c, segs[..n], segs[n].packets[0])
  }

  lemma MustCutIsForced(c: DivisionParam, name: string, seg: Segment, p: Packet)
    requires ValidParam(c) && seg.packets != [] && Capped(c, seg.packets) && MustCut(c, name, seg, p)
    ensures ForcedCut(c, seg, p)
  {
    UniOfSegment(name, seg);
  }

  /** Stamping a burst that was left unstamped changes none of its bounds. */
  lemma StampingFinishes(c: DivisionParam, seg: Segment, first: bool, p: Packet)
    requires ValidParam(c) && Growing(c, seg, first) && p.stamp.sec >= 1
    ensures Finished(c, Stamped(seg, p), first)
  {
    GrowingIsBounded(c, seg, first);
  }

  lemma {:induction false} CutInvariant(c: DivisionParam, name: string, ps: seq<Packet>)
    requires ValidParam(c) && ps != [] && AllTimed(ps)
    ensures var st := CutRun(c, name, ps);
            Segmented(c, st.done) && Growing(c, st.cur, st.done == []) && CutBefore(c, st.done, st.cur.packets[0]) &&
            SegmentContents(st.done) + st.cur.packets == ps
  {
    var n := |ps| - 1;
    var p := ps[n];
    FreshSegmentGrows(c, p);
    assert ps == ps[..n] + [p];
    if n == 0 {
      assert BurstOf(name, Segment([], p.stamp)).uniPktNum == 0;
      assert CutRun(c, name, ps[..n]) == CutState([], Segment([], ZERO_STAMP));
      assert CutRun(c, name, ps) == CutState([], Segment([p], p.stamp));
    } else {
      CutInvariant(c, name, ps[..n]);
      CutStepKeeps(c, name, CutRun(c, name, ps[..n]), p);
    }
  }

  lemma SegmentAppends(c: DivisionParam, segs: seq<Segment>, seg: Segment)
    requires Segmented(c, segs) && Finished(c, seg, segs == []) && CutBefore(c, segs, seg.packets[0])
    ensures Segmented(c, segs + [seg])
    ensures SegmentContents(segs + [seg]) == SegmentContents(segs) + seg.packets
  {
    assert (segs + [seg])[..|segs|] == segs;
  }

  lemma CutStepKeeps(c: DivisionParam, name: string, st: CutState, p: Packet)
    requires ValidParam(c) && Normal(p.stamp) && p.stamp.sec >= 1
    requires Segmented(c, st.done) && Growing(c, st.cur, st.done == []) && CutBefore(c, st.done, st.cur.packets[0])
    ensures var r := CutStep(c, name, st, p);
            Segmented(c, r.done) && Growing(c, r.cur, r.done == []) && CutBefore(c, r.done, r.cur.packets[0]) &&
            SegmentContents(r.done) + r.cur.packets == SegmentContents(st.done) + st.cur.packets + [p]
  {
    var cur := Stamped(st.cur, p);
    if MustCut(c, name, cur, p) {
      FreshSegmentGrows(c, p);
      StampingFinishes(c, st.cur, st.done == [], p);
      MustCutIsForced(c, name, cur, p);
      SegmentAppends(c, st.done, cur);
    } else {
      GrowthStep(c, name, st.cur, st.done == [], p);
      ConcatAssoc(SegmentContents(st.done), st.cur.packets, [p]);
    }
  }

  ghost predicate AllFilled(segs: seq<Segment>) {
    forall k :: 0 <= k < |segs| ==> segs[k].packets != []
  }

  /**
   * The stamp the code gives burst k of a call: its first packet's if it is the first burst; otherwise that of the
   * next packet processed after its first one, be it its own second packet or the next burst's first; or zero.
   */
  ghost function StampFor(segs: seq<Segment>, k: nat): TimeSpec
    requires AllFilled(segs) && k < |segs|
  {
    if k == 0 then segs[k].packets[0].stamp
    else if |segs[k].packets| >= 2 then segs[k].packets[1].stamp
    else if k + 1 < |segs| then segs[k + 1].packets[0].stamp
    else ZERO_STAMP
  }

  lemma {:induction false} SegmentAt(c: DivisionParam, segs: seq<Segment>, k: nat)
    requires Segmented(c, segs) && k < |segs|
    ensures Finished(c, segs[k], k == 0)
    ensures k + 1 < |segs| ==> segs[k + 1].packets != [] && CutBefore(c, segs[..k + 1], segs[k + 1].packets[0])
  {
    hide CutBefore, AllTimed, GapsBelow, Capped, SpansBelow, StampRule;
    var n := |segs| - 1;
    if k < n {
      SegmentAt(c, segs[..n], k);
      if k == n - 1 {
        assert segs[..k + 1] == segs[..n];
      } else {
        assert segs[..n][..k + 1] == segs[..k + 1];
      }
    }
  }

  lemma StampAt(c: DivisionParam, segs: seq<Segment>, k: nat)
    requires Segmented(c, segs) && AllFilled(segs) && k < |segs|
    requires k == |segs| - 1 > 0 && |segs[k].packets| == 1 ==> segs[k].stamp == ZERO_STAMP
    ensures segs[k].stamp == StampFor(segs, k)
  {
    hide Segmented, AllTimed, GapsBelow, Capped, SpansBelow, ForcedCut;
    SegmentAt(c, segs, k);
  }

  /**
   * StrictToBursts as written: the bursts' packets concatenate to the input, consecutive packets of a burst are
   * less than maxInterval apart, the first burst spans less than maxDuration and every later one less than
   * maxDuration + maxInterval, the extra seconds coming from the late stamp; no burst ends before one of the three
   * rules forces it to; and every stamp is exactly the one described above.
   */
  lemma StrictTimeBounds(c: DivisionParam, name: string, ps: seq<Packet>)
    requires ValidParam(c) && ps != [] && AllTimed(ps)
    ensures SegmentContents(SegmentsOf(c, name, ps)) == ps
    ensures Segmented(c, SegmentsOf(c, name, ps)) && AllFilled(SegmentsOf(c, name, ps))
    ensures forall k :: 0 <= k < |SegmentsOf(c, name, ps)| ==>
              SegmentsOf(c, name, ps)[k].stamp == StampFor(SegmentsOf(c, name, ps), k)
  {
    hide Finished;
    CutInvariant(c, name, ps);
    var st := CutRun(c, name, ps);
    var segs := SegmentsOf(c, name, ps);
    assert segs[..|st.done|] == st.done;
    GrowingIsBounded(c, st.cur, st.done == []);
    assert Segmented(c, segs);
    forall k | 0 <= k < |segs| ensures segs[k].packets != [] {
      SegmentFilled(c, segs, k);
    }
    forall k | 0 <= k < |segs| ensures segs[k].stamp == StampFor(segs, k) {
      StampAt(c, segs, k);
    }
  }

  lemma SegmentFilled(c: DivisionParam, segs: seq<Segment>, k: nat)
    requires Segmented(c, segs) && k < |segs|
    ensures segs[k].packets != []
  {
    SegmentAt(c, segs, k);
  }

  // ---------- two runs that reach the bounds ----------

  function At(sec: int, nsec: int): Packet {
    Packet(0, 60, 0, TimeSpec(sec, nsec))
  }

  lemma {:induction false} FewSigs(ps: seq<Packet>)
    ensures |Seen(Sigs(ps))| <= |ps|
  {
    if ps != [] {
      FewSigs(ps[..|ps| - 1]);
      SeenSnoc(Sigs(ps[..|ps| - 1]), Last(ps).signedLen);
    } else {
      assert Seen(Sigs(ps)) == {};
    }
  }

  /** With fewer packets than the cap, only the two time rules can cut. */
  lemma TimeRulesCut(c: DivisionParam, name: string, seg: Segment, p: Packet)
    requires |seg.packets| < c.maxUniSig
    ensures MustCut(c, name, seg, p) <==> NearDiff(seg, p) >= c.maxInterval || FarDiff(seg, p) >= c.maxDuration
  {
    FewSigs(seg.packets);
    UniOfSegment(name, seg);
  }

  function TimeStep(c: DivisionParam, st: CutState, p: Packet): CutState {
    var cur := Stamped(st.cur, p);
    if NearDiff(cur, p) >= c.maxInterval || FarDiff(cur, p) >= c.maxDuration
    then CutState(st.done + [cur], Segment([p], ZERO_STAMP))
    else CutState(st.done, cur.(packets := cur.packets + [p]))
  }

  /** One step of a run, when fewer packets than the cap are collected. */
  lemma StepByTime(c: DivisionParam, name: string, ps: seq<Packet>, p: Packet, st: CutState)
    requires CutRun(c, name, ps) == st && |st.cur.packets| < c.maxUniSig
    ensures CutRun(c, name, ps + [p]) == TimeStep(c, st, p)
    ensures SegmentsOf(c, name, ps + [p]) == TimeStep(c, st, p).done + [TimeStep(c, st, p).cur]
  {
    assert (ps + [p])[..|ps|] == ps;
    TimeRulesCut(c, name, Stamped(st.cur, p), p);
  }

  lemma NothingCut(c: DivisionParam, name: string)
    ensures CutRun(c, name, []) == CutState([], Segment([], ZERO_STAMP))
  {
  }

  /** Limits of one second each: the second burst spans one whole second, the most the bounds allow. */
  lemma LateStampWitness(name: string)
    ensures SegmentsOf(DivisionParam(1, 1, 50), name,
                       [At(10, 0), At(20, 0), At(20, 900_000_000), At(21, 800_000_000)]) ==
              [Segment([At(10, 0)], TimeSpec(10, 0)),
               Segment([At(20, 0), At(20, 900_000_000), At(21, 800_000_000)], TimeSpec(20, 900_000_000))]
    ensures Floor(At(21, 800_000_000), At(20, 0)) == 1 + 1 - 1
  {
    hide CutRun, SegmentsOf;
    NothingCut(DivisionParam(1, 1, 50), name);
    var c := DivisionParam(1, 1, 50);
    var p, q, r, t := At(10, 0), At(20, 0), At(20, 900_000_000), At(21, 800_000_000);
    StepByTime(c, name, [], p, CutState([], Segment([], ZERO_STAMP)));
    assert [] + [p] == [p];
    var first := Segment([p], p.stamp);
    StepByTime(c, name, [p], q, CutState([], first));
    assert [p] + [q] == [p, q] && [] + [first] == [first];
    StepByTime(c, name, [p, q], r, CutState([first], Segment([q], ZERO_STAMP)));
    assert [p, q] + [r] == [p, q, r] && [q] + [r] == [q, r];
    StepByTime(c, name, [p, q, r], t, CutState([first], Segment([q, r], r.stamp)));
    assert [p, q, r] + [t] == [p, q, r, t] && [q, r] + [t] == [q, r, t];
  }

  /** Three packets ten seconds apart: the second burst carries the third packet's stamp, and the third burst none. */
  lemma OnePacketWitness(name: string)
    ensures SegmentsOf(DivisionParam(2, 15, 50), name, [At(10, 0), At(20, 0), At(30, 0)]) ==
              [Segment([At(10, 0)], TimeSpec(10, 0)),
               Segment([At(20, 0)], TimeSpec(30, 0)),
               Segment([At(30, 0)], ZERO_STAMP)]
  {
    hide CutRun, SegmentsOf;
    NothingCut(DivisionParam(2, 15, 50), name);
    var c := DivisionParam(2, 15, 50);
    var p, q, r := At(10, 0), At(20, 0), At(30, 0);
    StepByTime(c, name, [], p, CutState([], Segment([], ZERO_STAMP)));
    assert [] + [p] == [p];
    var first, second := Segment([p], p.stamp), Segment([q], r.stamp);
    StepByTime(c, name, [p], q, CutState([], first));
    assert [p] + [q] == [p, q] && [] + [first] == [first];
    StepByTime(c, name, [p, q], r, CutState([first], Segment([q], ZERO_STAMP)));
    assert [p, q] + [r] == [p, q, r] && [first] + [second] == [first, second];
  }
}
