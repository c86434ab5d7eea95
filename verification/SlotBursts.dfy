/** What DeviceBurstGenerator makes of one slot: its bursts as a multiset, what they conserve, how they are bounded. */
module SlotBursts {
  import opened Collections
  import opened Packets
  import opened BurstValues
  import opened Segmentation

  // ---------- conservation through the cuts ----------

  lemma ChunksTakeAll(c: DivisionParam, ps: seq<Packet>)
    ensures Contents(ChunksOf(c, ps)) == ps
  {
    SplitTakesAll(c, ps);
    assert ChunksOf(c, ps)[..|ChunksOf(c, ps)| - 1] == SplitRun(c, ps).chunks;
  }

  function Held(st: CutState): seq<Packet> {
    SegmentContents(st.done) + st.cur.packets
  }

  lemma CutStepHolds(c: DivisionParam, name: string, st: CutState, p: Packet)
    ensures Held(CutStep(c, name, st, p)) == Held(st) + [p]
  {
    if MustCut(c, name, Stamped(st.cur, p), p) {
      assert CutStep(c, name, st, p).done[..|st.done|] == st.done;
    } else {
      assert SegmentContents(st.done) + (st.cur.packets + [p]) == SegmentContents(st.done) + st.cur.packets + [p];
    }
  }

  lemma NothingHeld(c: DivisionParam, name: string)
    ensures Held(CutRun(c, name, [])) == []
  {
  }

  lemma {:induction false} CutHoldsAll(c: DivisionParam, name: string, ps: seq<Packet>)
    ensures Held(CutRun(c, name, ps)) == ps
  {
    hide CutRun, CutStep, Held;
    if ps == [] {
      NothingHeld(c, name);
    } else {
      var n := |ps| - 1;
      CutHoldsAll(c, name, ps[..n]);
      CutStepHolds(c, name, CutRun(c, name, ps[..n]), ps[n]);
      CutRunSnoc(c, name, ps, n);
      assert ps[..n] + [ps[n]] == ps && ps[..n + 1] == ps;
    }
  }

  lemma SegmentsHoldAll(c: DivisionParam, name: string, ps: seq<Packet>)
    ensures SegmentContents(SegmentsOf(c, name, ps)) == ps
  {
    CutHoldsAll(c, name, ps);
    assert SegmentsOf(c, name, ps)[..|SegmentsOf(c, name, ps)| - 1] == CutRun(c, name, ps).done;
  }

  lemma {:induction false} SigsConcat(a: seq<Packet>, b: seq<Packet>)
    ensures Sigs(a + b) == Sigs(a) + Sigs(b)
  {
    if b == [] {
      assert a + b == a;
    } else {
      SigsConcat(a, b[..|b| - 1]);
      assert (a + b)[..|a + b| - 1] == a + b[..|b| - 1];
    }
  }

  lemma {:induction false} SigsLength(ps: seq<Packet>)
    ensures |Sigs(ps)| == |ps|
  {
    if ps != [] {
      SigsLength(ps[..|ps| - 1]);
    }
  }

  lemma BurstOfCounts(name: string, seg: Segment, s: int)
    ensures Counted(BurstOf(name, seg))
    ensures CountOf(BurstOf(name, seg).detail, s) == Occurrences(Sigs(seg.packets), s)
    ensures BurstOf(name, seg).pktNum == |seg.packets|
  {
    AddAllCounts(Empty(name), Sigs(seg.packets), s);
    SigsLength(seg.packets);
  }

  lemma {:induction false} SegmentsConserve(name: string, segs: seq<Segment>, s: int)
    ensures SumCounts(BurstsOfSegments(name, segs), s) == Occurrences(Sigs(SegmentContents(segs)), s)
    ensures SumPkts(BurstsOfSegments(name, segs)) == |SegmentContents(segs)|
  {
    if segs != [] {
      var n := |segs| - 1;
      SegmentsConserve(name, segs[..n], s);
      BurstOfCounts(name, segs[n], s);
      SigsConcat(SegmentContents(segs[..n]), segs[n].packets);
      OccurrencesConcat(Sigs(SegmentContents(segs[..n])), Sigs(segs[n].packets), s);
    }
  }

  // ---------- the bursts of one slot ----------

  /** The packet lists handed to StrictToBursts: the short chunks, then the flows in the order they are walked. */
  function Parts(c: DivisionParam, ps: seq<Packet>, order: seq<nat>): seq<seq<Packet>>
    requires forall h :: h in order ==> h in HashesOf(LongPackets(c, ps))
  {
    Shorts(ChunksOf(c, ps)) + FlowsIn(FlowsOf(LongPackets(c, ps)), order)
  }

  function LongPackets(c: DivisionParam, ps: seq<Packet>): seq<Packet> {
    Flatten(Longs(ChunksOf(c, ps)))
  }

  function CutPart(c: DivisionParam, name: string): seq<Packet> -> seq<BurstValue> {
    (part: seq<Packet>) => BurstsOfSegments(name, SegmentsOf(c, name, part))
  }

  /** All bursts cut from the parts, in the order they are made. */
  function RawBursts(c: DivisionParam, name: string, parts: seq<seq<Packet>>): seq<BurstValue> {
    FlatMap(CutPart(c, name), parts)
  }

  predicate StampLeq(a: TimeSpec, b: TimeSpec) {
    a.sec < b.sec || (a.sec == b.sec && a.nsec <= b.nsec)
  }

  predicate SortedByStamp(vals: seq<BurstValue>) {
    forall i, j :: 0 <= i < j < |vals| ==> StampLeq(vals[i].firstStamp, vals[j].firstStamp)
  }

  /** vals is a possible outcome of the generator for the packets ps of the device called name. */
  ghost predicate Generates(c: DivisionParam, name: string, ps: seq<Packet>, vals: seq<BurstValue>) {
    SortedByStamp(vals) &&
    exists order :: WalkOrder(order, HashesOf(LongPackets(c, ps))) &&
                    multiset(vals) == multiset(MapSeq(Canon, RawBursts(c, name, Parts(c, ps, order))))
  }

  lemma {:induction false} SumConcat(a: seq<BurstValue>, b: seq<BurstValue>, s: int)
    ensures SumCounts(a + b, s) == SumCounts(a, s) + SumCounts(b, s)
    ensures SumPkts(a + b) == SumPkts(a) + SumPkts(b)
  {
    if b == [] {
      assert a + b == a;
    } else {
      SumConcat(a, b[..|b| - 1], s);
      assert (a + b)[..|a + b| - 1] == a + b[..|b| - 1];
    }
  }

  lemma {:induction false} SumPermutes(a: seq<BurstValue>, b: seq<BurstValue>, s: int)
    requires multiset(a) == multiset(b)
    ensures SumCounts(a, s) == SumCounts(b, s) && SumPkts(a) == SumPkts(b)
    decreases |a|
  {
    SamePermutationLength(a, b);
    if a != [] {
      var k := PermutedIndex(a, b);
      SumPermutes(a[..|a| - 1], b[..k] + b[k + 1..], s);
      SumConcat(b[..k], b[k + 1..], s);
      SumConcat(b[..k + 1], b[k + 1..], s);
      assert b == b[..k + 1] + b[k + 1..];
      assert b[..k + 1][..k] == b[..k];
    }
  }

  lemma {:induction false} CanonConserves(vals: seq<BurstValue>, s: int)
    ensures SumCounts(MapSeq(Canon, vals), s) == SumCounts(vals, s)
    ensures SumPkts(MapSeq(Canon, vals)) == SumPkts(vals)
  {
    if vals != [] {
      var n := |vals| - 1;
      CanonConserves(vals[..n], s);
      assert MapSeq(Canon, vals)[..n] == MapSeq(Canon, vals[..n]);
      SortKeepsCounts(vals[n].detail, s);
    }
  }

  lemma {:induction false} PartsConserve(c: DivisionParam, name: string, parts: seq<seq<Packet>>, s: int)
    ensures SumCounts(RawBursts(c, name, parts), s) == Occurrences(Sigs(Flatten(parts)), s)
    ensures SumPkts(RawBursts(c, name, parts)) == |Flatten(parts)|
  {
    if parts != [] {
      var n := |parts| - 1;
      var segs := SegmentsOf(c, name, parts[n]);
      PartsConserve(c, name, parts[..n], s);
      SegmentsHoldAll(c, name, parts[n]);
      SegmentsConserve(name, segs, s);
      SumConcat(RawBursts(c, name, parts[..n]), BurstsOfSegments(name, segs), s);
      SigsConcat(Flatten(parts[..n]), parts[n]);
      OccurrencesConcat(Sigs(Flatten(parts[..n])), Sigs(parts[n]), s);
    }
  }

  function HasSigned(s: int): Packet -> bool {
    (p: Packet) => p.signedLen == s
  }

  lemma {:induction false} OccurrencesByFilter(ps: seq<Packet>, s: int)
    ensures Occurrences(Sigs(ps), s) == |Filter(HasSigned(s), ps)|
  {
    if ps != [] {
      OccurrencesByFilter(ps[..|ps| - 1], s);
    }
  }

  lemma OccurrencesPermute(a: seq<Packet>, b: seq<Packet>, s: int)
    requires multiset(a) == multiset(b)
    ensures Occurrences(Sigs(a), s) == Occurrences(Sigs(b), s)
  {
    OccurrencesByFilter(a, s);
    OccurrencesByFilter(b, s);
    FilterPermutes(HasSigned(s), a, b);
    SamePermutationLength(Filter(HasSigned(s), a), Filter(HasSigned(s), b));
  }

  /** The parts together are a rearrangement of the slot's packets. */
  lemma PartsRearrange(c: DivisionParam, ps: seq<Packet>, order: seq<nat>)
    requires WalkOrder(order, HashesOf(LongPackets(c, ps)))
    ensures multiset(Flatten(Parts(c, ps, order))) == multiset(ps)
  {
    var chunks := ChunksOf(c, ps);
    ChunksTakeAll(c, ps);
    ShortsAndLongs(chunks);
    RegroupingKeepsPackets(LongPackets(c, ps), order);
    FlattenConcat(Shorts(chunks), FlowsIn(FlowsOf(LongPackets(c, ps)), order));
  }

  /**
   * Per-slot conservation: through the gap and duration cut, the 5-tuple regrouping, the re-cut and both sorts,
   * the bursts' counts of every signature add up to its occurrences among the slot's packets.
   */
  lemma SlotConserves(c: DivisionParam, name: string, ps: seq<Packet>, vals: seq<BurstValue>, s: int)
    requires Generates(c, name, ps, vals)
    ensures SumCounts(vals, s) == Occurrences(Sigs(ps), s)
    ensures SumPkts(vals) == |ps|
  {
    var order :| WalkOrder(order, HashesOf(LongPackets(c, ps))) &&
                 multiset(vals) == multiset(MapSeq(Canon, RawBursts(c, name, Parts(c, ps, order))));
    var parts := Parts(c, ps, order);
    var raws := RawBursts(c, name, parts);
    SumPermutes(vals, MapSeq(Canon, raws), s);
    CanonConserves(raws, s);
    PartsConserve(c, name, parts, s);
    PartsRearrange(c, ps, order);
    OccurrencesPermute(Flatten(parts), ps, s);
    SamePermutationLength(Flatten(parts), ps);
  }

  // ---------- what holds of every single burst ----------

  /** A burst the rest of the program can rely on. */
  ghost predicate GoodBurst(c: DivisionParam, name: string, v: BurstValue) {
    Sound(v) && v.instanceLabel == name && 1 <= v.uniPktNum <= c.maxUniSig && v.pktNum >= 1
  }

  ghost predicate AllGood(c: DivisionParam, name: string, vals: seq<BurstValue>) {
    forall v :: v in vals ==> GoodBurst(c, name, v)
  }

  lemma GoodConcat(c: DivisionParam, name: string, a: seq<BurstValue>, b: seq<BurstValue>)
    requires AllGood(c, name, a) && AllGood(c, name, b)
    ensures AllGood(c, name, a + b)
  {
  }

  ghost predicate Small(c: DivisionParam, segs: seq<Segment>) {
    forall k :: 0 <= k < |segs| ==> segs[k].packets != [] && Capped(c, segs[k].packets)
  }

  ghost predicate SmallState(c: DivisionParam, st: CutState) {
    Small(c, st.done) && st.cur.packets != [] && Capped(c, st.cur.packets)
  }

  lemma SmallAppends(c: DivisionParam, segs: seq<Segment>, seg: Segment)
    requires Small(c, segs) && seg.packets != [] && Capped(c, seg.packets)
    ensures Small(c, segs + [seg])
  {
  }

  lemma OnePacketCapped(c: DivisionParam, p: Packet)
    requires ValidParam(c)
    ensures Capped(c, [p])
  {
    assert [p][..0] == [];
    assert Sigs([p]) == [] + [p.signedLen];
    SeenSnoc([], p.signedLen);
  }

  lemma CutStepStaysSmall(c: DivisionParam, name: string, st: CutState, p: Packet)
    requires ValidParam(c) && SmallState(c, st)
    ensures SmallState(c, CutStep(c, name, st, p))
  {
    var cur := Stamped(st.cur, p);
    OnePacketCapped(c, p);
    if MustCut(c, name, cur, p) {
      SmallAppends(c, st.done, cur);
    } else {
      CappedStep(c, name, cur, p);
    }
  }

  lemma {:induction false} CutStaysSmall(c: DivisionParam, name: string, ps: seq<Packet>)
    requires ValidParam(c) && ps != []
    ensures SmallState(c, CutRun(c, name, ps))
  {
    var n := |ps| - 1;
    var p := ps[n];
    if n > 0 {
      CutStaysSmall(c, name, ps[..n]);
      CutStepStaysSmall(c, name, CutRun(c, name, ps[..n]), p);
    } else {
      OnePacketCapped(c, p);
      assert CutRun(c, name, ps[..n]) == CutState([], Segment([], ZERO_STAMP));
      assert BurstOf(name, Segment([], p.stamp)).uniPktNum == 0;
      assert CutRun(c, name, ps) == CutState([], Segment([p], p.stamp));
    }
  }

  lemma BurstOfIsGood(c: DivisionParam, name: string, seg: Segment)
    requires ValidParam(c) && seg.packets != [] && Capped(c, seg.packets)
    ensures GoodBurst(c, name, BurstOf(name, seg))
  {
    AddAllDistinct(name, Sigs(seg.packets));
    AddAllKeepsName(Empty(name), Sigs(seg.packets));
    BurstOfCounts(name, seg, 0);
    assert Total(BurstOf(name, seg).detail) > 0;
  }

  lemma {:induction false} SegmentBurstsGood(c: DivisionParam, name: string, segs: seq<Segment>)
    requires ValidParam(c) && Small(c, segs)
    ensures AllGood(c, name, BurstsOfSegments(name, segs))
  {
    if segs != [] {
      var n := |segs| - 1;
      SegmentBurstsGood(c, name, segs[..n]);
      BurstOfIsGood(c, name, segs[n]);
      GoodConcat(c, name, BurstsOfSegments(name, segs[..n]), [BurstOf(name, segs[n])]);
    }
  }

  lemma {:induction false} RawBurstsGood(c: DivisionParam, name: string, parts: seq<seq<Packet>>)
    requires ValidParam(c) && NoneEmpty(parts)
    ensures AllGood(c, name, RawBursts(c, name, parts))
  {
    if parts != [] {
      var n := |parts| - 1;
      assert parts[n] in parts && forall q :: q in parts[..n] ==> q in parts;
      RawBurstsGood(c, name, parts[..n]);
      CutStaysSmall(c, name, parts[n]);
      SmallAppends(c, CutRun(c, name, parts[n]).done, CutRun(c, name, parts[n]).cur);
      SegmentBurstsGood(c, name, SegmentsOf(c, name, parts[n]));
      GoodConcat(c, name, RawBursts(c, name, parts[..n]), BurstsOfSegments(name, SegmentsOf(c, name, parts[n])));
    }
  }

  predicate NoneEmpty(parts: seq<seq<Packet>>) {
    forall q :: q in parts ==> q != []
  }

  lemma {:induction false} ShortsNonEmpty(c: DivisionParam, chunks: seq<Chunk>)
    requires ChunksOk(c, chunks)
    ensures NoneEmpty(Shorts(chunks))
  {
    if chunks != [] {
      ShortsNonEmpty(c, chunks[..|chunks| - 1]);
    }
  }

  lemma {:induction false} FlowsNonEmpty(ps: seq<Packet>, order: seq<nat>)
    requires forall h :: h in order ==> h in HashesOf(ps)
    ensures NoneEmpty(FlowsIn(FlowsOf(ps), order))
  {
    if order != [] {
      var h := order[|order| - 1];
      FlowsNonEmpty(ps, order[..|order| - 1]);
      assert h in order;
      var p :| p in ps && p.hash5tuple == h;
      FilterMembers(HasHash(h), ps);
      assert p in Filter(HasHash(h), ps);
    }
  }

  lemma PartsNonEmpty(c: DivisionParam, ps: seq<Packet>, order: seq<nat>)
    requires ValidParam(c) && ps != [] && forall h :: h in order ==> h in HashesOf(LongPackets(c, ps))
    ensures NoneEmpty(Parts(c, ps, order))
  {
    LongShortPartition(c, ps);
    ShortsNonEmpty(c, ChunksOf(c, ps));
    FlowsNonEmpty(LongPackets(c, ps), order);
  }

  /** Sorting keeps good bursts good, and a rearrangement of good bursts consists of good bursts. */
  lemma CanonBurstsGood(c: DivisionParam, name: string, raws: seq<BurstValue>, vals: seq<BurstValue>)
    requires multiset(vals) == multiset(MapSeq(Canon, raws))
    requires AllGood(c, name, raws)
    ensures forall k :: 0 <= k < |vals| ==> GoodBurst(c, name, vals[k]) && SortedBySig(vals[k].detail)
  {
    forall k | 0 <= k < |vals| ensures GoodBurst(c, name, vals[k]) && SortedBySig(vals[k].detail) {
      assert vals[k] in multiset(MapSeq(Canon, raws));
      var i :| 0 <= i < |raws| && MapSeq(Canon, raws)[i] == vals[k];
      assert raws[i] in raws;
      CanonIsSound(raws[i]);
    }
  }

  /**
   * Every burst generated from a non-empty list for a named device passes Validate, has between one and
   * maxUniSig signatures and at least one packet, and has its entries in order.
   */
  lemma SlotBurstsGood(c: DivisionParam, name: string, ps: seq<Packet>, vals: seq<BurstValue>)
    requires ValidParam(c) && ps != [] && Generates(c, name, ps, vals)
    ensures forall k :: 0 <= k < |vals| ==> GoodBurst(c, name, vals[k]) && SortedBySig(vals[k].detail)
    ensures name != "" ==> forall k :: 0 <= k < |vals| ==> Acceptable(vals[k], c.maxUniSig)
  {
    var order :| WalkOrder(order, HashesOf(LongPackets(c, ps))) &&
                 multiset(vals) == multiset(MapSeq(Canon, RawBursts(c, name, Parts(c, ps, order))));
    var parts := Parts(c, ps, order);
    PartsNonEmpty(c, ps, order);
    RawBurstsGood(c, name, parts);
    CanonBurstsGood(c, name, RawBursts(c, name, parts), vals);
  }

  // ---------- where a burst's packets come from ----------

  /** v is the sorted histogram of some of the packets ps. */
  ghost predicate MadeFrom(name: string, ps: seq<Packet>, v: BurstValue) {
    exists seg: Segment :: v == Canon(BurstOf(name, seg)) && AllIn(seg.packets, ps)
  }

  ghost predicate AllIn(a: seq<Packet>, b: seq<Packet>) {
    forall p :: p in a ==> p in b
  }

  lemma {:induction false} SegmentWithin(segs: seq<Segment>, k: nat)
    requires k < |segs|
    ensures AllIn(segs[k].packets, SegmentContents(segs))
  {
    if k < |segs| - 1 {
      SegmentWithin(segs[..|segs| - 1], k);
    }
  }

  lemma {:induction false} BurstHasSegment(name: string, segs: seq<Segment>, v: BurstValue) returns (k: nat)
    requires v in BurstsOfSegments(name, segs)
    ensures k < |segs| && v == BurstOf(name, segs[k])
  {
    var n := |segs| - 1;
    if v == BurstOf(name, segs[n]) {
      k := n;
    } else {
      k := BurstHasSegment(name, segs[..n], v);
    }
  }

  /** Every burst comes from one of the parts. */
  lemma {:induction false} RawBurstFrom(c: DivisionParam, name: string, parts: seq<seq<Packet>>,
                                        v: BurstValue) returns (seg: Segment, part: seq<Packet>)
    requires v in RawBursts(c, name, parts)
    ensures v == BurstOf(name, seg) && part in parts && AllIn(seg.packets, part)
    ensures seg in SegmentsOf(c, name, part)
  {
    var n := |parts| - 1;
    var segs := SegmentsOf(c, name, parts[n]);
    if v in BurstsOfSegments(name, segs) {
      var k := BurstHasSegment(name, segs, v);
      seg, part := segs[k], parts[n];
      SegmentWithin(segs, k);
      SegmentsHoldAll(c, name, parts[n]);
    } else {
      seg, part := RawBurstFrom(c, name, parts[..n], v);
    }
  }

  lemma {:induction false} PartInFlat(parts: seq<seq<Packet>>, part: seq<Packet>)
    requires part in parts
    ensures AllIn(part, Flatten(parts))
  {
    var n := |parts| - 1;
    assert parts == parts[..n] + [parts[n]];
    if part in parts[..n] {
      PartInFlat(parts[..n], part);
    }
  }

  /** Where a burst of a slot was cut from. */
  lemma BurstHasPart(c: DivisionParam, name: string, ps: seq<Packet>, vals: seq<BurstValue>, v: BurstValue)
    returns (order: seq<nat>, seg: Segment, part: seq<Packet>)
    requires Generates(c, name, ps, vals) && v in vals
    ensures WalkOrder(order, HashesOf(LongPackets(c, ps))) && part in Parts(c, ps, order)
    ensures v == Canon(BurstOf(name, seg)) && AllIn(seg.packets, part) && seg in SegmentsOf(c, name, part)
  {
    order :| WalkOrder(order, HashesOf(LongPackets(c, ps))) &&
             multiset(vals) == multiset(MapSeq(Canon, RawBursts(c, name, Parts(c, ps, order))));
    hide Parts, RawBursts, HashesOf, LongPackets, BurstOf, Canon, SegmentsOf;
    var raws := RawBursts(c, name, Parts(c, ps, order));
    var i := SomeRawBurst(raws, vals, v);
    seg, part := RawBurstFrom(c, name, Parts(c, ps, order), raws[i]);
  }

  /** Every burst of a slot counts packets of that slot only. */
  lemma BurstsStayInSlot(c: DivisionParam, name: string, ps: seq<Packet>, vals: seq<BurstValue>, v: BurstValue)
    requires Generates(c, name, ps, vals) && v in vals
    ensures MadeFrom(name, ps, v)
  {
    hide Generates, Parts, HashesOf, LongPackets, BurstOf, Canon, Flatten, SegmentsOf;
    var order, seg, part := BurstHasPart(c, name, ps, vals, v);
    var parts := Parts(c, ps, order);
    PartInFlat(parts, part);
    PartsRearrange(c, ps, order);
    AllInRearranged(part, Flatten(parts), ps);
  }

  lemma {:induction false} FlowOfPart(m: map<nat, seq<Packet>>, order: seq<nat>, part: seq<Packet>) returns (h: nat)
    requires (forall g :: g in order ==> g in m) && part in FlowsIn(m, order)
    ensures h in m && part == m[h]
  {
    var n := |order| - 1;
    if part == m[order[n]] {
      h := order[n];
    } else {
      h := FlowOfPart(m, order[..n], part);
    }
  }

  lemma {:induction false} LongPacketFrom(parts: seq<seq<Packet>>, p: Packet) returns (part: seq<Packet>)
    requires p in Flatten(parts)
    ensures part in parts && p in part
  {
    var n := |parts| - 1;
    if p in parts[n] {
      part := parts[n];
    } else {
      part := LongPacketFrom(parts[..n], p);
    }
  }

  /**
   * No burst mixes flows: its packets all come from one short chunk, or all from long chunks and with the same 5-tuple
   * hash.
   */
  lemma BurstsStayInFlow(c: DivisionParam, name: string, ps: seq<Packet>, vals: seq<BurstValue>, v: BurstValue)
    returns (seg: Segment, k: nat)
    requires Generates(c, name, ps, vals) && v in vals
    ensures v == Canon(BurstOf(name, seg)) && k <= |ChunksOf(c, ps)|
    ensures k < |ChunksOf(c, ps)| ==>
              !ChunksOf(c, ps)[k].isLong && forall p :: p in seg.packets ==> p in ChunksOf(c, ps)[k].packets
    ensures k == |ChunksOf(c, ps)| ==>
              (forall p, q :: p in seg.packets && q in seg.packets ==> p.hash5tuple == q.hash5tuple) &&
              (forall p :: p in seg.packets ==>
                exists i :: 0 <= i < k && ChunksOf(c, ps)[i].isLong && p in ChunksOf(c, ps)[i].packets)
  {
    hide Generates, ChunksOf, HashesOf, BurstOf, Canon, SegmentsOf;
    var order, part;
    order, seg, part := BurstHasPart(c, name, ps, vals, v);
    if part in Shorts(ChunksOf(c, ps)) {
      k := ChunkOfPart(ChunksOf(c, ps), false, part);
    } else {
      k := |ChunksOf(c, ps)|;
      OneFlow(c, ps, order, part);
    }
  }

  lemma OneFlow(c: DivisionParam, ps: seq<Packet>, order: seq<nat>, part: seq<Packet>)
    requires (forall g :: g in order ==> g in FlowsOf(LongPackets(c, ps)))
    requires part in FlowsIn(FlowsOf(LongPackets(c, ps)), order)
    ensures forall p, q :: p in part && q in part ==> p.hash5tuple == q.hash5tuple
    ensures forall p :: p in part ==>
              exists i :: 0 <= i < |ChunksOf(c, ps)| && ChunksOf(c, ps)[i].isLong && p in ChunksOf(c, ps)[i].packets
  {
    hide ChunksOf, FlowsOf, FlowsIn, Longs, Flatten;
    FlowMembers(LongPackets(c, ps));
    var h := FlowOfPart(FlowsOf(LongPackets(c, ps)), order, part);
    forall p | p in part
      ensures exists i :: 0 <= i < |ChunksOf(c, ps)| && ChunksOf(c, ps)[i].isLong && p in ChunksOf(c, ps)[i].packets
    {
      var q := LongPacketFrom(Longs(ChunksOf(c, ps)), p);
      var i := ChunkOfPart(ChunksOf(c, ps), true, q);
    }
  }

  lemma AllInRearranged(a: seq<Packet>, b: seq<Packet>, c: seq<Packet>)
    requires AllIn(a, b) && multiset(b) == multiset(c)
    ensures AllIn(a, c)
  {
    forall p | p in a ensures p in c {
      assert p in multiset(b);
    }
  }

  lemma SomeRawBurst(raws: seq<BurstValue>, vals: seq<BurstValue>, v: BurstValue) returns (i: nat)
    requires multiset(vals) == multiset(MapSeq(Canon, raws)) && v in vals
    ensures i < |raws| && v == Canon(raws[i])
  {
    hide Canon;
    assert v in multiset(MapSeq(Canon, raws));
    i :| 0 <= i < |raws| && MapSeq(Canon, raws)[i] == v;
  }

  // ---------- the order of the bursts ----------

  lemma StampsInNanos(a: TimeSpec, b: TimeSpec)
    requires Normal(a) && Normal(b)
    ensures StampLeq(a, b) <==> Nanos(a) <= Nanos(b)
  {
  }

  predicate StampsNormal(segs: seq<Segment>) {
    forall k :: 0 <= k < |segs| ==> Normal(segs[k].stamp)
  }

  lemma {:induction false} CutKeepsNormal(c: DivisionParam, name: string, ps: seq<Packet>)
    requires AllNormal(ps)
    ensures StampsNormal(CutRun(c, name, ps).done) && Normal(CutRun(c, name, ps).cur.stamp)
  {
    if ps != [] {
      var n := |ps| - 1;
      hide MustCut;
      CutKeepsNormal(c, name, ps[..n]);
    }
  }

  lemma PartNormal(c: DivisionParam, ps: seq<Packet>, order: seq<nat>, part: seq<Packet>)
    requires AllNormal(ps) && WalkOrder(order, HashesOf(LongPackets(c, ps))) && part in Parts(c, ps, order)
    ensures AllNormal(part)
  {
    hide Parts, LongPackets, HashesOf, Flatten;
    PartInFlat(Parts(c, ps, order), part);
    PartsRearrange(c, ps, order);
    AllInRearranged(part, Flatten(Parts(c, ps, order)), ps);
    forall k | 0 <= k < |part| ensures Normal(part[k].stamp) {
      assert part[k] in part;
    }
  }

  lemma BurstStampNormal(c: DivisionParam, name: string, ps: seq<Packet>, vals: seq<BurstValue>, v: BurstValue)
    requires Generates(c, name, ps, vals) && v in vals && AllNormal(ps)
    ensures Normal(v.firstStamp)
  {
    hide Generates, Parts, HashesOf, LongPackets, CutRun;
    var order, seg, part := BurstHasPart(c, name, ps, vals, v);
    PartNormal(c, ps, order, part);
    CutKeepsNormal(c, name, part);
  }

  /** The entries of every burst come in ascending signatures. */
  lemma EntriesInOrder(c: DivisionParam, name: string, ps: seq<Packet>, vals: seq<BurstValue>, v: BurstValue)
    requires Generates(c, name, ps, vals) && v in vals
    ensures forall k, l :: 0 <= k < l < |v.detail| ==> v.detail[k].sig <= v.detail[l].sig
  {
    hide Generates, HashesOf, LongPackets, Parts, SegmentsOf, BurstOf;
    var order, seg, part := BurstHasPart(c, name, ps, vals, v);
    SortFacts(BurstOf(name, seg).detail);
  }

  /** The bursts of a slot come in ascending first-packet times. */
  lemma SlotBurstsInOrder(c: DivisionParam, name: string, ps: seq<Packet>, vals: seq<BurstValue>, i: nat, j: nat)
    requires Generates(c, name, ps, vals) && AllNormal(ps) && i < j < |vals|
    ensures Nanos(vals[i].firstStamp) <= Nanos(vals[j].firstStamp)
  {
    hide HashesOf, LongPackets, Parts, RawBursts;
    BurstStampNormal(c, name, ps, vals, vals[i]);
    BurstStampNormal(c, name, ps, vals, vals[j]);
    StampsInNanos(vals[i].firstStamp, vals[j].firstStamp);
  }
}
