/** The DeviceBurstGenerator of src/DeviceBurstGenerator.cpp, its containers filled step by step. */
module Generator {
  import opened Collections
  import opened Packets
  import opened BurstValues
  import opened Segmentation
  import opened SlotBursts
  import opened Bursts

  /** operator< on first-packet stamps. */
  predicate Earlier(a: TimeSpec, b: TimeSpec) {
    a.sec < b.sec || (a.sec == b.sec && a.nsec < b.nsec)
  }

  ghost predicate StampSorted(bs: seq<Burst>)
    reads bs
  {
    forall i, j :: 0 <= i < j < |bs| ==> StampLeq(bs[i].firstPacketStamp, bs[j].firstPacketStamp)
  }

  /** Where b goes in a sorted list: after every burst that is not later. */
  method FindPlace(r: seq<Burst>, b: Burst) returns (k: nat)
    requires StampSorted(r)
    ensures k <= |r|
    ensures forall m :: 0 <= m < k ==> StampLeq(r[m].firstPacketStamp, b.firstPacketStamp)
    ensures forall m :: k <= m < |r| ==> StampLeq(b.firstPacketStamp, r[m].firstPacketStamp)
  {
    k := |r|;
    while k > 0 && Earlier(b.firstPacketStamp, r[k - 1].firstPacketStamp)
      invariant 0 <= k <= |r|
      invariant forall m :: k <= m < |r| ==> StampLeq(b.firstPacketStamp, r[m].firstPacketStamp)
    {
      k := k - 1;
    }
  }

  lemma InsertionSorted(r: seq<Burst>, b: Burst, k: nat)
    requires StampSorted(r) && k <= |r|
    requires forall m :: 0 <= m < k ==> StampLeq(r[m].firstPacketStamp, b.firstPacketStamp)
    requires forall m :: k <= m < |r| ==> StampLeq(b.firstPacketStamp, r[m].firstPacketStamp)
    ensures StampSorted(r[..k] + [b] + r[k..])
  {
    var s := r[..k] + [b] + r[k..];
    forall i, j | 0 <= i < j < |s| ensures StampLeq(s[i].firstPacketStamp, s[j].firstPacketStamp) {
      assert i < k ==> s[i] == r[i];
      assert i > k ==> s[i] == r[i - 1];
      assert j < k ==> s[j] == r[j];
      assert j > k ==> s[j] == r[j - 1];
    }
  }

  lemma InsertionKeeps(r: seq<Burst>, b: Burst, k: nat)
    requires k <= |r|
    ensures multiset(r[..k] + [b] + r[k..]) == multiset(r) + multiset{b}
  {
    assert r == r[..k] + r[k..];
  }

  /** The first sort of SortInOrder. */
  method SortByStamp(bs: seq<Burst>) returns (r: seq<Burst>)
    ensures multiset(r) == multiset(bs) && StampSorted(r)
  {
    r := [];
    for i := 0 to |bs|
      invariant multiset(r) == multiset(bs[..i]) && StampSorted(r)
    {
      var k := FindPlace(r, bs[i]);
      InsertionSorted(r, bs[i], k);
      InsertionKeeps(r, bs[i], k);
      r := r[..k] + [bs[i]] + r[k..];
      assert bs[..i + 1] == bs[..i] + [bs[i]];
    }
    assert bs[..|bs|] == bs;
  }

  class DeviceBurstGenerator {
    const c: DivisionParam
    const device: string
    var shortBurstVec: seq<seq<Packet>>
    var longBurstVec: seq<seq<Packet>>
    var flowMap: map<nat, seq<Packet>>
    var burstVec: seq<Burst>
    /** The contents of burstVec, and a set of objects it is made of. */
    ghost var vals: seq<BurstValue>
    ghost var repr: set<Burst>

    ghost predicate Valid()
      reads this, repr
    {
      Holds(burstVec, vals, repr)
    }

    /** The bursts of one slot of one device. */
    constructor (pktVec: seq<Packet>, device: string, c: DivisionParam)
      ensures this.c == c && this.device == device
      ensures fresh(repr) && Valid()
      ensures Generates(c, device, pktVec, vals)
    {
      this.c, this.device := c, device;
      shortBurstVec, longBurstVec, flowMap, burstVec := [], [], map[], [];
      vals, repr := [], {};
      new;
      hide Generates, ChunksOf;
      LongShortSplit(pktVec);
      MakeBursts(pktVec);
    }

    method MakeBursts(ghost pktVec: seq<Packet>)
      requires flowMap == map[] && vals == [] && Valid()
      requires shortBurstVec == Shorts(ChunksOf(c, pktVec)) && longBurstVec == Longs(ChunksOf(c, pktVec))
      modifies this`flowMap, this`burstVec, this`vals, this`repr, repr
      ensures Valid() && fresh(repr - old(repr)) && Generates(c, device, pktVec, vals)
    {
      hide Generates, ChunksOf, RawBursts, FlowsOf;
      ghost var order := LongBurstSplit();
      ghost var raws := vals;
      SortInOrder();
      SortedRawsGenerate(c, device, pktVec, shortBurstVec, longBurstVec, order, raws, vals);
    }

    method LongShortSplit(pktVec: seq<Packet>)
      requires shortBurstVec == [] && longBurstVec == []
      modifies this`shortBurstVec, this`longBurstVec
      ensures shortBurstVec == Shorts(ChunksOf(c, pktVec))
      ensures longBurstVec == Longs(ChunksOf(c, pktVec))
      ensures ValidParam(c) && pktVec != [] ==>
                forall q: seq<Packet> :: q in longBurstVec ==>
                  q != [] && FloorDuration(q[|q| - 1].stamp, q[0].stamp) > c.maxDuration
    {
      forall q | q in Longs(ChunksOf(c, pktVec)) && ValidParam(c) && pktVec != [] {
        LongsLast(c, pktVec, q);
      }
      var rawBurst: seq<Packet> := [];
      ghost var st := SplitState([], []);
      for i := 0 to |pktVec|
        invariant st == SplitRun(c, pktVec[..i]) && rawBurst == st.raw
        invariant shortBurstVec == Shorts(st.chunks) && longBurstVec == Longs(st.chunks)
      {
        SplitRunSnoc(c, pktVec, i);
        rawBurst := SplitOff(pktVec[i], rawBurst, st);
        st := SplitStep(c, st, pktVec[i]);
      }
      assert pktVec[..|pktVec|] == pktVec;
      ChunksSnoc(st.chunks, Chunk(false, rawBurst));
      shortBurstVec := shortBurstVec + [rawBurst];
    }

    /** The body of the loop: where the collected chunk goes before the packet joins it. */
    method SplitOff(packet: Packet, rawBurst: seq<Packet>, ghost st: SplitState) returns (raw: seq<Packet>)
      requires rawBurst == st.raw && shortBurstVec == Shorts(st.chunks) && longBurstVec == Longs(st.chunks)
      modifies this`shortBurstVec, this`longBurstVec
      ensures raw == SplitStep(c, st, packet).raw
      ensures shortBurstVec == Shorts(SplitStep(c, st, packet).chunks)
      ensures longBurstVec == Longs(SplitStep(c, st, packet).chunks)
    {
      raw := rawBurst;
      var floorDiff := 0;
      if |raw| > 0 {
        floorDiff := FloorDuration(packet.stamp, raw[|raw| - 1].stamp);
      }
      ChunksSnoc(st.chunks, Chunk(false, raw));
      ChunksSnoc(st.chunks, Chunk(true, raw));
      if floorDiff >= c.maxInterval {
        shortBurstVec := shortBurstVec + [raw];
        raw := [];
      } else if |raw| > 0 && FloorDuration(raw[|raw| - 1].stamp, raw[0].stamp) > c.maxDuration {
        longBurstVec := longBurstVec + [raw];
        raw := [];
      }
      raw := raw + [packet];
    }

    method LongBurstSplit() returns (ghost order: seq<nat>)
      requires flowMap == map[] && vals == [] && Valid()
      modifies this`flowMap, this`burstVec, this`vals, this`repr
      ensures flowMap == FlowsOf(Flatten(longBurstVec)) && WalkOrder(order, flowMap.Keys)
      ensures Valid() && fresh(repr - old(repr))
      ensures vals == RawBursts(c, device, shortBurstVec + FlowsIn(flowMap, order))
    {
      SeparateBy5Tuple();
      order := CutAll();
    }

    method CutAll() returns (ghost order: seq<nat>)
      requires vals == [] && Valid()
      modifies this`burstVec, this`vals, this`repr
      ensures WalkOrder(order, flowMap.Keys)
      ensures Valid() && fresh(repr - old(repr))
      ensures vals == RawBursts(c, device, shortBurstVec + FlowsIn(flowMap, order))
    {
      MakeNormalBurstVec();
      ghost var normal := RawBursts(c, device, shortBurstVec);
      assert vals == normal;
      order := MakeLongBurstVec();
      RawBurstsConcat(c, device, shortBurstVec, FlowsIn(flowMap, order));
    }

    method SeparateBy5Tuple()
      requires flowMap == map[]
      modifies this`flowMap
      ensures flowMap == FlowsOf(Flatten(longBurstVec))
      ensures forall h :: h in flowMap <==> exists p :: p in Flatten(longBurstVec) && p.hash5tuple == h
      ensures forall h :: h in flowMap ==>
                flowMap[h] == Filter((p: Packet) => p.hash5tuple == h, Flatten(longBurstVec))
      ensures forall h, p :: h in flowMap ==>
                (p in flowMap[h] <==> p in Flatten(longBurstVec) && p.hash5tuple == h)
    {
      FlowsByHash(Flatten(longBurstVec));
      FlowMembers(Flatten(longBurstVec));
      ghost var seen: seq<Packet> := [];
      for i := 0 to |longBurstVec|
        invariant seen == Flatten(longBurstVec[..i]) && flowMap == FlowsOf(seen)
      {
        SeparateBurst(longBurstVec[i], seen);
        seen := seen + longBurstVec[i];
        assert longBurstVec[..i + 1][..i] == longBurstVec[..i];
      }
      assert longBurstVec[..|longBurstVec|] == longBurstVec;
    }

    method SeparateBurst(burst: seq<Packet>, ghost seen: seq<Packet>)
      requires flowMap == FlowsOf(seen)
      modifies this`flowMap
      ensures flowMap == FlowsOf(seen + burst)
    {
      ghost var all := seen;
      for j := 0 to |burst|
        invariant all == seen + burst[..j] && flowMap == FlowsOf(all)
      {
        var h := burst[j].hash5tuple;
        GroupMapSnoc(HashKey(), all, burst[j]);
        flowMap := flowMap[h := (if h in flowMap then flowMap[h] else []) + [burst[j]]];
        PrefixSnoc(seen, burst, j);
        all := all + [burst[j]];
      }
      WholePrefix(burst);
    }

    method MakeNormalBurstVec()
      requires Valid()
      modifies this`burstVec, this`vals, this`repr
      ensures Valid() && vals == old(vals) + RawBursts(c, device, shortBurstVec)
      ensures fresh(repr - old(repr))
    {
      ghost var made := [];
      for i := 0 to |shortBurstVec|
        invariant Valid() && vals == old(vals) + made
        invariant made == RawBursts(c, device, shortBurstVec[..i])
        invariant fresh(repr - old(repr))
      {
        AppendBursts(shortBurstVec[i]);
        RawBurstsSnoc(c, device, shortBurstVec, i);
        ConcatAssoc(old(vals), made, CutPart(c, device)(shortBurstVec[i]));
        made := made + CutPart(c, device)(shortBurstVec[i]);
      }
      assert shortBurstVec[..|shortBurstVec|] == shortBurstVec;
    }

    /** Walks the flow map in an arbitrary order, which it returns. */
    method MakeLongBurstVec() returns (ghost order: seq<nat>)
      requires Valid()
      modifies this`burstVec, this`vals, this`repr
      ensures WalkOrder(order, flowMap.Keys)
      ensures Valid() && vals == old(vals) + RawBursts(c, device, FlowsIn(flowMap, order))
      ensures fresh(repr - old(repr))
    {
      hide RawBursts, CutPart;
      NoFlows(c, device, flowMap);
      order := [];
      ghost var made := [];
      var remaining := flowMap.Keys;
      while remaining != {}
        invariant remaining <= flowMap.Keys && WalkOrder(order, flowMap.Keys - remaining)
        invariant Valid() && vals == old(vals) + made
        invariant made == RawBursts(c, device, FlowsIn(flowMap, order))
        invariant fresh(repr - old(repr))
        decreases remaining
      {
        var h :| h in remaining;
        AppendBursts(flowMap[h]);
        ConcatAssoc(old(vals), made, CutPart(c, device)(flowMap[h]));
        FlowWalked(c, device, flowMap, order, remaining, h);
        made := made + CutPart(c, device)(flowMap[h]);
        order := order + [h];
        remaining := remaining - {h};
      }
    }

    method AppendBursts(raw: seq<Packet>)
      requires Valid()
      modifies this`burstVec, this`vals, this`repr
      ensures Valid() && vals == old(vals) + CutPart(c, device)(raw)
      ensures fresh(repr - old(repr))
    {
      ghost var moreVals, moreRepr;
      var more;
      more, moreVals, moreRepr := StrictToBursts(raw);
      HoldsConcat(burstVec, vals, repr, more, moreVals, moreRepr);
      burstVec := burstVec + more;
      vals := vals + moreVals;
      repr := repr + moreRepr;
    }

    /** Cuts a packet list into fresh bursts, whose contents are returned too. */
    method StrictToBursts(packetVec: seq<Packet>) returns (bursts: seq<Burst>, ghost made: seq<BurstValue>,
                          ghost repr: set<Burst>)
      ensures fresh(repr) && Holds(bursts, made, repr)
      ensures made == CutPart(c, device)(packetVec)
    {
      hide CutStep, CutRun, CutPart;
      NothingCut(c, device);
      bursts, made, repr := [], [], {};
      var nearDiff, farDiff := 0, 0;
      var burst := new Burst.Fresh(device);
      ghost var st := CutState([], Segment([], ZERO_STAMP));
      for i := 0 to |packetVec|
        invariant st == CutRun(c, device, packetVec[..i])
        invariant fresh(repr) && fresh(burst) && burst !in repr
        invariant Holds(bursts, made, repr) && made == BurstsOfSegments(device, st.done)
        invariant burst.Value() == BurstOf(device, st.cur)
        invariant st.cur.packets == [] ==> nearDiff == 0 && farDiff == 0
      {
        bursts, burst, nearDiff, farDiff, made, repr :=
          TakePacket(packetVec[i], bursts, burst, nearDiff, farDiff, made, repr, st);
        CutRunSnoc(c, device, packetVec, i);
        st := CutStep(c, device, st, packetVec[i]);
      }
      WholePrefix(packetVec);
      CutPartSplits(c, device, packetVec);
      HoldsSnoc(bursts, made, repr, burst);
      bursts, made, repr := bursts + [burst], made + [BurstOf(device, st.cur)], repr + {burst};
    }

    /** The body of the loop: stamp, cut if a rule says so, record. */
    method TakePacket(packet: Packet, bursts: seq<Burst>, burst: Burst, nearDiff: int, farDiff: int,
                      ghost made: seq<BurstValue>, ghost repr: set<Burst>, ghost st: CutState)
      returns (pushed: seq<Burst>, current: Burst, near: int, far: int,
               ghost made': seq<BurstValue>, ghost repr': set<Burst>)
      requires burst !in repr && Holds(bursts, made, repr) && made == BurstsOfSegments(device, st.done)
      requires burst.Value() == BurstOf(device, st.cur)
      requires st.cur.packets == [] ==> nearDiff == 0 && farDiff == 0
      modifies burst
      ensures Holds(pushed, made', repr') && made' == BurstsOfSegments(device, CutStep(c, device, st, packet).done)
      ensures current.Value() == BurstOf(device, CutStep(c, device, st, packet).cur) && current !in repr'
      ensures (current == burst && repr' == repr) || (fresh(current) && repr' == repr + {burst})
      ensures CutStep(c, device, st, packet).cur.packets == [] ==> near == 0 && far == 0
    {
      ghost var cur := Stamped(st.cur, packet);
      StampFirst(burst, packet, st.cur);
      var cut;
      cut, near, far := NeedsCut(burst, packet, nearDiff, farDiff, cur);
      if cut {
        pushed, current, made', repr' := CutAndStart(packet, bursts, burst, made, repr, st.done, cur);
      } else {
        pushed, current, made', repr' := bursts, burst, made, repr;
        Record(burst, packet, cur);
      }
    }

    /** A cut: the burst is done, and a new one starts with the packet. */
    method CutAndStart(packet: Packet, bursts: seq<Burst>, burst: Burst, ghost made: seq<BurstValue>,
                       ghost repr: set<Burst>, ghost done: seq<Segment>, ghost cur: Segment)
      returns (pushed: seq<Burst>, current: Burst, ghost made': seq<BurstValue>, ghost repr': set<Burst>)
      requires burst !in repr && Holds(bursts, made, repr) && made == BurstsOfSegments(device, done)
      requires burst.Value() == BurstOf(device, cur)
      ensures Holds(pushed, made', repr') && made' == BurstsOfSegments(device, done + [cur])
      ensures pushed == bursts + [burst] && repr' == repr + {burst}
      ensures fresh(current) && current !in repr' && current.Value() == BurstOf(device, Segment([packet], ZERO_STAMP))
    {
      hide BurstOf, BurstsOfSegments;
      BurstsSnoc(device, done, cur);
      HoldsSnoc(bursts, made, repr, burst);
      pushed, made', repr' := bursts + [burst], made + [BurstOf(device, cur)], repr + {burst};
      current := StartBurst(packet);
    }

    /** A new burst holding one packet, not yet stamped. */
    method StartBurst(packet: Packet) returns (burst: Burst)
      ensures fresh(burst) && burst.Value() == BurstOf(device, Segment([packet], ZERO_STAMP))
    {
      burst := new Burst.Fresh(device);
      assert [] + [packet] == [packet];
      Record(burst, packet, Segment([], ZERO_STAMP));
    }

    method StampFirst(burst: Burst, packet: Packet, ghost seg: Segment)
      requires burst.Value() == BurstOf(device, seg)
      modifies burst
      ensures burst.Value() == BurstOf(device, Stamped(seg, packet))
    {
      if burst.firstPacketStamp.sec == 0 {
        burst.SetFirstPacketStamp(packet);
      }
    }

    /** The three cut rules; the two differences keep their old values while the burst is empty. */
    method NeedsCut(burst: Burst, packet: Packet, nearDiff: int, farDiff: int, ghost seg: Segment)
      returns (cut: bool, near: int, far: int)
      requires burst.Value() == BurstOf(device, seg)
      requires seg.packets == [] ==> nearDiff == 0 && farDiff == 0
      ensures cut == MustCut(c, device, seg, packet)
      ensures seg.packets == [] && !cut ==> near == 0 && far == 0
    {
      near, far := nearDiff, farDiff;
      BurstPacketCount(device, seg);
      if burst.pktNum > 0 {
        near := FloorDuration(packet.stamp, burst.lastPacketStamp);
        far := FloorDuration(packet.stamp, burst.firstPacketStamp);
      }
      cut := burst.uniPktNum >= c.maxUniSig || near >= c.maxInterval || far >= c.maxDuration;
    }

    method Record(burst: Burst, packet: Packet, ghost seg: Segment)
      requires burst.Value() == BurstOf(device, seg)
      modifies burst
      ensures burst.Value() == BurstOf(device, seg.(packets := seg.packets + [packet]))
    {
      BurstPacketCount(device, seg);
      BurstGrows(device, seg, packet);
      burst.AddPacket(packet);
      burst.SetLastPacketStamp(packet);
    }

    /** Sorts the bursts by first-packet stamp and every burst's entries by signature, in place. */
    method SortInOrder()
      requires Valid()
      modifies this`burstVec, this`vals, repr
      ensures Valid()
      ensures multiset(vals) == multiset(MapSeq(Canon, old(vals))) && SortedByStamp(vals)
    {
      ghost var before := vals;
      SortBursts();
      ghost var moved := vals;
      SortDetails();
      ImagesPermute(before, moved, MapSeq(Canon, before), MapSeq(Canon, moved));
    }

    method SortBursts()
      requires Valid()
      modifies this`burstVec, this`vals
      ensures Valid() && multiset(vals) == multiset(old(vals)) && SortedByStamp(vals)
    {
      var sorted := SortByStamp(burstVec);
      SortedHolds(burstVec, sorted, vals, repr);
      burstVec, vals := sorted, ValuesOf(sorted);
    }

    method SortDetails()
      requires Valid()
      modifies this`vals, repr
      ensures Valid() && vals == MapSeq(Canon, old(vals))
    {
      for i := 0 to |burstVec|
        invariant |vals| == |burstVec|
        invariant forall k :: 0 <= k < i ==> burstVec[k].Value() == Canon(vals[k])
        invariant forall k :: i <= k < |burstVec| ==>
                    burstVec[k].Value() == vals[k] || burstVec[k].Value() == Canon(vals[k])
        invariant vals == old(vals)
      {
        SortTwice(vals[i]);
        burstVec[i].SortDetail();
      }
      vals := MapSeq(Canon, vals);
    }
  }

  lemma NoFlows(c: DivisionParam, name: string, m: map<nat, seq<Packet>>)
    ensures RawBursts(c, name, FlowsIn(m, [])) == []
  {
  }

  lemma CutPartSplits(c: DivisionParam, name: string, ps: seq<Packet>)
    ensures var st := CutRun(c, name, ps);
            CutPart(c, name)(ps) == BurstsOfSegments(name, st.done) + [BurstOf(name, st.cur)]
  {
    BurstsSnoc(name, CutRun(c, name, ps).done, CutRun(c, name, ps).cur);
  }

  lemma HoldsSnoc(bs: seq<Burst>, vals: seq<BurstValue>, repr: set<Burst>, b: Burst)
    requires Holds(bs, vals, repr)
    ensures Holds(bs + [b], vals + [b.Value()], repr + {b})
  {
  }

  lemma HoldsConcat(a: seq<Burst>, va: seq<BurstValue>, ra: set<Burst>, b: seq<Burst>, vb: seq<BurstValue>,
                    rb: set<Burst>)
    requires Holds(a, va, ra) && Holds(b, vb, rb)
    ensures Holds(a + b, va + vb, ra + rb)
  {
  }

  lemma ObjectsStay(a: seq<Burst>, b: seq<Burst>, repr: set<Burst>)
    requires multiset(a) == multiset(b) && forall i :: 0 <= i < |a| ==> a[i] in repr
    ensures forall i :: 0 <= i < |b| ==> b[i] in repr
  {
    forall i | 0 <= i < |b| ensures b[i] in repr {
      assert b[i] in multiset(a);
    }
  }

  /** Moving the objects moves their contents along. */
  lemma SortedHolds(bs: seq<Burst>, sorted: seq<Burst>, vals: seq<BurstValue>, repr: set<Burst>)
    requires Holds(bs, vals, repr) && multiset(sorted) == multiset(bs) && StampSorted(sorted)
    ensures Holds(sorted, ValuesOf(sorted), repr)
    ensures multiset(ValuesOf(sorted)) == multiset(vals) && SortedByStamp(ValuesOf(sorted))
  {
    ImagesPermute(bs, sorted, vals, ValuesOf(sorted));
    ObjectsStay(bs, sorted, repr);
  }

  lemma RawBurstsSnoc(c: DivisionParam, name: string, parts: seq<seq<Packet>>, k: nat)
    requires k < |parts|
    ensures RawBursts(c, name, parts[..k + 1]) == RawBursts(c, name, parts[..k]) + CutPart(c, name)(parts[k])
  {
    assert parts[..k + 1][..k] == parts[..k];
  }

  lemma RawBurstsConcat(c: DivisionParam, name: string, a: seq<seq<Packet>>, b: seq<seq<Packet>>)
    ensures RawBursts(c, name, a + b) == RawBursts(c, name, a) + RawBursts(c, name, b)
  {
    FlatMapConcat(CutPart(c, name), a, b);
  }

  /** Walking one more flow extends the order and adds that flow's bursts. */
  lemma FlowWalked(c: DivisionParam, name: string, m: map<nat, seq<Packet>>, order: seq<nat>, remaining: set<nat>,
                   h: nat)
    requires remaining <= m.Keys && WalkOrder(order, m.Keys - remaining) && h in remaining
    ensures WalkOrder(order + [h], m.Keys - (remaining - {h}))
    ensures RawBursts(c, name, FlowsIn(m, order + [h])) ==
              RawBursts(c, name, FlowsIn(m, order)) + CutPart(c, name)(m[h])
  {
    WalkOrderSnoc(order, m.Keys - remaining, h);
    assert m.Keys - remaining + {h} == m.Keys - (remaining - {h});
    FlowsInSnoc(m, order, h);
    FlatMapSnoc(CutPart(c, name), FlowsIn(m, order), m[h]);
  }

  lemma SortedRawsGenerate(c: DivisionParam, name: string, ps: seq<Packet>, shorts: seq<seq<Packet>>,
                           longs: seq<seq<Packet>>,
                           order: seq<nat>, raws: seq<BurstValue>, vals: seq<BurstValue>)
    requires shorts == Shorts(ChunksOf(c, ps)) && longs == Longs(ChunksOf(c, ps))
    requires WalkOrder(order, HashesOf(Flatten(longs)))
    requires raws == RawBursts(c, name, shorts + FlowsIn(FlowsOf(Flatten(longs)), order))
    requires multiset(vals) == multiset(MapSeq(Canon, raws)) && SortedByStamp(vals)
    ensures Generates(c, name, ps, vals)
  {
    assert raws == RawBursts(c, name, Parts(c, ps, order));
  }

  /** Sorting sorted entries changes nothing. */
  lemma SortTwice(v: BurstValue)
    ensures Canon(Canon(v)) == Canon(v)
  {
    SortFacts(v.detail);
    SortSorted(SortBySig(v.detail));
  }

  lemma {:induction false} SortSorted(d: seq<SigCount>)
    requires SortedBySig(d)
    ensures SortBySig(d) == d
  {
    if d != [] {
      SortSorted(d[..|d| - 1]);
    }
  }

  lemma BurstPacketCount(name: string, seg: Segment)
    ensures BurstOf(name, seg).pktNum == |seg.packets|
    ensures Indexed(BurstOf(name, seg))
  {
    BurstOfCounts(name, seg, 0);
  }

  lemma BurstGrows(name: string, seg: Segment, p: Packet)
    ensures BurstOf(name, seg.(packets := seg.packets + [p])) ==
              AddSigTo(BurstOf(name, seg), p.signedLen).(lastStamp := p.stamp)
  {
    var ps := seg.packets + [p];
    assert ps[..|seg.packets|] == seg.packets;
    assert Sigs(ps)[..|Sigs(seg.packets)|] == Sigs(seg.packets);
  }

  lemma FlowsInSnoc(m: map<nat, seq<Packet>>, order: seq<nat>, h: nat)
    requires h in m && forall g :: g in order ==> g in m
    ensures FlowsIn(m, order + [h]) == FlowsIn(m, order) + [m[h]]
  {
    assert (order + [h])[..|order|] == order;
  }
}
