/** The Converter of src/Reorganizer.cpp: packets into slots, slots into blocks of bursts. */
module Slotting {
  import opened Collections
  import opened Packets
  import opened BurstValues
  import opened Segmentation
  import opened SlotBursts
  import opened Bursts
  import opened Generator

  // ---------- what slotting means ----------

  function DeviceKey(): Packet -> nat {
    (p: Packet) => p.deviceId
  }

  /** The slot a packet falls into; captured packets have positive seconds, so the division rounds down. */
  function SlotKey(timeslot: int): Packet -> int
    requires timeslot > 0
  {
    (p: Packet) => p.stamp.sec / timeslot
  }

  function DevicesOf(ps: seq<Packet>): set<nat> {
    KeysOf<Packet, nat>(DeviceKey(), ps)
  }

  function DevicePackets(ps: seq<Packet>, d: nat): seq<Packet> {
    Filter(WithKey(DeviceKey(), d), ps)
  }

  /** The packets of device d in slot k, in capture order. */
  function SlotPackets(timeslot: int, ps: seq<Packet>, d: nat, k: int): seq<Packet>
    requires timeslot > 0
  {
    Filter(WithKey(SlotKey(timeslot), k), DevicePackets(ps, d))
  }

  ghost predicate Increasing(ks: seq<int>) {
    forall i, j :: 0 <= i < j < |ks| ==> ks[i] < ks[j]
  }

  /** The slots in which d has packets, in increasing order. */
  ghost predicate BlockSlots(timeslot: int, ps: seq<Packet>, d: nat, ks: seq<int>)
    requires timeslot > 0
  {
    Increasing(ks) && forall k :: k in ks <==> SlotPackets(timeslot, ps, d, k) != []
  }

  /** blocks[i] is generated from exactly the packets of slot ks[i]. */
  ghost predicate BlocksFrom(c: DivisionParam, name: string, timeslot: int, ps: seq<Packet>, d: nat,
                             ks: seq<int>, blocks: seq<seq<BurstValue>>)
    requires timeslot > 0
  {
    |blocks| == |ks| &&
    forall i :: 0 <= i < |ks| ==> Generates(c, name, SlotPackets(timeslot, ps, d, ks[i]), blocks[i])
  }

  /** content maps every device that sent or received anything to one block per non-empty slot, in slot order. */
  ghost predicate Slotted(c: DivisionParam, nameOf: nat -> string, timeslot: int, ps: seq<Packet>,
                          content: map<nat, seq<seq<BurstValue>>>)
    requires timeslot > 0
  {
    content.Keys == DevicesOf(ps) &&
    forall d :: d in content ==>
                  exists ks :: BlockSlots(timeslot, ps, d, ks) &&
                    BlocksFrom(c, nameOf(d), timeslot, ps, d, ks, content[d])
  }

  // ---------- consequences ----------

  lemma IncreasingLast(a: seq<int>)
    requires a != [] && Increasing(a)
    ensures Increasing(a[..|a| - 1])
    ensures forall k :: k in a[..|a| - 1] <==> k in a && k != a[|a| - 1]
    ensures forall k :: k in a ==> k <= a[|a| - 1]
  {
    assert a == a[..|a| - 1] + [a[|a| - 1]];
  }

  lemma {:induction false} IncreasingUnique(a: seq<int>, b: seq<int>)
    requires Increasing(a) && Increasing(b) && forall k :: k in a <==> k in b
    ensures a == b
    decreases |a|
  {
    if b != [] {
      assert b[0] in b;
    }
    if a != [] {
      var m, n := |a| - 1, |b| - 1;
      assert a[m] in a && b[n] in b;
      IncreasingLast(a);
      IncreasingLast(b);
      forall k ensures k in a[..m] <==> k in b[..n] {
        assert k in a <==> k in b;
      }
      IncreasingUnique(a[..m], b[..n]);
    }
  }

  /** How many blocks a device has, and which slot each stands for, is determined by the packets. */
  lemma BlockSlotsUnique(timeslot: int, ps: seq<Packet>, d: nat, ks: seq<int>, ks': seq<int>)
    requires timeslot > 0 && BlockSlots(timeslot, ps, d, ks) && BlockSlots(timeslot, ps, d, ks')
    ensures ks == ks'
  {
    IncreasingUnique(ks, ks');
  }

  lemma {:induction false} BlocksConserve(c: DivisionParam, name: string, timeslot: int, ps: seq<Packet>, d: nat,
                                          ks: seq<int>, blocks: seq<seq<BurstValue>>, s: int)
    requires timeslot > 0 && BlocksFrom(c, name, timeslot, ps, d, ks, blocks)
    ensures var slots := Flatten(Groups(SlotKey(timeslot), DevicePackets(ps, d), ks));
            SumCounts(Flatten(blocks), s) == Occurrences(Sigs(slots), s) && SumPkts(Flatten(blocks)) == |slots|
  {
    hide Generates;
    if ks != [] {
      var n := |ks| - 1;
      var groups := Groups(SlotKey(timeslot), DevicePackets(ps, d), ks[..n]);
      BlocksConserve(c, name, timeslot, ps, d, ks[..n], blocks[..n], s);
      SlotConserves(c, name, SlotPackets(timeslot, ps, d, ks[n]), blocks[n], s);
      SumConcat(Flatten(blocks[..n]), blocks[n], s);
      FlattenSnoc(groups, SlotPackets(timeslot, ps, d, ks[n]));
      SigsConcat(Flatten(groups), SlotPackets(timeslot, ps, d, ks[n]));
      OccurrencesConcat(Sigs(Flatten(groups)), Sigs(SlotPackets(timeslot, ps, d, ks[n])), s);
    }
  }

  lemma SlotsCover(timeslot: int, ps: seq<Packet>, d: nat, ks: seq<int>)
    requires timeslot > 0 && BlockSlots(timeslot, ps, d, ks)
    ensures multiset(Flatten(Groups(SlotKey(timeslot), DevicePackets(ps, d), ks))) == multiset(DevicePackets(ps, d))
  {
    forall p | p in DevicePackets(ps, d) ensures SlotKey(timeslot)(p) in ks {
      var k := SlotKey(timeslot)(p);
      FilterMembers(WithKey(SlotKey(timeslot), k), DevicePackets(ps, d));
      assert p in SlotPackets(timeslot, ps, d, k);
    }
    GroupingKeeps(SlotKey(timeslot), DevicePackets(ps, d), ks);
  }

  /** Every packet of a device is counted in exactly one of its blocks: nothing is lost, nothing counted twice. */
  lemma DeviceConserves(c: DivisionParam, nameOf: nat -> string, timeslot: int, ps: seq<Packet>,
                        content: map<nat, seq<seq<BurstValue>>>, d: nat, s: int)
    requires timeslot > 0 && Slotted(c, nameOf, timeslot, ps, content) && d in content
    ensures SumCounts(Flatten(content[d]), s) == Occurrences(Sigs(DevicePackets(ps, d)), s)
    ensures SumPkts(Flatten(content[d])) == |DevicePackets(ps, d)|
  {
    var ks :| BlockSlots(timeslot, ps, d, ks) && BlocksFrom(c, nameOf(d), timeslot, ps, d, ks, content[d]);
    var slots := Flatten(Groups(SlotKey(timeslot), DevicePackets(ps, d), ks));
    BlocksConserve(c, nameOf(d), timeslot, ps, d, ks, content[d], s);
    SlotsCover(timeslot, ps, d, ks);
    OccurrencesPermute(slots, DevicePackets(ps, d), s);
    SamePermutationLength(slots, DevicePackets(ps, d));
  }

  ghost function BlockCounts(content: map<nat, seq<seq<BurstValue>>>): map<nat, int> {
    MapValues((blocks: seq<seq<BurstValue>>) => SumPkts(Flatten(blocks)), content)
  }

  /** The packet counts of all bursts of all blocks add up to the number of packets given. */
  lemma DatasetConserves(c: DivisionParam, nameOf: nat -> string, timeslot: int, ps: seq<Packet>,
                         content: map<nat, seq<seq<BurstValue>>>)
    requires timeslot > 0 && Slotted(c, nameOf, timeslot, ps, content)
    ensures MapSum(BlockCounts(content)) == |ps|
  {
    var sizes := MapValues(Size(), GroupMap<Packet, nat>(DeviceKey(), ps));
    forall d | d in content ensures BlockCounts(content)[d] == sizes[d] {
      DeviceConserves(c, nameOf, timeslot, ps, content, d, 0);
    }
    SameMaps(BlockCounts(content), sizes);
    GroupSizesSum<Packet, nat>(DeviceKey(), ps);
  }

  /** Every burst of every block carries its device's name and passes Validate. */
  lemma BlockBurstsGood(c: DivisionParam, nameOf: nat -> string, timeslot: int, ps: seq<Packet>,
                        content: map<nat, seq<seq<BurstValue>>>, d: nat, i: nat, v: BurstValue)
    requires timeslot > 0 && ValidParam(c) && Slotted(c, nameOf, timeslot, ps, content)
    requires d in content && i < |content[d]| && v in content[d][i]
    ensures GoodBurst(c, nameOf(d), v) && SortedBySig(v.detail)
    ensures nameOf(d) != "" ==> Acceptable(v, c.maxUniSig)
  {
    var ks :| BlockSlots(timeslot, ps, d, ks) && BlocksFrom(c, nameOf(d), timeslot, ps, d, ks, content[d]);
    assert ks[i] in ks;
    SlotBurstsGood(c, nameOf(d), SlotPackets(timeslot, ps, d, ks[i]), content[d][i]);
  }

  // ---------- the same in the fields of the packets ----------

  lemma SlotBounds(timeslot: int, sec: int, k: int)
    requires timeslot > 0
    ensures sec / timeslot == k <==> k * timeslot <= sec < (k + 1) * timeslot
  {
    var q, r := sec / timeslot, sec % timeslot;
    assert sec == q * timeslot + r && 0 <= r < timeslot;
    if k < q {
      MultiplesApart(timeslot, k, q);
    } else if k > q {
      MultiplesApart(timeslot, q, k);
    }
  }

  lemma MultiplesApart(timeslot: int, k: int, l: int)
    requires timeslot > 0 && k < l
    ensures (k + 1) * timeslot <= l * timeslot
  {
    assert (l - (k + 1)) * timeslot >= 0;
  }

  /** Slot k holds the seconds from k * timeslot up to but not including the next multiple. */
  lemma SlotKeyMeaning(timeslot: int, p: Packet, k: int)
    requires timeslot > 0
    ensures SlotKey(timeslot)(p) == k <==> k * timeslot <= p.stamp.sec < (k + 1) * timeslot
  {
    SlotBounds(timeslot, p.stamp.sec, k);
  }

  function InCell(timeslot: int, d: nat, k: int): Packet -> bool {
    (p: Packet) => p.deviceId == d && k * timeslot <= p.stamp.sec < (k + 1) * timeslot
  }

  lemma SlotPacketsInCell(timeslot: int, ps: seq<Packet>, d: nat, k: int)
    requires timeslot > 0
    ensures SlotPackets(timeslot, ps, d, k) == Filter(InCell(timeslot, d, k), ps)
  {
    FilterTwice(WithKey(DeviceKey(), d), WithKey(SlotKey(timeslot), k), ps);
    forall p { SlotKeyMeaning(timeslot, p, k); }
    FilterSame(Both(WithKey(DeviceKey(), d), WithKey(SlotKey(timeslot), k)), InCell(timeslot, d, k), ps);
  }

  /** Which devices have blocks, and which slots these stand for. */
  lemma BlocksExist(c: DivisionParam, nameOf: nat -> string, timeslot: int, ps: seq<Packet>,
                    content: map<nat, seq<seq<BurstValue>>>, d: nat) returns (ks: seq<int>)
    requires timeslot > 0 && Slotted(c, nameOf, timeslot, ps, content)
    ensures d in content <==> exists p :: p in ps && p.deviceId == d
    ensures d in content ==>
              |ks| == |content[d]| && (forall i, j :: 0 <= i < j < |ks| ==> ks[i] < ks[j]) &&
              (forall k: int :: k in ks <==>
                exists p :: p in ps && p.deviceId == d && k * timeslot <= p.stamp.sec < (k + 1) * timeslot)
    ensures d in content ==> forall i :: 0 <= i < |ks| ==>
              Generates(c, nameOf(d), SlotPackets(timeslot, ps, d, ks[i]), content[d][i])
  {
    hide Generates, SlotPackets;
    ks := [];
    if d in content {
      ks :| BlockSlots(timeslot, ps, d, ks) && BlocksFrom(c, nameOf(d), timeslot, ps, d, ks, content[d]);
      forall k: int
        ensures k in ks <==>
                exists p :: p in ps && p.deviceId == d && k * timeslot <= p.stamp.sec < (k + 1) * timeslot
      {
        CellOccupied(timeslot, ps, d, k);
      }
    }
  }

  lemma CellOccupied(timeslot: int, ps: seq<Packet>, d: nat, k: int)
    requires timeslot > 0
    ensures SlotPackets(timeslot, ps, d, k) != [] <==>
            exists p :: p in ps && p.deviceId == d && k * timeslot <= p.stamp.sec < (k + 1) * timeslot
  {
    hide SlotPackets, Filter;
    SlotPacketsInCell(timeslot, ps, d, k);
    var cell := Filter(InCell(timeslot, d, k), ps);
    FilterMembers(InCell(timeslot, d, k), ps);
    if cell != [] {
      assert cell[0] in cell;
    }
    if p :| p in ps && p.deviceId == d && k * timeslot <= p.stamp.sec < (k + 1) * timeslot {
      assert InCell(timeslot, d, k)(p);
    }
  }

  /**
   * What the blocks of a device count: block i, for slot ks[i], counts signature s exactly as often as the device's
   * packets with seconds in that slot carry it, and has as many packets as there are such packets.
   */
  lemma BlockCountsPackets(c: DivisionParam, nameOf: nat -> string, timeslot: int, ps: seq<Packet>,
                           content: map<nat, seq<seq<BurstValue>>>, d: nat, s: int) returns (ks: seq<int>)
    requires timeslot > 0 && Slotted(c, nameOf, timeslot, ps, content) && d in content
    ensures |ks| == |content[d]| && forall i, j :: 0 <= i < j < |ks| ==> ks[i] < ks[j]
    ensures forall k: int :: k in ks <==>
              exists p :: p in ps && p.deviceId == d && k * timeslot <= p.stamp.sec < (k + 1) * timeslot
    ensures forall i :: 0 <= i < |ks| ==>
              SumCounts(content[d][i], s) ==
                |set j | 0 <= j < |ps| && ps[j].deviceId == d && ps[j].signedLen == s &&
                         ks[i] * timeslot <= ps[j].stamp.sec < (ks[i] + 1) * timeslot|
    ensures forall i :: 0 <= i < |ks| ==>
              SumPkts(content[d][i]) ==
                |set j | 0 <= j < |ps| && ps[j].deviceId == d &&
                         ks[i] * timeslot <= ps[j].stamp.sec < (ks[i] + 1) * timeslot|
  {
    hide Slotted, Generates, SlotPackets, SumCounts, SumPkts;
    ks := BlocksExist(c, nameOf, timeslot, ps, content, d);
    forall i | 0 <= i < |ks|
      ensures SumCounts(content[d][i], s) ==
                |set j | 0 <= j < |ps| && ps[j].deviceId == d && ps[j].signedLen == s &&
                         ks[i] * timeslot <= ps[j].stamp.sec < (ks[i] + 1) * timeslot|
      ensures SumPkts(content[d][i]) ==
                |set j | 0 <= j < |ps| && ps[j].deviceId == d &&
                         ks[i] * timeslot <= ps[j].stamp.sec < (ks[i] + 1) * timeslot|
    {
      CellCounts(c, nameOf(d), timeslot, ps, d, ks[i], content[d][i], s);
    }
  }

  lemma CellCounts(c: DivisionParam, name: string, timeslot: int, ps: seq<Packet>, d: nat, k: int,
                   block: seq<BurstValue>, s: int)
    requires timeslot > 0 && Generates(c, name, SlotPackets(timeslot, ps, d, k), block)
    ensures SumCounts(block, s) ==
              |set j | 0 <= j < |ps| && ps[j].deviceId == d && ps[j].signedLen == s &&
                       k * timeslot <= ps[j].stamp.sec < (k + 1) * timeslot|
    ensures SumPkts(block) ==
              |set j | 0 <= j < |ps| && ps[j].deviceId == d && k * timeslot <= ps[j].stamp.sec < (k + 1) * timeslot|
  {
    hide Generates, SlotPackets, SumCounts, SumPkts, Filter, Occurrences, Sigs;
    SlotConserves(c, name, SlotPackets(timeslot, ps, d, k), block, s);
    SlotPacketsInCell(timeslot, ps, d, k);
    OccurrencesByFilter(SlotPackets(timeslot, ps, d, k), s);
    FilterTwice(InCell(timeslot, d, k), HasSigned(s), ps);
    var places := set j | 0 <= j < |ps| && ps[j].deviceId == d && k * timeslot <= ps[j].stamp.sec < (k + 1) * timeslot;
    PlacesCount(InCell(timeslot, d, k), ps, places);
    var signed := set j | 0 <= j < |ps| && ps[j].deviceId == d && ps[j].signedLen == s &&
                          k * timeslot <= ps[j].stamp.sec < (k + 1) * timeslot;
    PlacesCount(Both(InCell(timeslot, d, k), HasSigned(s)), ps, signed);
  }

  /**
   * No burst mixes two slots or two devices: each is the sorted histogram of packets of its own device, with seconds in
   * the slot its block stands for.
   */
  lemma BlockBurstsInOneSlot(c: DivisionParam, nameOf: nat -> string, timeslot: int, ps: seq<Packet>,
                             content: map<nat, seq<seq<BurstValue>>>, d: nat, i: nat, v: BurstValue)
    returns (ks: seq<int>, seg: Segment)
    requires timeslot > 0 && Slotted(c, nameOf, timeslot, ps, content)
    requires d in content && i < |content[d]| && v in content[d][i]
    ensures |ks| == |content[d]| && forall a, b :: 0 <= a < b < |ks| ==> ks[a] < ks[b]
    ensures forall k: int :: k in ks <==>
              exists p :: p in ps && p.deviceId == d && k * timeslot <= p.stamp.sec < (k + 1) * timeslot
    ensures v == Canon(BurstOf(nameOf(d), seg))
    ensures forall p :: p in seg.packets ==>
              p in ps && p.deviceId == d && ks[i] * timeslot <= p.stamp.sec < (ks[i] + 1) * timeslot
  {
    hide Slotted, Generates, BurstOf, Canon, SlotPackets, Filter;
    ks := BlocksExist(c, nameOf, timeslot, ps, content, d);
    var k := ks[i];
    BurstsStayInSlot(c, nameOf(d), SlotPackets(timeslot, ps, d, k), content[d][i], v);
    seg :| v == Canon(BurstOf(nameOf(d), seg)) && AllIn(seg.packets, SlotPackets(timeslot, ps, d, k));
    SlotPacketsInCell(timeslot, ps, d, k);
    FilterMembers(InCell(timeslot, d, k), ps);
  }

  lemma DevicesSeen(ps: seq<Packet>)
    ensures forall d :: d in DevicesOf(ps) <==> exists p :: p in ps && p.deviceId == d
  {
  }

  // ---------- the converter ----------

  type Row = map<int, seq<Packet>>

  function BySlot(timeslot: int): seq<Packet> -> Row
    requires timeslot > 0
  {
    (s: seq<Packet>) => GroupMap<Packet, int>(SlotKey(timeslot), s)
  }

  /** The slot map after the given packets: grouped by device, and then by slot. */
  ghost function SlotMap(timeslot: int, ps: seq<Packet>): (m: map<nat, Row>)
    requires timeslot > 0
    ensures m.Keys == DevicesOf(ps)
  {
    MapValues(BySlot(timeslot), GroupMap<Packet, nat>(DeviceKey(), ps))
  }

  function RowOf(m: map<nat, Row>, d: nat): Row {
    if d in m then m[d] else map[]
  }

  function CellOf<K>(row: map<K, seq<Packet>>, k: K): seq<Packet> {
    if k in row then row[k] else []
  }

  lemma NoSlots(timeslot: int)
    requires timeslot > 0
    ensures SlotMap(timeslot, []) == map[]
  {
  }

  /** What AddPacket makes of the slot map. */
  function WithPacket(m: map<nat, Row>, d: nat, k: int, p: Packet): map<nat, Row> {
    m[d := RowOf(m, d)[k := CellOf(RowOf(m, d), k) + [p]]]
  }

  lemma RowGrows(timeslot: int, cell: seq<Packet>, p: Packet)
    requires timeslot > 0
    ensures var row, k := BySlot(timeslot)(cell), SlotKey(timeslot)(p);
            BySlot(timeslot)(cell + [p]) == row[k := CellOf(row, k) + [p]]
    ensures BySlot(timeslot)([]) == map[]
  {
    GroupMapSnoc<Packet, int>(SlotKey(timeslot), cell, p);
    assert BySlot(timeslot)([]).Keys == {};
  }

  lemma RowsGrow(f: seq<Packet> -> Row, m: map<nat, seq<Packet>>, d: nat, k: int, p: Packet)
    requires f([]) == map[]
    requires f(CellOf(m, d) + [p]) == f(CellOf(m, d))[k := CellOf(f(CellOf(m, d)), k) + [p]]
    ensures MapValues(f, m[d := CellOf(m, d) + [p]]) == WithPacket(MapValues(f, m), d, k, p)
  {
    MapValuesUpdate(f, m, d, CellOf(m, d) + [p]);
  }

  lemma SlotMapSnoc(timeslot: int, ps: seq<Packet>, p: Packet)
    requires timeslot > 0
    ensures SlotMap(timeslot, ps + [p]) == WithPacket(SlotMap(timeslot, ps), p.deviceId, SlotKey(timeslot)(p), p)
  {
    var m := GroupMap<Packet, nat>(DeviceKey(), ps);
    GroupMapSnoc<Packet, nat>(DeviceKey(), ps, p);
    RowGrows(timeslot, CellOf(m, p.deviceId), p);
    RowsGrow(BySlot(timeslot), m, p.deviceId, SlotKey(timeslot)(p), p);
  }

  /** The rows of the slot map hold exactly the non-empty slots. */
  lemma RowSlots(timeslot: int, ps: seq<Packet>, d: nat, k: int)
    requires timeslot > 0 && d in DevicesOf(ps)
    ensures var row := SlotMap(timeslot, ps)[d];
            (k in row <==> SlotPackets(timeslot, ps, d, k) != []) &&
              (k in row ==> row[k] == SlotPackets(timeslot, ps, d, k))
  {
    FilterMembers(WithKey(SlotKey(timeslot), k), DevicePackets(ps, d));
    if SlotPackets(timeslot, ps, d, k) != [] {
      assert SlotPackets(timeslot, ps, d, k)[0] in SlotPackets(timeslot, ps, d, k);
    }
    if k in KeysOf(SlotKey(timeslot), DevicePackets(ps, d)) {
      var p :| p in DevicePackets(ps, d) && SlotKey(timeslot)(p) == k;
      assert p in SlotPackets(timeslot, ps, d, k);
    }
  }

  lemma NoEmptyRows(timeslot: int, ps: seq<Packet>)
    requires timeslot > 0 && ps != []
    ensures SlotMap(timeslot, ps) != map[]
    ensures forall d :: d in SlotMap(timeslot, ps) ==> SlotMap(timeslot, ps)[d] != map[]
  {
    assert ps[0] in ps;
    assert ps[0].deviceId in DevicesOf(ps);
    forall d | d in SlotMap(timeslot, ps) ensures SlotMap(timeslot, ps)[d] != map[] {
      var p :| p in ps && p.deviceId == d;
      FilterMembers(WithKey(DeviceKey(), d), ps);
      assert SlotKey(timeslot)(p) in SlotMap(timeslot, ps)[d];
    }
  }

  /** ks lists the cells of a row before slot end, in order. */
  ghost predicate ListsCells(row: Row, end: int, ks: seq<int>) {
    Increasing(ks) && forall k :: k in ks <==> k in row && k < end
  }

  /** blocks were generated from the listed cells, one per cell. */
  ghost predicate CellsMake(c: DivisionParam, name: string, row: Row, ks: seq<int>, blocks: seq<seq<BurstValue>>) {
    |blocks| == |ks| && forall i :: 0 <= i < |ks| ==> ks[i] in row && Generates(c, name, row[ks[i]], blocks[i])
  }

  /** blocks were generated from all cells of a row, in slot order. */
  ghost predicate RowDone(c: DivisionParam, name: string, row: Row, ks: seq<int>, blocks: seq<seq<BurstValue>>) {
    Increasing(ks) && (forall k :: k in ks <==> k in row) && CellsMake(c, name, row, ks, blocks)
  }

  /** The converted content of a slot map whose rows were all split. */
  lemma RowsAreSlotted(c: DivisionParam, nameOf: nat -> string, timeslot: int, ps: seq<Packet>,
                       content: map<nat, seq<seq<BurstValue>>>, kss: map<nat, seq<int>>)
    requires timeslot > 0 && content.Keys == kss.Keys == DevicesOf(ps)
    requires forall d :: d in content ==> RowDone(c, nameOf(d), SlotMap(timeslot, ps)[d], kss[d], content[d])
    ensures Slotted(c, nameOf, timeslot, ps, content)
  {
    forall d | d in content
      ensures BlockSlots(timeslot, ps, d, kss[d]) && BlocksFrom(c, nameOf(d), timeslot, ps, d, kss[d], content[d])
    {
      forall k { RowSlots(timeslot, ps, d, k); }
    }
  }

  function BlocksOf<T>(m: map<nat, seq<seq<T>>>, d: nat): seq<seq<T>> {
    if d in m then m[d] else []
  }

  /** More blocks for device d, which gets an entry only with its first block. */
  function Extended<T>(m: map<nat, seq<seq<T>>>, d: nat, more: seq<seq<T>>): map<nat, seq<seq<T>>> {
    if more == [] then m else m[d := BlocksOf(m, d) + more]
  }

  lemma ExtendedTwice<T>(m: map<nat, seq<seq<T>>>, d: nat, a: seq<seq<T>>, b: seq<seq<T>>)
    ensures Extended(Extended(m, d, a), d, b) == Extended(m, d, a + b)
  {
    if a == [] {
      assert a + b == b;
    } else if b == [] {
      assert a + b == a;
    } else {
      ConcatAssoc(BlocksOf(m, d), a, b);
      UpdateTwice(m, d, BlocksOf(m, d) + a, BlocksOf(m, d) + a + b);
    }
  }

  /** The cells of slots from k on. */
  function From(row: Row, k: int): Row {
    map i | i in row && i >= k :: row[i]
  }

  lemma FromSteps(row: Row, k: int)
    ensures From(row, k) - {k} == From(row, k + 1)
  {
  }

  lemma FromEnds(row: Row, start: int, end: int)
    requires RowWithin(row, start, end)
    ensures From(row, start) == row && From(row, end) == map[]
  {
    assert From(row, start).Keys == row.Keys;
    assert From(row, end).Keys == {};
  }

  lemma ListMoves(row: Row, ks: seq<int>, k: int)
    requires ListsCells(row, k, ks)
    ensures ListsCells(row, k + 1, if k in row then ks + [k] else ks)
  {
    if k in row {
      forall i | 0 <= i < |ks| ensures ks[i] < k {
        assert ks[i] in ks;
      }
    }
  }

  lemma CellMade(c: DivisionParam, name: string, row: Row, ks: seq<int>, blocks: seq<seq<BurstValue>>, k: int,
                 made: seq<seq<BurstValue>>)
    requires CellsMake(c, name, row, ks, blocks) && CellDone(c, name, From(row, k), k, made)
    ensures CellsMake(c, name, row, if k in row then ks + [k] else ks, blocks + made)
  {
    hide Generates;
    if k !in row {
      assert blocks + made == blocks;
    }
  }

  /** What splitting one cell makes: one block if the cell is there, otherwise nothing. */
  ghost predicate CellDone(c: DivisionParam, name: string, row: Row, k: int, made: seq<seq<BurstValue>>) {
    if k in row then |made| == 1 && Generates(c, name, row[k], made[0]) else made == []
  }

  /** Every cell of every row lies in a slot from start up to but not including end. */
  ghost predicate Covers(slots: map<nat, Row>, start: int, end: int) {
    forall d :: d in slots ==> RowWithin(slots[d], start, end)
  }

  ghost predicate RowWithin(row: Row, start: int, end: int) {
    forall k :: k in row ==> start <= k < end
  }

  /** The blocks hold frozen bursts: nothing changes a burst once its generator has returned it. */
  class Converter {
    const c: DivisionParam
    const timeslot: int
    const nameOf: nat -> string
    var slots: map<nat, Row>
    var content: map<nat, seq<seq<BurstValue>>>

    constructor (c: DivisionParam, timeslot: int, nameOf: nat -> string)
      ensures this.c == c && this.timeslot == timeslot && this.nameOf == nameOf
      ensures slots == map[] && content == map[]
    {
      this.c, this.timeslot, this.nameOf := c, timeslot, nameOf;
      slots, content := map[], map[];
    }

    /** Converts a whole non-empty dataset. */
    method PktDatasetCvtoBursts(packetDataset: seq<Packet>) returns (result: map<nat, seq<seq<BurstValue>>>)
      requires timeslot > 0 && slots == map[] && content == map[]
      requires packetDataset != [] && AllTimed(packetDataset)
      modifies this
      ensures result == content && slots == map[]
      ensures Slotted(c, nameOf, timeslot, packetDataset, result)
      ensures forall d :: d in result <==> exists p :: p in packetDataset && p.deviceId == d
    {
      DevicesSeen(packetDataset);
      hide RowDone, Slotted, SlotMap;
      FillSlots(packetDataset);
      NoEmptyRows(timeslot, packetDataset);
      ghost var kss := SplitSlots();
      RowsAreSlotted(c, nameOf, timeslot, packetDataset, content, kss);
      result := content;
    }

    method FillSlots(packetDataset: seq<Packet>)
      requires timeslot > 0 && slots == map[]
      modifies this`slots
      ensures slots == SlotMap(timeslot, packetDataset)
    {
      hide SlotMap;
      NoSlots(timeslot);
      for i := 0 to |packetDataset|
        invariant slots == SlotMap(timeslot, packetDataset[..i])
      {
        var slotId := packetDataset[i].stamp.sec / timeslot;
        SlotMapSnoc(timeslot, packetDataset[..i], packetDataset[i]);
        assert packetDataset[..i + 1] == packetDataset[..i] + [packetDataset[i]];
        AddPacket(packetDataset[i].deviceId, slotId, packetDataset[i]);
      }
      WholePrefix(packetDataset);
    }

    method AddPacket(deviceId: nat, slotId: int, packet: Packet)
      modifies this`slots
      ensures slots == WithPacket(old(slots), deviceId, slotId, packet)
    {
      ghost var row, before := RowOf(slots, deviceId), slots;
      if deviceId !in slots || slotId !in slots[deviceId] {
        slots := slots[deviceId := RowOf(slots, deviceId)[slotId := []]];
        UpdateTwice(row, slotId, [], [packet]);
        UpdateTwice(before, deviceId, row[slotId := []], row[slotId := [packet]]);
        assert [] + [packet] == [packet];
      }
      slots := slots[deviceId := slots[deviceId][slotId := slots[deviceId][slotId] + [packet]]];
    }

    /** Splits every row between the first and the last slot that occurs in any row. */
    method SplitSlots() returns (ghost kss: map<nat, seq<int>>)
      requires content == map[] && slots != map[] && forall d :: d in slots ==> slots[d] != map[]
      modifies this
      ensures slots == map[] && content.Keys == kss.Keys == old(slots).Keys
      ensures forall d :: d in content ==> RowDone(c, nameOf(d), old(slots)[d], kss[d], content[d])
    {
      hide RowDone;
      var timeSlots := CollectSlots();
      ghost var d := SomeKey(slots);
      ghost var k := SomeKey(slots[d]);
      assert k in slots[d].Keys;
      ghost var lo, hi := SetHasBounds(timeSlots);
      var first :| first in timeSlots && forall k :: k in timeSlots ==> first <= k;
      var last :| last in timeSlots && forall k :: k in timeSlots ==> k <= last;
      kss := SplitRows(first, last + 1);
      slots := map[];
    }

    method CollectSlots() returns (timeSlots: set<int>)
      ensures forall d :: d in slots ==> slots[d].Keys <= timeSlots
    {
      timeSlots := {};
      var remaining := slots.Keys;
      while remaining != {}
        invariant remaining <= slots.Keys
        invariant forall d :: d in slots && d !in remaining ==> slots[d].Keys <= timeSlots
        decreases remaining
      {
        var d :| d in remaining;
        timeSlots := timeSlots + slots[d].Keys;
        remaining := remaining - {d};
      }
    }

    /** Walks the devices in an arbitrary order. */
    method SplitRows(start: int, end: int) returns (ghost kss: map<nat, seq<int>>)
      requires content == map[] && Covers(slots, start, end) && start < end
      requires forall d :: d in slots ==> slots[d] != map[]
      modifies this
      ensures content.Keys == kss.Keys == old(slots).Keys
      ensures forall d :: d in content ==> RowDone(c, nameOf(d), old(slots)[d], kss[d], content[d])
    {
      hide RowDone, RowWithin;
      kss := map[];
      var remaining := slots.Keys;
      while remaining != {}
        invariant slots.Keys == old(slots).Keys && remaining <= slots.Keys
        invariant forall d :: d in remaining ==> slots[d] == old(slots)[d]
        invariant content.Keys == kss.Keys == slots.Keys - remaining
        invariant forall d :: d in content ==> RowDone(c, nameOf(d), old(slots)[d], kss[d], content[d])
        decreases remaining
      {
        var d :| d in remaining;
        ghost var ks := SplitRow(d, start, end);
        kss, remaining := kss[d := ks], remaining - {d};
      }
    }

    /** All slots of one device, in order. */
    method SplitRow(d: nat, start: int, end: int) returns (ghost ks: seq<int>)
      requires d in slots && d !in content && start < end
      requires slots[d] != map[] && RowWithin(slots[d], start, end)
      modifies this
      ensures slots == old(slots)[d := map[]]
      ensures d in content && content == old(content)[d := content[d]]
      ensures RowDone(c, nameOf(d), old(slots)[d], ks, content[d])
    {
      hide ListsCells, CellsMake, CellDone, From, RowWithin, RowDone;
      ks := [];
      ghost var row := slots[d];
      ghost var blocks := [];
      FromEnds(row, start, end);
      NothingMade(c, nameOf(d), row, start, end);
      for slotId := start to end
        invariant slots == old(slots)[d := From(row, slotId)]
        invariant content == Extended(old(content), d, blocks)
        invariant ListsCells(row, slotId, ks) && CellsMake(c, nameOf(d), row, ks, blocks)
      {
        ghost var made := SplitSlot(d, slotId);
        FromSteps(row, slotId);
        UpdateTwice(old(slots), d, From(row, slotId), From(row, slotId + 1));
        ExtendedTwice(old(content), d, blocks, made);
        ListMoves(row, ks, slotId);
        CellMade(c, nameOf(d), row, ks, blocks, slotId, made);
        blocks := blocks + made;
        ks := if slotId in row then ks + [slotId] else ks;
      }
      RowComplete(c, nameOf(d), row, start, end, ks, blocks);
      assert [] + blocks == blocks;
    }

    /** One slot of one device: nothing if it is empty, otherwise one block. */
    method SplitSlot(d: nat, slotId: int) returns (ghost made: seq<seq<BurstValue>>)
      requires d in slots
      modifies this
      ensures slots == old(slots)[d := old(slots)[d] - {slotId}]
      ensures CellDone(c, nameOf(d), old(slots)[d], slotId, made)
      ensures content == Extended(old(content), d, made)
    {
      hide Generates;
      made := [];
      if slotId !in slots[d] {
        assert slots[d] - {slotId} == slots[d];
        return;
      }
      var generator := new DeviceBurstGenerator(slots[d][slotId], nameOf(d), c);
      var burstBlock := ValuesOf(generator.burstVec);
      assert burstBlock == generator.vals;
      made := [burstBlock];
      content := content[d := BlocksOf(content, d) + [burstBlock]];
      slots := slots[d := slots[d] - {slotId}];
    }
  }

  lemma NothingMade(c: DivisionParam, name: string, row: Row, start: int, end: int)
    requires RowWithin(row, start, end)
    ensures ListsCells(row, start, []) && CellsMake(c, name, row, [], [])
  {
  }

  lemma RowComplete(c: DivisionParam, name: string, row: Row, start: int, end: int, ks: seq<int>,
                    blocks: seq<seq<BurstValue>>)
    requires row != map[] && RowWithin(row, start, end) && ListsCells(row, end, ks) &&
             CellsMake(c, name, row, ks, blocks)
    ensures blocks != [] && RowDone(c, name, row, ks, blocks)
  {
    var k := SomeKey(row);
    assert k in ks;
  }
}
