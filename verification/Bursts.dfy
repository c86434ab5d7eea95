/** The Burst objects of include/Burst.h and src/Burst.cpp, which are filled and sorted in place. */
module Bursts {
  import opened Collections
  import opened Packets
  import opened BurstValues

  /** Outcome of Validate: valid, or the exception code it throws. */
  datatype Verdict = Valid | UnknownDevice | UniNumberMismatch | NumberMismatch | UniNumberOverflow

  class Burst {
    var uniPktNum: byte
    var pktNum: int
    var instanceLabel: string
    var firstPacketStamp: TimeSpec
    var lastPacketStamp: TimeSpec
    var packetDetail: seq<SigCount>

    function Value(): BurstValue
      reads this
    {
      BurstValue(instanceLabel, uniPktNum, pktNum, firstPacketStamp, lastPacketStamp, packetDetail)
    }

    constructor Fresh(name: string)
      ensures Value() == Empty(name)
    {
      uniPktNum, pktNum := 0, 0;
      instanceLabel := name;
      firstPacketStamp, lastPacketStamp := ZERO_STAMP, ZERO_STAMP;
      packetDetail := [];
    }

    /** The burst that a whole group of bursts adds up to. */
    constructor Merged(burstVec: seq<Burst>)
      ensures Value() == MergedValue(ValuesOf(burstVec))
    {
      uniPktNum, pktNum := 0, 0;
      instanceLabel := if |burstVec| > 0 then burstVec[0].instanceLabel else "";
      firstPacketStamp, lastPacketStamp := ZERO_STAMP, ZERO_STAMP;
      packetDetail := [];
      new;
      AddBursts(burstVec);
    }

    /** Adds all packets of all given bursts. */
    method AddBursts(burstVec: seq<Burst>)
      requires Indexed(Value()) && this !in burstVec
      modifies this
      ensures Value() == AddAll(old(Value()), MergeSigs(old(ValuesOf(burstVec))))
    {
      hide AddAll, Expand, Indexed;
      ghost var vals := ValuesOf(burstVec);
      NothingAdded(Value());
      for i := 0 to |burstVec|
        invariant Indexed(Value()) && ValuesOf(burstVec) == vals
        invariant Value() == AddAll(old(Value()), MergeSigs(vals[..i]))
      {
        AddDetail(burstVec[i].packetDetail);
        AddAllConcat(old(Value()), MergeSigs(vals[..i]), Expand(vals[i].detail));
        MergeSigsSnoc(vals, i);
      }
      WholePrefix(vals);
    }

    method AddDetail(detail: seq<SigCount>)
      requires Indexed(Value())
      modifies this
      ensures Value() == AddAll(old(Value()), Expand(detail))
    {
      for j := 0 to |detail|
        invariant Indexed(Value())
        invariant Value() == AddAll(old(Value()), Expand(detail[..j]))
      {
        AddRepeated(detail[j].sig, detail[j].num);
        AddAllConcat(old(Value()), Expand(detail[..j]), Repeat(detail[j].sig, detail[j].num));
        assert detail[..j + 1][..j] == detail[..j];
      }
      assert detail[..|detail|] == detail;
    }

    method AddRepeated(sig: int, num: int)
      requires Indexed(Value())
      modifies this
      ensures Value() == AddAll(old(Value()), Repeat(sig, num))
    {
      var i := 0;
      while i < num
        invariant i == 0 || i <= num
        invariant Indexed(Value())
        invariant Value() == AddAll(old(Value()), Repeat(sig, i))
      {
        AddSig(sig);
        i := i + 1;
        assert Repeat(sig, i)[..i - 1] == Repeat(sig, i - 1);
      }
    }

    /** Bumps the entry of a signature already recorded, if the search finds one. */
    method PiggyBack(sig: int) returns (found: bool)
      requires Indexed(Value())
      modifies this
      ensures found <==> FirstEntry(old(packetDetail), old(uniPktNum), sig) < old(uniPktNum)
      ensures found ==> Value() == AddSigTo(old(Value()), sig)
      ensures !found ==> Value() == old(Value())
    {
      for i := 0 to uniPktNum
        invariant Value() == old(Value())
        invariant forall k :: 0 <= k < i ==> packetDetail[k].sig != sig
      {
        if packetDetail[i].sig == sig {
          packetDetail := packetDetail[i := SigCount(sig, packetDetail[i].num + 1)];
          pktNum := pktNum + 1;
          return true;
        }
      }
      return false;
    }

    method AddSig(sig: int)
      requires Indexed(Value())
      modifies this
      ensures Value() == AddSigTo(old(Value()), sig)
    {
      var found := PiggyBack(sig);
      if !found {
        packetDetail := packetDetail + [SigCount(sig, 1)];
        pktNum := pktNum + 1;
        uniPktNum := (uniPktNum + 1) % 256;
      }
    }

    method AddPacket(packet: Packet)
      requires Indexed(Value())
      modifies this
      ensures Value() == AddSigTo(old(Value()), packet.signedLen)
    {
      AddSig(packet.signedLen);
    }

    method SetFirstPacketStamp(packet: Packet)
      modifies this
      ensures Value() == old(Value()).(firstStamp := packet.stamp)
    {
      firstPacketStamp := packet.stamp;
    }

    method SetLastPacketStamp(packet: Packet)
      modifies this
      ensures Value() == old(Value()).(lastStamp := packet.stamp)
    {
      lastPacketStamp := packet.stamp;
    }

    method SortDetail()
      modifies this
      ensures Value() == Canon(old(Value()))
    {
      packetDetail := SortBySig(packetDetail);
    }

    /** Validate accepts exactly the labelled bursts whose counters match their entries. */
    method Validate(maxUniSig: byte) returns (verdict: Verdict)
      ensures verdict == Valid <==> Acceptable(Value(), maxUniSig)
      ensures verdict == Valid <==> instanceLabel != "" && |packetDetail| == uniPktNum &&
                                    Total(packetDetail) == pktNum && uniPktNum <= maxUniSig
      ensures verdict == UnknownDevice <==> instanceLabel == ""
      ensures verdict == UniNumberMismatch <==> instanceLabel != "" && |packetDetail| != uniPktNum
      ensures verdict == NumberMismatch ==> |packetDetail| == uniPktNum && Total(packetDetail) != pktNum
      ensures verdict == UniNumberOverflow ==> uniPktNum > maxUniSig
    {
      var count, uniquePacketNum := 0, 0;
      if |instanceLabel| == 0 {
        return UnknownDevice;
      }
      for k := 0 to |packetDetail|
        invariant uniquePacketNum == k && count == Total(packetDetail[..k])
      {
        uniquePacketNum := uniquePacketNum + 1;
        count := count + packetDetail[k].num;
        assert packetDetail[..k + 1][..k] == packetDetail[..k];
      }
      assert packetDetail[..|packetDetail|] == packetDetail;
      if uniquePacketNum != uniPktNum {
        return UniNumberMismatch;
      }
      if count != pktNum {
        return NumberMismatch;
      }
      if uniPktNum > maxUniSig {
        return UniNumberOverflow;
      }
      return Valid;
    }

    /** operator==: the early exits compare exactly the keys. */
    method Equals(other: Burst) returns (equal: bool)
      requires uniPktNum <= |packetDetail| && other.uniPktNum <= |other.packetDetail|
      ensures equal <==> KeyOf(Value()) == KeyOf(other.Value())
      ensures equal <==> uniPktNum == other.uniPktNum && pktNum == other.pktNum &&
                         forall i :: 0 <= i < uniPktNum ==> packetDetail[i] == other.packetDetail[i]
    {
      if uniPktNum != other.uniPktNum || pktNum != other.pktNum {
        return false;
      }
      for i := 0 to uniPktNum
        invariant packetDetail[..i] == other.packetDetail[..i]
      {
        if packetDetail[i].sig != other.packetDetail[i].sig || packetDetail[i].num != other.packetDetail[i].num {
          assert packetDetail[..uniPktNum][i] != other.packetDetail[..uniPktNum][i];
          return false;
        }
      }
      return true;
    }

    /** std::hash: a function of the key, so equal bursts hash alike. */
    method HashCode(h: Hasher) returns (seed: int)
      requires uniPktNum <= |packetDetail| && forall k :: 0 <= k < uniPktNum ==> packetDetail[k].num >= 0
      ensures seed == HashOf(h, KeyOf(Value()))
    {
      seed := h.start(uniPktNum);
      ghost var prefix := packetDetail[..uniPktNum];
      for i := 0 to uniPktNum
        invariant seed == HashPrefix(h, uniPktNum, prefix[..i])
      {
        seed := h.mix(seed, packetDetail[i].sig, packetDetail[i].num % 30);
        assert prefix[..i + 1][..i] == prefix[..i];
      }
      assert prefix[..uniPktNum] == prefix;
      seed := h.finish(seed, pktNum);
    }
  }

  /** The contents of a list of bursts. */
  function ValuesOf(bs: seq<Burst>): (r: seq<BurstValue>)
    reads bs
    ensures |r| == |bs| && forall i :: 0 <= i < |bs| ==> r[i] == bs[i].Value()
  {
    if bs == [] then [] else ValuesOf(bs[..|bs| - 1]) + [bs[|bs| - 1].Value()]
  }

  /** The objects bs lie in repr and hold the contents vals. */
  ghost predicate Holds(bs: seq<Burst>, vals: seq<BurstValue>, repr: set<Burst>)
    reads repr
  {
    |bs| == |vals| && forall i :: 0 <= i < |bs| ==> bs[i] in repr && bs[i].Value() == vals[i]
  }
}
