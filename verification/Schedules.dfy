/**
 * The order in which the tasks of src/KBurstClassifier.cpp:263-332 reach the score: every task adds its predictions one
 * after the other, and the tasks of all devices interleave freely.
 */
module Schedules {
  import opened Collections
  import opened Tasks
  import opened Scoring

  /** log takes the next prediction of some run at every step, until all runs are used up. */
  ghost predicate Interleaves(log: seq<Prediction>, runs: seq<seq<Prediction>>)
    decreases |log|
  {
    if log == [] then forall i :: 0 <= i < |runs| ==> runs[i] == []
    else exists i :: TakesLast(log, runs, i) && Interleaves(log[..|log| - 1], DropLast(runs, i))
  }

  ghost predicate TakesLast(log: seq<Prediction>, runs: seq<seq<Prediction>>, i: int)
    requires log != []
  {
    0 <= i < |runs| && runs[i] != [] && runs[i][|runs[i]| - 1] == log[|log| - 1]
  }

  /** The runs before run i took its last step. */
  function DropLast(runs: seq<seq<Prediction>>, i: int): (r: seq<seq<Prediction>>)
    ensures |r| == |runs|
  {
    if 0 <= i < |runs| && runs[i] != [] then runs[i := runs[i][..|runs[i]| - 1]] else runs
  }

  /** The indices that log records for type t. */
  function Typed(t: string, log: seq<Prediction>): seq<int> {
    IndicesOf(Filter(OfType(t), log))
  }

  lemma TypedSnoc(t: string, log: seq<Prediction>, p: Prediction)
    ensures Typed(t, log + [p]) == Typed(t, log) + (if p.trueType == t then [p.index] else [])
  {
    Scoring.KeptSnoc(OfType(t), log, p);
  }

  lemma TypedLast(t: string, log: seq<Prediction>)
    requires log != []
    ensures var p := log[|log| - 1];
            Typed(t, log) == Typed(t, log[..|log| - 1]) + (if p.trueType == t then [p.index] else [])
  {
    hide Typed;
    var n := |log| - 1;
    assert log == log[..n] + [log[n]];
    TypedSnoc(t, log[..n], log[n]);
  }

  /** The indices that the runs record for type t, run after run. */
  function AllTyped(t: string, runs: seq<seq<Prediction>>): seq<int> {
    if runs == [] then [] else AllTyped(t, runs[..|runs| - 1]) + Typed(t, runs[|runs| - 1])
  }

  lemma NoneTyped(t: string)
    ensures Typed(t, []) == [] && AllTyped(t, []) == []
  {
  }

  lemma AllTypedSnoc(t: string, runs: seq<seq<Prediction>>, run: seq<Prediction>)
    ensures AllTyped(t, runs + [run]) == AllTyped(t, runs) + Typed(t, run)
  {
    assert (runs + [run])[..|runs|] == runs;
  }

  lemma {:induction false} AllTypedConcat(t: string, a: seq<seq<Prediction>>, b: seq<seq<Prediction>>)
    ensures AllTyped(t, a + b) == AllTyped(t, a) + AllTyped(t, b)
  {
    hide AllTyped, Typed;
    NoneTyped(t);
    if b == [] {
      assert a + b == a;
    } else {
      var n := |b| - 1;
      AllTypedConcat(t, a, b[..n]);
      AllTypedSnoc(t, a + b[..n], b[n]);
      AllTypedSnoc(t, b[..n], b[n]);
      assert a + b == a + b[..n] + [b[n]] && b == b[..n] + [b[n]];
    }
  }

  lemma {:induction false} EmptyRuns(t: string, runs: seq<seq<Prediction>>)
    requires forall i :: 0 <= i < |runs| ==> runs[i] == []
    ensures AllTyped(t, runs) == []
  {
    if runs != [] {
      var n := |runs| - 1;
      EmptyRuns(t, runs[..n]);
      NoneTyped(t);
    }
  }

  lemma AllTypedLast(t: string, runs: seq<seq<Prediction>>)
    requires runs != []
    ensures AllTyped(t, runs) == AllTyped(t, runs[..|runs| - 1]) + Typed(t, runs[|runs| - 1])
  {
    hide Typed;
  }

  lemma DropLastParts(runs: seq<seq<Prediction>>, i: nat)
    requires i < |runs| && runs[i] != []
    ensures var n := |runs| - 1; var fewer := DropLast(runs, i);
            if i == n then fewer[..n] == runs[..n] && fewer[n] == runs[n][..|runs[n]| - 1]
            else fewer[..n] == DropLast(runs[..n], i) && fewer[n] == runs[n]
  {
  }

  /** The last step of run i adds its index, whatever the position of the run. */
  lemma {:induction false} LastStepAdds(t: string, runs: seq<seq<Prediction>>, i: nat)
    requires i < |runs| && runs[i] != []
    ensures var p := runs[i][|runs[i]| - 1];
            multiset(AllTyped(t, runs)) ==
              multiset(AllTyped(t, DropLast(runs, i))) + multiset(if p.trueType == t then [p.index] else [])
  {
    hide AllTyped, Typed, DropLast;
    var n := |runs| - 1;
    AllTypedLast(t, runs);
    AllTypedLast(t, DropLast(runs, i));
    DropLastParts(runs, i);
    if i == n {
      TypedLast(t, runs[n]);
    } else {
      LastStepAdds(t, runs[..n], i);
    }
  }

  /** Interleaving changes the order of the indices of a type and nothing else. */
  lemma {:induction false} InterleavingKeepsIndices(log: seq<Prediction>, runs: seq<seq<Prediction>>, t: string)
    requires Interleaves(log, runs)
    ensures multiset(Typed(t, log)) == multiset(AllTyped(t, runs))
    decreases |log|
  {
    hide AllTyped, Typed, DropLast;
    if log == [] {
      EmptyRuns(t, runs);
      NoneTyped(t);
    } else {
      var i :| TakesLast(log, runs, i) && Interleaves(log[..|log| - 1], DropLast(runs, i));
      InterleavingKeepsIndices(log[..|log| - 1], DropLast(runs, i), t);
      LastStepAdds(t, runs, i);
      TypedLast(t, log);
    }
  }

  // ---------- the runs of a test set ----------

  /** A device: the type label of its bursts, and which of its groups pass the packet-count filter. */
  datatype Device = Device(name: string, kept: seq<bool>)

  /** One task: n predictions of one type under consecutive indices from base. */
  ghost predicate TaskRun(name: string, base: nat, n: nat, run: seq<Prediction>) {
    IndicesOf(run) == Range(base, base + n) && forall p :: p in run ==> p.trueType == name
  }

  /** The tasks of one device: task k starts at index k * e. */
  ghost predicate DeviceRuns(name: string, counts: seq<nat>, e: nat, runs: seq<seq<Prediction>>) {
    |runs| == |counts| && forall k: nat :: k < |runs| ==> TaskRun(name, k * e, counts[k], runs[k])
  }

  /** The tasks of all devices. */
  ghost predicate TestSetRuns(devices: seq<Device>, e: nat, runs: seq<seq<seq<Prediction>>>)
    requires e >= 1
  {
    |runs| == |devices| &&
    forall d :: 0 <= d < |devices| ==> DeviceRuns(devices[d].name, KeptPerTask(devices[d].kept, e), e, runs[d])
  }

  /** How many groups each task of each device of type t keeps. */
  function CountsOf(t: string, devices: seq<Device>, e: nat): seq<seq<nat>>
    requires e >= 1
  {
    if devices == [] then []
    else
      var n := |devices| - 1;
      CountsOf(t, devices[..n], e) +
      (if devices[n].name == t then [KeptPerTask(devices[n].kept, e)] else [])
  }

  lemma TypedRun(t: string, name: string, base: nat, n: nat, run: seq<Prediction>)
    requires TaskRun(name, base, n, run)
    ensures Typed(t, run) == if name == t then Range(base, base + n) else []
  {
    if name == t {
      FilterAll(OfType(t), run);
    } else {
      FilterNone(OfType(t), run);
    }
  }

  lemma DeviceRunsPrefix(name: string, counts: seq<nat>, e: nat, runs: seq<seq<Prediction>>)
    requires DeviceRuns(name, counts, e, runs) && counts != []
    ensures DeviceRuns(name, counts[..|counts| - 1], e, runs[..|runs| - 1])
    ensures var k := |counts| - 1; TaskRun(name, k * e, counts[k], runs[k])
  {
    hide TaskRun;
  }

  lemma OneRunPerTask(name: string, counts: seq<nat>, e: nat, runs: seq<seq<Prediction>>)
    requires DeviceRuns(name, counts, e, runs)
    ensures |runs| == |counts|
  {
    hide TaskRun;
  }

  lemma NoTasks(e: nat)
    ensures Recorded([], e) == []
  {
  }

  lemma RecordedLast(counts: seq<nat>, e: nat)
    requires counts != []
    ensures var k := |counts| - 1;
            Recorded(counts, e) == Recorded(counts[..k], e) + Range(k * e, k * e + counts[k])
  {
    hide Range;
  }

  lemma {:induction false} DeviceRecords(t: string, name: string, counts: seq<nat>, e: nat,
                                         runs: seq<seq<Prediction>>)
    requires DeviceRuns(name, counts, e, runs)
    ensures AllTyped(t, runs) == if name == t then Recorded(counts, e) else []
  {
    hide DeviceRuns, TaskRun, Typed, AllTyped, Recorded, Range;
    NoneTyped(t);
    NoTasks(e);
    OneRunPerTask(name, counts, e, runs);
    if counts != [] {
      var k := |counts| - 1;
      DeviceRunsPrefix(name, counts, e, runs);
      DeviceRecords(t, name, counts[..k], e, runs[..k]);
      TypedRun(t, name, k * e, counts[k], runs[k]);
      assert runs == runs[..k] + [runs[k]];
      AllTypedSnoc(t, runs[..k], runs[k]);
      RecordedLast(counts, e);
    }
  }

  /** All tasks of a type's devices together record what the devices record. */
  lemma {:induction false} TestSetRecords(t: string, devices: seq<Device>, e: nat, runs: seq<seq<seq<Prediction>>>)
    requires e >= 1 && TestSetRuns(devices, e, runs)
    ensures AllTyped(t, Flatten(runs)) == AllRecorded(CountsOf(t, devices, e), e)
    ensures AllBounded(CountsOf(t, devices, e), e)
  {
    if devices == [] {
      NoneTyped(t);
    } else {
      var n := |devices| - 1;
      TestSetRecords(t, devices[..n], e, runs[..n]);
      OneMoreDevice(t, devices, e, runs);
    }
  }

  lemma CountsOfSnoc(t: string, devices: seq<Device>, e: nat)
    requires e >= 1 && devices != []
    ensures var n := |devices| - 1; var counts := KeptPerTask(devices[n].kept, e);
            (devices[n].name != t ==> CountsOf(t, devices, e) == CountsOf(t, devices[..n], e)) &&
            (devices[n].name == t ==> CountsOf(t, devices, e) == CountsOf(t, devices[..n], e) + [counts])
  {
    hide KeptPerTask;
  }

  lemma AllRecordedSnoc(all: seq<seq<nat>>, counts: seq<nat>, e: nat)
    requires AllBounded(all, e) && Bounded(counts, e)
    ensures AllRecorded(all + [counts], e) == AllRecorded(all, e) + Recorded(counts, e)
    ensures AllBounded(all + [counts], e)
  {
    hide Recorded, Bounded;
    assert (all + [counts])[..|all|] == all;
  }

  lemma OneMoreDevice(t: string, devices: seq<Device>, e: nat, runs: seq<seq<seq<Prediction>>>)
    requires e >= 1 && devices != [] && TestSetRuns(devices, e, runs)
    requires var n := |devices| - 1;
             AllTyped(t, Flatten(runs[..n])) == AllRecorded(CountsOf(t, devices[..n], e), e) &&
             AllBounded(CountsOf(t, devices[..n], e), e)
    ensures AllTyped(t, Flatten(runs)) == AllRecorded(CountsOf(t, devices, e), e)
    ensures AllBounded(CountsOf(t, devices, e), e)
  {
    hide AllTyped, AllRecorded, AllBounded, CountsOf, KeptPerTask, DeviceRuns, Flatten, Recorded;
    var n := |devices| - 1;
    var counts := KeptPerTask(devices[n].kept, e);
    assert runs == runs[..n] + [runs[n]];
    FlattenSnoc(runs[..n], runs[n]);
    AllTypedConcat(t, Flatten(runs[..n]), runs[n]);
    DeviceRecords(t, devices[n].name, counts, e, runs[n]);
    CountsOfSnoc(t, devices, e);
    KeptBounded(devices[n].kept, e);
    AllRecordedSnoc(CountsOf(t, devices[..n], e), counts, e);
  }

  /**
   * Whatever way the tasks of all devices interleave: every slot of a type's result string is written exactly once if
   * and only if no task number is used by two of its devices that keep a group there, and the counts of its devices
   * together are filtered at the end only.
   */
  lemma InterleavedSlotsOnce(log: seq<Prediction>, t: string, devices: seq<Device>, e: nat,
                             runs: seq<seq<seq<Prediction>>>)
    requires e >= 1 && TestSetRuns(devices, e, runs) && Interleaves(log, Flatten(runs))
    ensures var all := AllIndices(SheetOf(log, t));
            multiset(all) == multiset(Range(0, |all|)) <==>
            NoTaskShared(CountsOf(t, devices, e)) && FilteredAtEnd(AllTogether(CountsOf(t, devices, e)), e)
  {
    hide SheetOf, AllIndices, AllTyped, AllRecorded, AllBounded, NoTaskShared, AllTogether, FilteredAtEnd, Interleaves;
    InterleavingKeepsIndices(log, Flatten(runs), t);
    TestSetRecords(t, devices, e, runs);
    DevicesSlotsOnce(log, t, CountsOf(t, devices, e), e);
  }

  lemma OneDeviceRecords(counts: seq<nat>, e: nat)
    requires AllBounded([counts], e)
    ensures AllRecorded([counts], e) == Recorded(counts, e) && Bounded(counts, e)
  {
    assert [counts][..0] == [] && [counts][0] == counts;
  }

  /**
   * Whatever way the tasks interleave: when one device alone has type t, its result string has room for every index if
   * and only if no task that keeps a group follows one that filtered a group out, and then every slot is written once.
   */
  lemma OneDeviceSlots(log: seq<Prediction>, t: string, devices: seq<Device>, counts: seq<nat>, e: nat,
                       runs: seq<seq<seq<Prediction>>>)
    requires e >= 1 && TestSetRuns(devices, e, runs) && Interleaves(log, Flatten(runs))
    requires CountsOf(t, devices, e) == [counts]
    ensures var all := AllIndices(SheetOf(log, t));
            |all| == SumOf(counts) && (InBounds(all, |all|) <==> FilteredAtEnd(counts, e)) &&
            (FilteredAtEnd(counts, e) ==> multiset(all) == multiset(Range(0, |all|)))
  {
    hide SheetOf, AllIndices, AllTyped, AllRecorded, AllBounded, Bounded, FilteredAtEnd, Interleaves, CountsOf;
    InterleavingKeepsIndices(log, Flatten(runs), t);
    TestSetRecords(t, devices, e, runs);
    OneDeviceRecords(counts, e);
    SlotsWrittenOnce(log, t, counts, e);
  }
}
