/** The score sheets of src/Score.cpp: one prediction after the other, in whatever order the tasks deliver them. */
module Scoring {
  import opened Collections
  import opened Tasks
  import Voting

  /** One scored prediction; type labels are opaque names. */
  datatype Prediction = Prediction(trueType: string, predictType: string, index: int)

  datatype ScoreSheet = ScoreSheet(missNum: int, TP: int, FN: int, FP: int,
                                   missIndexVector: seq<int>, correctVector: seq<int>, wrongVector: seq<int>)

  const NEW_SHEET := ScoreSheet(0, 0, 0, 0, [], [], [])

  // ---------- what the counters count ----------

  function IsMiss(t: string): Prediction -> bool {
    (p: Prediction) => p.predictType == Voting.UNRELIABLE && p.trueType == t
  }

  function IsCorrect(t: string): Prediction -> bool {
    (p: Prediction) => p.predictType != Voting.UNRELIABLE && p.trueType == t && p.predictType == t
  }

  function IsWrong(t: string): Prediction -> bool {
    (p: Prediction) => p.predictType != Voting.UNRELIABLE && p.trueType == t && p.predictType != t
  }

  function IsFalseAlarm(t: string): Prediction -> bool {
    (p: Prediction) => p.predictType != Voting.UNRELIABLE && p.trueType != t && p.predictType == t
  }

  function IndicesOf(log: seq<Prediction>): seq<int> {
    MapSeq((p: Prediction) => p.index, log)
  }

  /** The sheet of type t after the predictions in log. */
  function SheetOf(log: seq<Prediction>, t: string): ScoreSheet {
    ScoreSheet(|Filter(IsMiss(t), log)|, |Filter(IsCorrect(t), log)|,
               |Filter(IsWrong(t), log)|, |Filter(IsFalseAlarm(t), log)|,
               IndicesOf(Filter(IsMiss(t), log)), IndicesOf(Filter(IsCorrect(t), log)),
               IndicesOf(Filter(IsWrong(t), log)))
  }

  function SheetAt(sheet: map<string, ScoreSheet>, t: string): ScoreSheet {
    if t in sheet then sheet[t] else NEW_SHEET
  }

  /** Every sheet is what the predictions make it; types without a sheet have nothing to count. */
  ghost predicate Tallied(log: seq<Prediction>, sheet: map<string, ScoreSheet>) {
    forall t: string :: SheetAt(sheet, t) == SheetOf(log, t)
  }

  /** The sheet of type t once prediction p is added. */
  function Scored(s: ScoreSheet, t: string, p: Prediction): ScoreSheet {
    if p.predictType == Voting.UNRELIABLE then
      if p.trueType == t then s.(missNum := s.missNum + 1, missIndexVector := s.missIndexVector + [p.index]) else s
    else if p.trueType == t && p.predictType == t then s.(TP := s.TP + 1, correctVector := s.correctVector + [p.index])
    else if p.trueType == t then s.(FN := s.FN + 1, wrongVector := s.wrongVector + [p.index])
    else if p.predictType == t then s.(FP := s.FP + 1)
    else s
  }

  lemma KeptSnoc(q: Prediction -> bool, log: seq<Prediction>, p: Prediction)
    ensures |Filter(q, log + [p])| == |Filter(q, log)| + (if q(p) then 1 else 0)
    ensures IndicesOf(Filter(q, log + [p])) == IndicesOf(Filter(q, log)) + (if q(p) then [p.index] else [])
  {
    FilterSnoc(q, log, p);
  }

  lemma SheetSnoc(log: seq<Prediction>, p: Prediction, t: string)
    ensures SheetOf(log + [p], t) == Scored(SheetOf(log, t), t, p)
  {
    hide Filter, IndicesOf;
    KeptSnoc(IsMiss(t), log, p);
    KeptSnoc(IsCorrect(t), log, p);
    KeptSnoc(IsWrong(t), log, p);
    KeptSnoc(IsFalseAlarm(t), log, p);
  }

  /**
   * What a sheet counts, in the fields of the predictions: misses, hits and errors of its own type, and predictions of
   * its type for others.
   */
  lemma SheetCounts(log: seq<Prediction>, t: string)
    ensures SheetOf(log, t).missNum ==
              |set i | 0 <= i < |log| && log[i].trueType == t && log[i].predictType == "unreliable"|
    ensures SheetOf(log, t).TP ==
              |set i | 0 <= i < |log| && log[i].trueType == t && log[i].predictType == t && t != "unreliable"|
    ensures SheetOf(log, t).FN ==
              |set i | 0 <= i < |log| && log[i].trueType == t && log[i].predictType != t &&
                       log[i].predictType != "unreliable"|
    ensures SheetOf(log, t).FP ==
              |set i | 0 <= i < |log| && log[i].trueType != t && log[i].predictType == t && t != "unreliable"|
  {
    hide Filter;
    MissesAndHits(log, t);
    WrongAndFalseAlarms(log, t);
  }

  lemma MissesAndHits(log: seq<Prediction>, t: string)
    ensures |Filter(IsMiss(t), log)| ==
              |set i | 0 <= i < |log| && log[i].trueType == t && log[i].predictType == "unreliable"|
    ensures |Filter(IsCorrect(t), log)| ==
              |set i | 0 <= i < |log| && log[i].trueType == t && log[i].predictType == t && t != "unreliable"|
  {
    hide Filter;
    PlacesCount(IsMiss(t), log,
                set i | 0 <= i < |log| && log[i].trueType == t && log[i].predictType == "unreliable");
    PlacesCount(IsCorrect(t), log,
                set i | 0 <= i < |log| && log[i].trueType == t && log[i].predictType == t && t != "unreliable");
  }

  lemma WrongAndFalseAlarms(log: seq<Prediction>, t: string)
    ensures |Filter(IsWrong(t), log)| ==
              |set i | 0 <= i < |log| && log[i].trueType == t && log[i].predictType != t &&
                       log[i].predictType != "unreliable"|
    ensures |Filter(IsFalseAlarm(t), log)| ==
              |set i | 0 <= i < |log| && log[i].trueType != t && log[i].predictType == t && t != "unreliable"|
  {
    hide Filter;
    PlacesCount(IsWrong(t), log,
                set i | 0 <= i < |log| && log[i].trueType == t && log[i].predictType != t &&
                        log[i].predictType != "unreliable");
    PlacesCount(IsFalseAlarm(t), log,
                set i | 0 <= i < |log| && log[i].trueType != t && log[i].predictType == t && t != "unreliable");
  }

  lemma IndexKept(q: Prediction -> bool, log: seq<Prediction>, x: int)
    ensures x in IndicesOf(Filter(q, log)) <==> exists p :: p in log && q(p) && p.index == x
  {
    hide Filter;
    FilterMembers(q, log);
    var kept := Filter(q, log);
    if p :| p in log && q(p) && p.index == x {
      var i :| 0 <= i < |kept| && kept[i] == p;
      assert IndicesOf(kept)[i] == x;
    }
    if x in IndicesOf(kept) {
      var i :| 0 <= i < |kept| && IndicesOf(kept)[i] == x;
      assert kept[i] in kept;
    }
  }

  /** Which indices a sheet lists under which vector. */
  lemma SheetLists(log: seq<Prediction>, t: string, x: int)
    ensures x in SheetOf(log, t).missIndexVector <==>
            exists p :: p in log && p.trueType == t && p.predictType == "unreliable" && p.index == x
    ensures x in SheetOf(log, t).correctVector <==>
            exists p :: p in log && p.trueType == t && p.predictType == t && t != "unreliable" && p.index == x
    ensures x in SheetOf(log, t).wrongVector <==>
            exists p :: p in log && p.trueType == t && p.predictType != t && p.predictType != "unreliable" &&
                        p.index == x
  {
    hide Filter, IndicesOf;
    IndexKept(IsMiss(t), log, x);
    IndexKept(IsCorrect(t), log, x);
    IndexKept(IsWrong(t), log, x);
  }

  // ---------- totals ----------

  function TPs(): ScoreSheet -> int {
    (s: ScoreSheet) => s.TP
  }

  function FNs(): ScoreSheet -> int {
    (s: ScoreSheet) => s.FN
  }

  function FPs(): ScoreSheet -> int {
    (s: ScoreSheet) => s.FP
  }

  function Misses(): ScoreSheet -> int {
    (s: ScoreSheet) => s.missNum
  }

  ghost function Sum(f: ScoreSheet -> int, sheet: map<string, ScoreSheet>): int {
    MapSum(MapValues(f, sheet))
  }

  lemma SumUpdate(f: ScoreSheet -> int, sheet: map<string, ScoreSheet>, t: string, s: ScoreSheet)
    requires f(NEW_SHEET) == 0
    ensures Sum(f, sheet[t := s]) == Sum(f, sheet) - f(SheetAt(sheet, t)) + f(s)
  {
    MapValuesUpdate(f, sheet, t, s);
    MapSumUpdate(MapValues(f, sheet), t, f(s));
  }

  /** All four sums after one sheet changes. */
  lemma SumsUpdate(sheet: map<string, ScoreSheet>, t: string, s: ScoreSheet)
    ensures Sum(TPs(), sheet[t := s]) == Sum(TPs(), sheet) - SheetAt(sheet, t).TP + s.TP
    ensures Sum(FNs(), sheet[t := s]) == Sum(FNs(), sheet) - SheetAt(sheet, t).FN + s.FN
    ensures Sum(FPs(), sheet[t := s]) == Sum(FPs(), sheet) - SheetAt(sheet, t).FP + s.FP
    ensures Sum(Misses(), sheet[t := s]) == Sum(Misses(), sheet) - SheetAt(sheet, t).missNum + s.missNum
  {
    hide Sum;
    SumUpdate(TPs(), sheet, t, s);
    SumUpdate(FNs(), sheet, t, s);
    SumUpdate(FPs(), sheet, t, s);
    SumUpdate(Misses(), sheet, t, s);
  }

  function Hits(): Prediction -> bool {
    (p: Prediction) => p.predictType != Voting.UNRELIABLE && p.predictType == p.trueType
  }

  function Errors(): Prediction -> bool {
    (p: Prediction) => p.predictType != Voting.UNRELIABLE && p.predictType != p.trueType
  }

  function Unreliables(): Prediction -> bool {
    (p: Prediction) => p.predictType == Voting.UNRELIABLE
  }

  lemma {:induction false} HitsErrorsMisses(log: seq<Prediction>)
    ensures |Filter(Hits(), log)| + |Filter(Errors(), log)| + |Filter(Unreliables(), log)| == |log|
  {
    if log != [] {
      HitsErrorsMisses(log[..|log| - 1]);
    }
  }

  /** The sums over all sheets: hits, errors counted once as FN and once as FP, and misses. */
  ghost predicate Balanced(log: seq<Prediction>, sheet: map<string, ScoreSheet>) {
    Sum(TPs(), sheet) == |Filter(Hits(), log)| && Sum(Misses(), sheet) == |Filter(Unreliables(), log)| &&
    Sum(FNs(), sheet) == Sum(FPs(), sheet) == |Filter(Errors(), log)|
  }

  lemma NothingSummed()
    ensures Balanced([], map[]) && Tallied([], map[])
    ensures Sum(TPs(), map[]) == Sum(FNs(), map[]) == Sum(FPs(), map[]) == Sum(Misses(), map[]) == 0
  {
    assert forall t: string :: SheetOf([], t) == NEW_SHEET;
    var none: map<string, ScoreSheet> := map[];
    assert MapValues(TPs(), none) == MapValues(FNs(), none) == MapValues(FPs(), none) ==
              MapValues(Misses(), none) == map[];
  }

  lemma Filed(log: seq<Prediction>, sheet: map<string, ScoreSheet>, p: Prediction, sheet': map<string, ScoreSheet>)
    requires Tallied(log, sheet) && forall t: string :: SheetAt(sheet', t) == Scored(SheetAt(sheet, t), t, p)
    ensures Tallied(log + [p], sheet')
  {
    hide SheetOf, Scored, SheetAt;
    forall t: string ensures SheetAt(sheet', t) == SheetOf(log + [p], t) {
      SheetSnoc(log, p, t);
    }
  }

  lemma CountsSnoc(log: seq<Prediction>, p: Prediction)
    ensures |Filter(Hits(), log + [p])| == |Filter(Hits(), log)| + (if Hits()(p) then 1 else 0)
    ensures |Filter(Errors(), log + [p])| == |Filter(Errors(), log)| + (if Errors()(p) then 1 else 0)
    ensures |Filter(Unreliables(), log + [p])| == |Filter(Unreliables(), log)| + (if Unreliables()(p) then 1 else 0)
  {
    FilterSnoc(Hits(), log, p);
    FilterSnoc(Errors(), log, p);
    FilterSnoc(Unreliables(), log, p);
  }

  /** A prediction that changes one sheet. */
  lemma OneSheetFiled(log: seq<Prediction>, sheet: map<string, ScoreSheet>, p: Prediction)
    requires Tallied(log, sheet) && Balanced(log, sheet) && !Errors()(p)
    ensures var sheet' := sheet[p.trueType := Scored(SheetAt(sheet, p.trueType), p.trueType, p)];
            Tallied(log + [p], sheet') && Balanced(log + [p], sheet')
  {
    hide Tallied, Sum, Filter;
    var t := p.trueType;
    var sheet' := sheet[t := Scored(SheetAt(sheet, t), t, p)];
    Filed(log, sheet, p, sheet');
    SumsUpdate(sheet, t, Scored(SheetAt(sheet, t), t, p));
    CountsSnoc(log, p);
  }

  /** A wrong prediction changes the sheet of the true type and that of the predicted type. */
  lemma TwoSheetsFiled(log: seq<Prediction>, sheet: map<string, ScoreSheet>, p: Prediction)
    requires Tallied(log, sheet) && Balanced(log, sheet) && Errors()(p)
    ensures var one := sheet[p.trueType := Scored(SheetAt(sheet, p.trueType), p.trueType, p)];
            var two := one[p.predictType := Scored(SheetAt(one, p.predictType), p.predictType, p)];
            Tallied(log + [p], two) && Balanced(log + [p], two)
  {
    hide Tallied, Sum, Filter;
    var t, u := p.trueType, p.predictType;
    var one := sheet[t := Scored(SheetAt(sheet, t), t, p)];
    var two := one[u := Scored(SheetAt(one, u), u, p)];
    Filed(log, sheet, p, two);
    SumsUpdate(sheet, t, Scored(SheetAt(sheet, t), t, p));
    SumsUpdate(one, u, Scored(SheetAt(one, u), u, p));
    CountsSnoc(log, p);
  }

  class Score {
    var sheet: map<string, ScoreSheet>
    /** The predictions so far, in the order in which they took the lock. */
    ghost var log: seq<Prediction>

    ghost predicate Valid()
      reads this
    {
      Tallied(log, sheet) && Balanced(log, sheet)
    }

    constructor ()
      ensures Valid() && log == []
    {
      sheet, log := map[], [];
      new;
      NothingSummed();
    }

    /** Files one prediction under its true type, and a wrong one also under the predicted type. */
    method AddPrediction(trueType: string, predictType: string, index: int)
      requires Valid()
      modifies this
      ensures Valid() && log == old(log) + [Prediction(trueType, predictType, index)]
    {
      hide Tallied, Balanced;
      ghost var p := Prediction(trueType, predictType, index);
      ghost var before := sheet;
      if predictType == Voting.UNRELIABLE {
        AddMiss(trueType, index);
        OneSheetFiled(log, before, p);
      } else {
        var s := SheetAt(sheet, trueType);
        if predictType == trueType {
          sheet := sheet[trueType := s.(TP := s.TP + 1, correctVector := s.correctVector + [index])];
          OneSheetFiled(log, before, p);
        } else {
          sheet := sheet[trueType := s.(FN := s.FN + 1, wrongVector := s.wrongVector + [index])];
          var o := SheetAt(sheet, predictType);
          sheet := sheet[predictType := o.(FP := o.FP + 1)];
          TwoSheetsFiled(log, before, p);
        }
      }
      log := log + [p];
    }

    method AddMiss(trueType: string, missIndex: int)
      modifies this`sheet
      ensures var s := SheetAt(old(sheet), trueType);
              sheet == old(sheet)[trueType := s.(missNum := s.missNum + 1,
                                                 missIndexVector := s.missIndexVector + [missIndex])]
    {
      var s := SheetAt(sheet, trueType);
      sheet := sheet[trueType := s.(missNum := s.missNum + 1, missIndexVector := s.missIndexVector + [missIndex])];
    }

    /** The totals line: the loop over all sheets. */
    method GetSummaryIndex() returns (TP: int, FN: int, FP: int, missNum: int)
      requires Valid()
      ensures TP == |Filter(Hits(), log)| && FN == FP == |Filter(Errors(), log)| &&
               missNum == |Filter(Unreliables(), log)|
      ensures TP == |set i | 0 <= i < |log| && log[i].predictType == log[i].trueType != "unreliable"|
      ensures FN == FP == |set i | 0 <= i < |log| && log[i].predictType != log[i].trueType &&
                                   log[i].predictType != "unreliable"|
      ensures missNum == |set i | 0 <= i < |log| && log[i].predictType == "unreliable"|
      ensures TP + FN + missNum == |log|
      ensures TP + FP > 0 ==> TP as real / (TP + FP) as real == TP as real / (TP + FN) as real
    {
      TotalsCount(log);
      TP, FN, FP, missNum := 0, 0, 0, 0;
      hide Tallied, Balanced, Sum;
      ghost var done: map<string, ScoreSheet> := map[];
      var remaining := sheet.Keys;
      NothingSummed();
      while remaining != {}
        invariant remaining <= sheet.Keys && done == sheet - remaining
        invariant TP == Sum(TPs(), done) && FN == Sum(FNs(), done) && FP == Sum(FPs(), done) &&
                  missNum == Sum(Misses(), done)
        decreases remaining
      {
        var name :| name in remaining;
        SumsUpdate(done, name, sheet[name]);
        TP, FN, FP := TP + sheet[name].TP, FN + sheet[name].FN, FP + sheet[name].FP;
        missNum := missNum + sheet[name].missNum;
        done := done[name := sheet[name]];
        remaining := remaining - {name};
      }
      assert done == sheet;
      SheetsAddUp(log, sheet);
    }
  }

  lemma TotalsCount(log: seq<Prediction>)
    ensures |Filter(Hits(), log)| ==
              |set i | 0 <= i < |log| && log[i].predictType == log[i].trueType != "unreliable"|
    ensures |Filter(Errors(), log)| ==
              |set i | 0 <= i < |log| && log[i].predictType != log[i].trueType &&
                       log[i].predictType != "unreliable"|
    ensures |Filter(Unreliables(), log)| == |set i | 0 <= i < |log| && log[i].predictType == "unreliable"|
  {
    hide Filter;
    PlacesCount(Hits(), log, set i | 0 <= i < |log| && log[i].predictType == log[i].trueType != "unreliable");
    PlacesCount(Errors(), log,
                set i | 0 <= i < |log| && log[i].predictType != log[i].trueType && log[i].predictType != "unreliable");
    PlacesCount(Unreliables(), log, set i | 0 <= i < |log| && log[i].predictType == "unreliable");
  }

  lemma SheetsAddUp(log: seq<Prediction>, sheet: map<string, ScoreSheet>)
    requires Balanced(log, sheet)
    ensures Sum(TPs(), sheet) == |Filter(Hits(), log)| && Sum(Misses(), sheet) == |Filter(Unreliables(), log)|
    ensures Sum(FNs(), sheet) == Sum(FPs(), sheet) == |Filter(Errors(), log)|
    ensures Sum(TPs(), sheet) + Sum(FNs(), sheet) + Sum(Misses(), sheet) == |log|
    ensures Sum(TPs(), sheet) >= 0 && Sum(FPs(), sheet) >= 0
  {
    hide Sum;
    HitsErrorsMisses(log);
  }

  // ---------- the result string ----------

  datatype Mark = Blank | Missed | Right | Wrong

  /** Every index recorded on a sheet. */
  function AllIndices(s: ScoreSheet): seq<int> {
    s.missIndexVector + s.correctVector + s.wrongVector
  }

  /** One mark per recorded index; wrong predictions are written last, misses first. */
  method ToResultIndex(s: ScoreSheet) returns (resultVector: array<Mark>)
    requires InBounds(AllIndices(s), |AllIndices(s)|)
    ensures resultVector.Length == |AllIndices(s)|
    ensures forall i :: 0 <= i < resultVector.Length ==>
              (resultVector[i] == Wrong <==> i in s.wrongVector) &&
              (resultVector[i] == Right <==> i in s.correctVector && i !in s.wrongVector) &&
              (resultVector[i] == Blank <==> i !in AllIndices(s))
  {
    var len := |s.wrongVector| + |s.missIndexVector| + |s.correctVector|;
    BoundsSplit(s.missIndexVector, s.correctVector, len);
    BoundsSplit(s.missIndexVector + s.correctVector, s.wrongVector, len);
    resultVector := new Mark[len](_ => Blank);
    WriteMarks(resultVector, s.missIndexVector, Missed);
    WriteMarks(resultVector, s.correctVector, Right);
    WriteMarks(resultVector, s.wrongVector, Wrong);
  }

  lemma BoundsSplit(a: seq<int>, b: seq<int>, n: nat)
    ensures InBounds(a + b, n) <==> InBounds(a, n) && InBounds(b, n)
  {
    assert forall x :: x in a + b <==> x in a || x in b;
  }

  method WriteMarks(resultVector: array<Mark>, indices: seq<int>, mark: Mark)
    requires InBounds(indices, resultVector.Length)
    modifies resultVector
    ensures forall i :: 0 <= i < resultVector.Length ==>
              resultVector[i] == if i in indices then mark else old(resultVector[i])
  {
    for k := 0 to |indices|
      invariant forall i :: 0 <= i < resultVector.Length ==>
                  resultVector[i] == if i in indices[..k] then mark else old(resultVector[i])
    {
      assert indices[..k + 1] == indices[..k] + [indices[k]];
      assert indices[k] in indices;
      resultVector[indices[k]] := mark;
    }
    WholePrefix(indices);
  }

  function OfType(t: string): Prediction -> bool {
    (p: Prediction) => p.trueType == t
  }

  lemma ScoredIndices(s: ScoreSheet, t: string, p: Prediction)
    ensures multiset(AllIndices(Scored(s, t, p))) ==
              multiset(AllIndices(s) + (if p.trueType == t then [p.index] else []))
  {
    var m, c, w := s.missIndexVector, s.correctVector, s.wrongVector;
    IndexMoves(m, c, w, p.index);
    assert AllIndices(s) + [] == AllIndices(s);
  }

  lemma IndexMoves(m: seq<int>, c: seq<int>, w: seq<int>, x: int)
    ensures multiset((m + [x]) + c + w) == multiset(m + c + w + [x])
    ensures multiset(m + (c + [x]) + w) == multiset(m + c + w + [x])
    ensures m + c + (w + [x]) == m + c + w + [x]
  {
  }

  /** A sheet records every prediction of its type under exactly one of its three vectors. */
  lemma {:induction false} SheetRecordsAll(log: seq<Prediction>, t: string)
    ensures multiset(AllIndices(SheetOf(log, t))) == multiset(IndicesOf(Filter(OfType(t), log)))
  {
    if log == [] {
      assert SheetOf(log, t) == NEW_SHEET;
    } else {
      hide SheetOf, Filter, IndicesOf, Scored, AllIndices;
      var n := |log| - 1;
      assert log == log[..n] + [log[n]];
      SheetRecordsAll(log[..n], t);
      SheetSnoc(log[..n], log[n], t);
      ScoredIndices(SheetOf(log[..n], t), t, log[n]);
      KeptSnoc(OfType(t), log[..n], log[n]);
    }
  }

  lemma SameBounds(a: seq<int>, b: seq<int>, n: nat)
    requires multiset(a) == multiset(b)
    ensures InBounds(a, n) <==> InBounds(b, n)
  {
    assert forall x :: x in a <==> x in multiset(a);
    assert forall x :: x in b <==> x in multiset(b);
  }

  /**
   * For a type with a single device, whose tasks recorded their indices in whatever order: the result string has room
   * for every index if and only if no task that keeps a group follows one that filtered a group out, and then every
   * slot is written exactly once.
   */
  lemma {:induction false} SlotsWrittenOnce(log: seq<Prediction>, t: string, counts: seq<nat>, e: nat)
    requires e >= 1 && Bounded(counts, e)
    requires multiset(IndicesOf(Filter(OfType(t), log))) == multiset(Recorded(counts, e))
    ensures var all := AllIndices(SheetOf(log, t));
            |all| == SumOf(counts) && (InBounds(all, |all|) <==> FilteredAtEnd(counts, e)) &&
            (FilteredAtEnd(counts, e) ==> multiset(all) == multiset(Range(0, |all|)))
  {
    hide SheetOf, Filter, IndicesOf, FilteredAtEnd, Recorded, InBounds;
    var all := AllIndices(SheetOf(log, t));
    SheetRecordsAll(log, t);
    SamePermutationLength(all, Recorded(counts, e));
    RecordedLength(counts, e);
    RecordedOnceEach(counts, e);
    SameBounds(all, Recorded(counts, e), |all|);
  }

  /** With one device and no group filtered out, the recorded indices are 0 to n - 1, each once. */
  lemma {:induction false} UnfilteredSlots(log: seq<Prediction>, t: string, kept: seq<bool>, e: nat)
    requires e >= 1 && forall g :: 0 <= g < |kept| ==> kept[g]
    requires multiset(IndicesOf(Filter(OfType(t), log))) == multiset(Recorded(KeptPerTask(kept, e), e))
    ensures multiset(AllIndices(SheetOf(log, t))) == multiset(Range(0, |kept|))
  {
    hide SheetOf, Filter, IndicesOf, FilteredAtEnd, Recorded, InBounds, KeptPerTask;
    KeptBounded(kept, e);
    NothingFiltered(kept, e);
    SlotsWrittenOnce(log, t, KeptPerTask(kept, e), e);
  }

  /**
   * For a type with any number of devices: every slot is written exactly once if and only if no task number is used by
   * two devices that keep a group there, and the counts of all devices together are filtered at the end only.
   */
  lemma {:induction false} DevicesSlotsOnce(log: seq<Prediction>, t: string, devices: seq<seq<nat>>, e: nat)
    requires e >= 1 && AllBounded(devices, e)
    requires multiset(IndicesOf(Filter(OfType(t), log))) == multiset(AllRecorded(devices, e))
    ensures var all := AllIndices(SheetOf(log, t));
            multiset(all) == multiset(Range(0, |all|)) <==>
            NoTaskShared(devices) && FilteredAtEnd(AllTogether(devices), e)
  {
    hide SheetOf, Filter, IndicesOf, FilteredAtEnd, AllRecorded, NoTaskShared, AllTogether;
    SheetRecordsAll(log, t);
    SamePermutationLength(AllIndices(SheetOf(log, t)), AllRecorded(devices, e));
    DevicesOnceEach(devices, e);
  }
}
