/**
 * The shared prediction cache of include/BurstCache.h and its use in KBurstClassifier::PredictBurst: first as one call
 * at a time, then as a state machine in which any number of threads interleave.
 */
module CacheProtocol {
  import opened Collections
  import opened BurstValues
  import opened Distances
  import opened Merging
  import opened NearestIndex

  // ---------- one call at a time ----------

  /** A cached result is complete for every burst with the key, or holds no burst and will be computed again. */
  ghost predicate EntryOk(sqrt: real -> real, p: IndexParam, trained: seq<Ref>, k: Key, e: Nearest) {
    e.bursts == [] || forall t: Ref :: KeyOf(t.burst) == k ==> e == ScanOf(sqrt, p, trained, t)
  }

  ghost predicate CacheOk(sqrt: real -> real, p: IndexParam, trained: seq<Ref>, cache: map<Key, Nearest>) {
    forall k :: k in cache ==> EntryOk(sqrt, p, trained, k, cache[k])
  }

  lemma ScanMakesEntry(sqrt: real -> real, p: IndexParam, trained: seq<Ref>, t: Ref)
    ensures EntryOk(sqrt, p, trained, KeyOf(t.burst), ScanOf(sqrt, p, trained, t))
  {
    forall u: Ref | KeyOf(u.burst) == KeyOf(t.burst) ensures ScanOf(sqrt, p, trained, t) ==
              ScanOf(sqrt, p, trained, u) {
      ScanRespectsKey(sqrt, p, trained, t, u);
    }
  }

  /** The entry an unordered_map creates for a key it does not have. */
  const NO_RESULT := Nearest(0.0, [])

  class PredictionCache {
    var cache: map<Key, Nearest>

    constructor ()
      ensures cache == map[]
    {
      cache := map[];
    }

    method Clear()
      modifies this
      ensures cache == map[]
    {
      cache := map[];
    }

    /** Looks an entry up, creating it if it is missing. */
    method Query(k: Key) returns (entry: Nearest)
      modifies this
      ensures cache == old(cache)[k := entry]
      ensures entry == if k in old(cache) then old(cache)[k] else Nearest(0.0, [])
    {
      if k !in cache {
        cache := cache[k := NO_RESULT];
      }
      entry := cache[k];
    }

    /** With or without a cached result, a call returns what the scan of the table returns. */
    method PredictBurst(sqrt: real -> real, classifier: Classifier, testBurst: Ref) returns (nearest: Nearest)
      requires classifier.Valid() && SqrtLaw(sqrt)
      requires CacheOk(sqrt, classifier.p, classifier.trained, cache)
      modifies this
      ensures nearest == ScanOf(sqrt, classifier.p, classifier.trained, testBurst)
      ensures CacheOk(sqrt, classifier.p, classifier.trained, cache)
    {
      hide ScanOf, SqrtLaw;
      var k := KeyOf(testBurst.burst);
      var entry := Query(k);
      if |entry.bursts| != 0 {
        return entry;
      }
      nearest := classifier.Scan(sqrt, testBurst);
      ScanMakesEntry(sqrt, classifier.p, classifier.trained, testBurst);
      cache := cache[k := nearest];
    }
  }

  // ---------- many threads ----------

  /** A trained table, fixed while predictions run. */
  datatype Table = Table(p: IndexParam, trained: seq<Ref>)

  /** Where a thread is inside PredictBurst. */
  datatype Thread =
    | Idle
    | Wanting(test: Ref)                             // before the key lock
    | Holding(test: Ref)                             // key lock taken
    | Queried(test: Ref)                             // entry looked up, created if missing
    | Scanning(test: Ref, scanned: nat, min: real)   // filling the entry in place
    | Leaving(test: Ref, result: Nearest)            // result copied, lock still held

  datatype Answer = Answer(test: Ref, table: Table, result: Nearest)

  datatype State = State(table: Table, threads: map<nat, Thread>, locks: map<Key, nat>, cache: map<Key, Nearest>,
                         answers: seq<Answer>)

  ghost function Uncached(sqrt: real -> real, table: Table, t: Ref): Nearest {
    ScanOf(sqrt, table.p, table.trained, t)
  }

  function CandidatesFor(table: Table, t: Ref): seq<Ref> {
    Candidates(table.p, table.trained, t.burst)
  }

  function KeyFor(t: Ref): Key {
    KeyOf(t.burst)
  }

  predicate HasLock(th: Thread) {
    th.Holding? || th.Queried? || th.Scanning? || th.Leaving?
  }

  predicate HasKeyLock(th: Thread, k: Key) {
    HasLock(th) && KeyFor(th.test) == k
  }

  /** What a thread can do next; Call and a new classifier come from outside. */
  datatype Step = Call(test: Ref) | Acquire | Query | Hit | Miss | ScanOne | Finish | Leave

  predicate Enabled(s: State, tid: nat, step: Step) {
    tid in s.threads &&
    var th := s.threads[tid];
    match step
    case Call(_) => th.Idle?
    case Acquire => th.Wanting? && KeyFor(th.test) !in s.locks
    case Query => th.Holding?
    case Hit => th.Queried? && KeyFor(th.test) in s.cache && s.cache[KeyFor(th.test)].bursts != []
    case Miss => th.Queried? && KeyFor(th.test) in s.cache && s.cache[KeyFor(th.test)].bursts == []
    case ScanOne => th.Scanning? && KeyFor(th.test) in s.cache && th.scanned < |CandidatesFor(s.table, th.test)|
    case Finish => th.Scanning? && KeyFor(th.test) in s.cache && th.scanned == |CandidatesFor(s.table, th.test)|
    case Leave => th.Leaving? && KeyFor(th.test) in s.locks
  }

  function Goto(s: State, tid: nat, th: Thread): State {
    s.(threads := s.threads[tid := th])
  }

  /** The effect of a step; every step is atomic, and steps of different threads interleave freely. */
  ghost function Do(sqrt: real -> real, s: State, tid: nat, step: Step): State
    requires Enabled(s, tid, step)
  {
    var th := s.threads[tid];
    match step
    case Call(test) => Goto(s, tid, Wanting(test))
    case Acquire => Goto(s, tid, Holding(th.test)).(locks := s.locks[KeyFor(th.test) := tid])
    case Query =>
      var k := KeyFor(th.test);
      Goto(s, tid, Queried(th.test)).(cache := if k in s.cache then s.cache else s.cache[k := NO_RESULT])
    case Hit => Goto(s, tid, Leaving(th.test, s.cache[KeyFor(th.test)]))
    case Miss => Goto(s, tid, Scanning(th.test, 0, 100.0))
    case ScanOne =>
      var k, b := KeyFor(th.test), CandidatesFor(s.table, th.test)[th.scanned];
      var n := Improve(Nearest(th.min, s.cache[k].bursts), DistanceTo(sqrt, th.test)(b), b);
      Goto(s, tid, Scanning(th.test, th.scanned + 1, n.dist)).(cache := s.cache[k := s.cache[k].(bursts := n.bursts)])
    case Finish =>
      var k := KeyFor(th.test);
      var e := Nearest(th.min, s.cache[k].bursts);
      Goto(s, tid, Leaving(th.test, e)).(cache := s.cache[k := e])
    case Leave =>
      Goto(s, tid, Idle).(locks := s.locks - {KeyFor(th.test)},
                          answers := s.answers + [Answer(th.test, s.table, th.result)])
  }

  ghost predicate AllIdle(s: State) {
    forall tid :: tid in s.threads ==> s.threads[tid].Idle?
  }

  /** Between two classifiers the cache is cleared; the key locks stay, but none is held. */
  function Retrained(s: State, table: Table): State {
    s.(table := table, cache := map[])
  }

  ghost predicate Initial(s: State) {
    AllIdle(s) && s.locks == map[] && s.cache == map[] && s.answers == []
  }

  ghost predicate Next(sqrt: real -> real, s: State, s': State) {
    (exists tid: nat, step: Step :: Enabled(s, tid, step) && s' == Do(sqrt, s, tid, step)) ||
    (AllIdle(s) && exists table :: s' == Retrained(s, table))
  }

  // ---------- the invariant ----------

  ghost predicate EntryFine(sqrt: real -> real, table: Table, cache: map<Key, Nearest>, k: Key) {
    k in cache ==> EntryOk(sqrt, table.p, table.trained, k, cache[k])
  }

  /** What a thread may rely on at each of its positions. */
  ghost predicate ThreadOk(sqrt: real -> real, table: Table, cache: map<Key, Nearest>, th: Thread) {
    match th
    case Idle => true
    case Wanting(_) => true
    case Holding(t) => EntryFine(sqrt, table, cache, KeyFor(t))
    case Queried(t) => KeyFor(t) in cache && EntryFine(sqrt, table, cache, KeyFor(t))
    case Scanning(t, n, min) =>
      KeyFor(t) in cache && n <= |CandidatesFor(table, t)| &&
      Nearest(min, cache[KeyFor(t)].bursts) == BestFrom(DistanceTo(sqrt, t), Start(), CandidatesFor(table, t)[..n])
    case Leaving(t, r) => r == Uncached(sqrt, table, t) && EntryFine(sqrt, table, cache, KeyFor(t))
  }

  /** A key lock has exactly the one owner that holds it. */
  ghost predicate LocksOk(threads: map<nat, Thread>, locks: map<Key, nat>) {
    (forall k :: k in locks ==> locks[k] in threads && HasKeyLock(threads[locks[k]], k)) &&
    (forall tid :: tid in threads && HasLock(threads[tid]) ==>
                     KeyFor(threads[tid].test) in locks && locks[KeyFor(threads[tid].test)] == tid)
  }

  ghost predicate ThreadsOk(sqrt: real -> real, table: Table, cache: map<Key, Nearest>, threads: map<nat, Thread>) {
    forall tid :: tid in threads ==> ThreadOk(sqrt, table, cache, threads[tid])
  }

  /** Every entry whose key is not locked is complete: a half-filled entry exists only under its key lock. */
  ghost predicate UnlockedFine(sqrt: real -> real, table: Table, cache: map<Key, Nearest>, locks: map<Key, nat>) {
    forall k :: k in cache && k !in locks ==> EntryOk(sqrt, table.p, table.trained, k, cache[k])
  }

  /** Every answer given so far is what an uncached scan of the table in force at that moment returns. */
  ghost predicate AnswersOk(sqrt: real -> real, answers: seq<Answer>) {
    forall i :: 0 <= i < |answers| ==> answers[i].result == Uncached(sqrt, answers[i].table, answers[i].test)
  }

  ghost predicate Inv(sqrt: real -> real, s: State) {
    LocksOk(s.threads, s.locks) && ThreadsOk(sqrt, s.table, s.cache, s.threads) &&
    UnlockedFine(sqrt, s.table, s.cache, s.locks) && AnswersOk(sqrt, s.answers)
  }

  /** Threads that hold no lock on k do not notice a change of its entry. */
  lemma OthersUnaffected(sqrt: real -> real, s: State, tid: nat, k: Key, e: Nearest)
    requires LocksOk(s.threads, s.locks) && ThreadsOk(sqrt, s.table, s.cache, s.threads)
    requires tid in s.threads && HasKeyLock(s.threads[tid], k)
    ensures forall o :: o in s.threads && o != tid ==> ThreadOk(sqrt, s.table, s.cache[k := e], s.threads[o])
  {
    hide EntryOk, BestFrom, CandidatesFor, Uncached, KeyFor;
    forall o | o in s.threads && o != tid ensures ThreadOk(sqrt, s.table, s.cache[k := e], s.threads[o]) {
      assert ThreadOk(sqrt, s.table, s.cache, s.threads[o]);
      if HasLock(s.threads[o]) {
        assert s.locks[KeyFor(s.threads[o].test)] == o && s.locks[k] == tid;
      }
    }
  }

  /** A thread that changes its position but not its lock keeps the locks right. */
  lemma LockKept(threads: map<nat, Thread>, locks: map<Key, nat>, tid: nat, th: Thread)
    requires LocksOk(threads, locks) && tid in threads && HasLock(threads[tid]) && HasLock(th) &&
             th.test == threads[tid].test
    ensures LocksOk(threads[tid := th], locks)
  {
    hide KeyFor;
  }

  lemma LockTaken(threads: map<nat, Thread>, locks: map<Key, nat>, tid: nat, th: Thread)
    requires LocksOk(threads, locks) && tid in threads && !HasLock(threads[tid]) && HasLock(th) &&
             KeyFor(th.test) !in locks
    ensures LocksOk(threads[tid := th], locks[KeyFor(th.test) := tid])
  {
    hide KeyFor;
  }

  lemma LockReleased(threads: map<nat, Thread>, locks: map<Key, nat>, tid: nat)
    requires LocksOk(threads, locks) && tid in threads && HasLock(threads[tid])
    ensures LocksOk(threads[tid := Idle], locks - {KeyFor(threads[tid].test)})
  {
    hide KeyFor;
  }

  lemma LockFree(threads: map<nat, Thread>, locks: map<Key, nat>, tid: nat, th: Thread)
    requires LocksOk(threads, locks) && tid in threads && !HasLock(threads[tid]) && !HasLock(th)
    ensures LocksOk(threads[tid := th], locks)
  {
    hide KeyFor;
  }

  lemma ThreadMoves(sqrt: real -> real, table: Table, cache: map<Key, Nearest>, threads: map<nat, Thread>, tid: nat,
                    th: Thread)
    requires ThreadOk(sqrt, table, cache, th)
    requires forall o :: o in threads && o != tid ==> ThreadOk(sqrt, table, cache, threads[o])
    ensures ThreadsOk(sqrt, table, cache, threads[tid := th])
  {
    hide ThreadOk;
  }

  /** The thread holding the lock on k gives its entry a new value and moves on. */
  lemma EntryWritten(sqrt: real -> real, s: State, tid: nat, e: Nearest, th: Thread)
    requires Inv(sqrt, s) && tid in s.threads && HasLock(s.threads[tid]) && HasLock(th) &&
             th.test == s.threads[tid].test
    requires ThreadOk(sqrt, s.table, s.cache[KeyFor(th.test) := e], th)
    ensures Inv(sqrt, Goto(s, tid, th).(cache := s.cache[KeyFor(th.test) := e]))
  {
    var k := KeyFor(th.test);
    assert k in s.locks;
    hide ThreadOk, EntryOk, AnswersOk, KeyFor;
    OthersUnaffected(sqrt, s, tid, k, e);
    LockKept(s.threads, s.locks, tid, th);
    ThreadMoves(sqrt, s.table, s.cache[k := e], s.threads, tid, th);
  }

  /** A thread moves on without writing anything. */
  lemma NothingWritten(sqrt: real -> real, s: State, tid: nat, th: Thread)
    requires Inv(sqrt, s) && tid in s.threads && ThreadOk(sqrt, s.table, s.cache, th)
    requires HasLock(th) == HasLock(s.threads[tid]) && (HasLock(th) ==> th.test == s.threads[tid].test)
    ensures Inv(sqrt, Goto(s, tid, th))
  {
    hide ThreadOk, UnlockedFine, AnswersOk, LocksOk;
    if HasLock(th) {
      LockKept(s.threads, s.locks, tid, th);
    } else {
      LockFree(s.threads, s.locks, tid, th);
    }
    ThreadMoves(sqrt, s.table, s.cache, s.threads, tid, th);
  }

  lemma AcquireKeeps(sqrt: real -> real, s: State, tid: nat)
    requires Inv(sqrt, s) && Enabled(s, tid, Acquire)
    ensures Inv(sqrt, Do(sqrt, s, tid, Acquire))
  {
    var th := Holding(s.threads[tid].test);
    assert ThreadOk(sqrt, s.table, s.cache, th);
    hide ThreadOk, EntryOk, AnswersOk, LocksOk, KeyFor;
    LockTaken(s.threads, s.locks, tid, th);
    ThreadMoves(sqrt, s.table, s.cache, s.threads, tid, th);
  }

  lemma QueryKeeps(sqrt: real -> real, s: State, tid: nat)
    requires Inv(sqrt, s) && Enabled(s, tid, Query)
    ensures Inv(sqrt, Do(sqrt, s, tid, Query))
  {
    var th := Queried(s.threads[tid].test);
    var k := KeyFor(th.test);
    assert ThreadOk(sqrt, s.table, s.cache, s.threads[tid]);
    if k in s.cache {
      NothingWritten(sqrt, s, tid, th);
    } else {
      EntryWritten(sqrt, s, tid, NO_RESULT, th);
    }
  }

  lemma HitKeeps(sqrt: real -> real, s: State, tid: nat)
    requires Inv(sqrt, s) && Enabled(s, tid, Hit)
    ensures Inv(sqrt, Do(sqrt, s, tid, Hit))
  {
    var t := s.threads[tid].test;
    assert ThreadOk(sqrt, s.table, s.cache, s.threads[tid]);
    NothingWritten(sqrt, s, tid, Leaving(t, s.cache[KeyFor(t)]));
  }

  lemma MissKeeps(sqrt: real -> real, s: State, tid: nat)
    requires Inv(sqrt, s) && Enabled(s, tid, Miss)
    ensures Inv(sqrt, Do(sqrt, s, tid, Miss))
  {
    var t := s.threads[tid].test;
    assert ThreadOk(sqrt, s.table, s.cache, s.threads[tid]);
    assert CandidatesFor(s.table, t)[..0] == [];
    NothingWritten(sqrt, s, tid, Scanning(t, 0, 100.0));
  }

  lemma ScanOneKeeps(sqrt: real -> real, s: State, tid: nat)
    requires Inv(sqrt, s) && Enabled(s, tid, ScanOne)
    ensures Inv(sqrt, Do(sqrt, s, tid, ScanOne))
  {
    hide LocksOk, UnlockedFine, AnswersOk, CandidatesFor, DistanceTo, KeyFor;
    var th := s.threads[tid];
    var k, cands := KeyFor(th.test), CandidatesFor(s.table, th.test);
    var b := cands[th.scanned];
    var n := Improve(Nearest(th.min, s.cache[k].bursts), DistanceTo(sqrt, th.test)(b), b);
    assert ThreadOk(sqrt, s.table, s.cache, th);
    assert cands[..th.scanned + 1] == cands[..th.scanned] + [b];
    BestSnoc(DistanceTo(sqrt, th.test), Start(), cands[..th.scanned], b);
    EntryWritten(sqrt, s, tid, s.cache[k].(bursts := n.bursts), Scanning(th.test, th.scanned + 1, n.dist));
  }

  lemma FinishKeeps(sqrt: real -> real, s: State, tid: nat)
    requires Inv(sqrt, s) && Enabled(s, tid, Finish)
    ensures Inv(sqrt, Do(sqrt, s, tid, Finish))
  {
    hide LocksOk, UnlockedFine, AnswersOk, KeyFor, DistanceTo;
    var th := s.threads[tid];
    var e := Nearest(th.min, s.cache[KeyFor(th.test)].bursts);
    assert ThreadOk(sqrt, s.table, s.cache, th);
    WholePrefix(CandidatesFor(s.table, th.test));
    assert e == Uncached(sqrt, s.table, th.test);
    EntryComplete(sqrt, s.table, th.test);
    EntryWritten(sqrt, s, tid, e, Leaving(th.test, e));
  }

  lemma EntryComplete(sqrt: real -> real, table: Table, t: Ref)
    ensures EntryOk(sqrt, table.p, table.trained, KeyFor(t), Uncached(sqrt, table, t))
  {
    ScanMakesEntry(sqrt, table.p, table.trained, t);
  }

  lemma UnlockedGrows(sqrt: real -> real, table: Table, cache: map<Key, Nearest>, locks: map<Key, nat>, k: Key)
    requires UnlockedFine(sqrt, table, cache, locks) && EntryFine(sqrt, table, cache, k)
    ensures UnlockedFine(sqrt, table, cache, locks - {k})
  {
    hide EntryOk;
  }

  lemma LeaveKeeps(sqrt: real -> real, s: State, tid: nat)
    requires Inv(sqrt, s) && Enabled(s, tid, Leave)
    ensures Inv(sqrt, Do(sqrt, s, tid, Leave))
  {
    assert ThreadOk(sqrt, s.table, s.cache, s.threads[tid]);
    assert ThreadOk(sqrt, s.table, s.cache, Idle);
    hide ThreadOk, EntryOk, LocksOk, KeyFor, Uncached, UnlockedFine;
    UnlockedGrows(sqrt, s.table, s.cache, s.locks, KeyFor(s.threads[tid].test));
    LockReleased(s.threads, s.locks, tid);
    ThreadMoves(sqrt, s.table, s.cache, s.threads, tid, Idle);
  }

  lemma StepKeeps(sqrt: real -> real, s: State, tid: nat, step: Step)
    requires Inv(sqrt, s) && Enabled(s, tid, step)
    ensures Inv(sqrt, Do(sqrt, s, tid, step))
  {
    hide Inv;
    match step
    case Call(test) => NothingWritten(sqrt, s, tid, Wanting(test));
    case Acquire => AcquireKeeps(sqrt, s, tid);
    case Query => QueryKeeps(sqrt, s, tid);
    case Hit => HitKeeps(sqrt, s, tid);
    case Miss => MissKeeps(sqrt, s, tid);
    case ScanOne => ScanOneKeeps(sqrt, s, tid);
    case Finish => FinishKeeps(sqrt, s, tid);
    case Leave => LeaveKeeps(sqrt, s, tid);
  }

  lemma RetrainKeeps(sqrt: real -> real, s: State, table: Table)
    requires Inv(sqrt, s) && AllIdle(s)
    ensures Inv(sqrt, Retrained(s, table))
  {
    assert forall tid :: tid in s.threads ==> ThreadOk(sqrt, table, map[], Idle);
  }

  // ---------- all runs ----------

  /** A run: any number of threads, any interleaving, any number of classifiers one after another. */
  ghost predicate Run(sqrt: real -> real, states: seq<State>) {
    states != [] && Initial(states[0]) && Steps(sqrt, states)
  }

  ghost predicate Steps(sqrt: real -> real, states: seq<State>) {
    forall i :: 0 < i < |states| ==> Follows(sqrt, states, i)
  }

  ghost predicate Follows(sqrt: real -> real, states: seq<State>, i: nat)
    requires 0 < i < |states|
  {
    Next(sqrt, states[i - 1], states[i])
  }

  lemma NextKeeps(sqrt: real -> real, s: State, s': State)
    requires Inv(sqrt, s) && Next(sqrt, s, s')
    ensures Inv(sqrt, s')
  {
    hide Inv, Do, Enabled;
    if tid: nat, step: Step :| Enabled(s, tid, step) && s' == Do(sqrt, s, tid, step) {
      StepKeeps(sqrt, s, tid, step);
    } else {
      var table :| s' == Retrained(s, table);
      RetrainKeeps(sqrt, s, table);
    }
  }

  lemma {:induction false} RunKeepsInv(sqrt: real -> real, states: seq<State>, i: nat)
    requires Run(sqrt, states) && i < |states|
    ensures Inv(sqrt, states[i])
  {
    if i > 0 {
      RunKeepsInv(sqrt, states, i - 1);
      assert Follows(sqrt, states, i);
      NextKeeps(sqrt, states[i - 1], states[i]);
    }
  }

  /**
   * In every run, at every moment: each answer given is what an uncached scan of the table of its time returns, and
   * an entry that is not complete belongs to a key whose lock is held, by a thread that is filling it.
   */
  lemma AnswersAreUncached(sqrt: real -> real, states: seq<State>, i: nat, a: Answer, k: Key)
    requires Run(sqrt, states) && i < |states|
    ensures a in states[i].answers ==> a.result == Uncached(sqrt, a.table, a.test)
    ensures k in states[i].cache &&
             !EntryOk(sqrt, states[i].table.p, states[i].table.trained, k, states[i].cache[k]) ==>
              k in states[i].locks && states[i].locks[k] in states[i].threads &&
              states[i].threads[states[i].locks[k]].Scanning? && KeyFor(states[i].threads[states[i].locks[k]].test) == k
  {
    hide EntryOk, Uncached, BestFrom, CandidatesFor, KeyFor, Run;
    var s := states[i];
    RunKeepsInv(sqrt, states, i);
    if k in s.cache && k in s.locks {
      var th := s.threads[s.locks[k]];
      assert ThreadOk(sqrt, s.table, s.cache, th);
    }
  }

  /** So every answer of every run lists exactly the nearest trained bursts in the window of its test burst. */
  lemma AnswersAreNearest(sqrt: real -> real, states: seq<State>, i: nat, a: Answer, b: Ref)
    requires SqrtLaw(sqrt) && Run(sqrt, states) && i < |states| && a in states[i].answers
    ensures b in a.result.bursts <==>
            b in a.table.trained && InWindow(a.table.p, a.test.burst)(b) &&
            DistanceOf(sqrt, a.test.burst, b.burst) == a.result.dist
    ensures b in a.table.trained && InWindow(a.table.p, a.test.burst)(b) ==>
              a.result.dist <= DistanceOf(sqrt, a.test.burst, b.burst)
  {
    hide Run, DistanceOf, ScanOf, InWindow;
    AnswersAreUncached(sqrt, states, i, a, KeyFor(a.test));
    ScanFindsInWindow(sqrt, a.table.p, a.table.trained, a.test, b);
  }

  lemma QueriedMoves(sqrt: real -> real, s: State, tid: nat) returns (step: Step)
    requires tid in s.threads && s.threads[tid].Queried? && ThreadOk(sqrt, s.table, s.cache, s.threads[tid])
    ensures Enabled(s, tid, step) && !step.Call?
  {
    hide EntryFine, KeyFor;
    step := if s.cache[KeyFor(s.threads[tid].test)].bursts != [] then Hit else Miss;
  }

  lemma ScanningMoves(sqrt: real -> real, s: State, tid: nat) returns (step: Step)
    requires tid in s.threads && s.threads[tid].Scanning? && ThreadOk(sqrt, s.table, s.cache, s.threads[tid])
    ensures Enabled(s, tid, step) && !step.Call?
  {
    hide BestFrom, CandidatesFor, KeyFor;
    var th := s.threads[tid];
    step := if th.scanned < |CandidatesFor(s.table, th.test)| then ScanOne else Finish;
  }

  lemma LeavingMoves(s: State, tid: nat) returns (step: Step)
    requires tid in s.threads && s.threads[tid].Leaving? && KeyFor(s.threads[tid].test) in s.locks
    ensures Enabled(s, tid, step) && !step.Call?
  {
    hide KeyFor;
    step := Leave;
  }

  /** A thread that holds a key lock waits for nobody. */
  lemma HolderMoves(sqrt: real -> real, s: State, tid: nat) returns (step: Step)
    requires Inv(sqrt, s) && tid in s.threads && HasLock(s.threads[tid])
    ensures Enabled(s, tid, step) && !step.Call?
  {
    hide ThreadOk, KeyFor, UnlockedFine, AnswersOk;
    match s.threads[tid]
    case Holding(_) => step := Query;
    case Queried(_) => step := QueriedMoves(sqrt, s, tid);
    case Scanning(_, _, _) => step := ScanningMoves(sqrt, s, tid);
    case Leaving(_, _) => step := LeavingMoves(s, tid);
  }

  /** Nobody waits for ever for a lock: as long as a call is under way, some thread inside a call can move. */
  lemma NoDeadlock(sqrt: real -> real, s: State, tid: nat) returns (mover: nat, step: Step)
    requires Inv(sqrt, s) && tid in s.threads && !s.threads[tid].Idle?
    ensures Enabled(s, mover, step) && !step.Call?
  {
    hide ThreadOk, KeyFor;
    mover := tid;
    if s.threads[tid].Wanting? {
      var k := KeyFor(s.threads[tid].test);
      if k !in s.locks {
        return tid, Acquire;
      }
      mover := s.locks[k];
    }
    step := HolderMoves(sqrt, s, mover);
  }

  /** How many steps a thread is away from the end of its call. */
  function StepsLeft(table: Table, th: Thread): int {
    match th
    case Idle => 0
    case Wanting(t) => 6 + |CandidatesFor(table, t)|
    case Holding(t) => 5 + |CandidatesFor(table, t)|
    case Queried(t) => 4 + |CandidatesFor(table, t)|
    case Scanning(t, n, _) => 2 + |CandidatesFor(table, t)| - n
    case Leaving(_, _) => 1
  }

  /** Every step inside a call brings that call closer to its end and no other call further from its own. */
  lemma CallsEnd(sqrt: real -> real, s: State, tid: nat, step: Step)
    requires Inv(sqrt, s) && Enabled(s, tid, step) && !step.Call?
    ensures var s' := Do(sqrt, s, tid, step);
            s'.table == s.table && s'.threads.Keys == s.threads.Keys &&
            (forall o :: o in s.threads && o != tid ==> s'.threads[o] == s.threads[o]) &&
            0 <= StepsLeft(s.table, s'.threads[tid]) < StepsLeft(s.table, s.threads[tid])
  {
    hide EntryOk, BestFrom, CandidatesFor, Uncached, KeyFor, LocksOk, AnswersOk, UnlockedFine;
    assert ThreadOk(sqrt, s.table, s.cache, s.threads[tid]);
  }

  function StepsOf(table: Table): Thread -> int {
    (th: Thread) => StepsLeft(table, th)
  }

  /** How many steps all threads together are away from the ends of their calls. */
  ghost function Work(s: State): int {
    MapSum(MapValues(StepsOf(s.table), s.threads))
  }

  /** A step of some thread inside its call. */
  ghost predicate InnerStep(sqrt: real -> real, s: State, s': State) {
    exists tid: nat, step: Step :: !step.Call? && Enabled(s, tid, step) && s' == Do(sqrt, s, tid, step)
  }

  /** A part of a run in which no call starts and no classifier is trained. */
  ghost predicate InnerRun(sqrt: real -> real, states: seq<State>) {
    forall i :: 0 < i < |states| ==> InnerFollows(sqrt, states, i)
  }

  ghost predicate InnerFollows(sqrt: real -> real, states: seq<State>, i: nat)
    requires 0 < i < |states|
  {
    InnerStep(sqrt, states[i - 1], states[i])
  }

  lemma WorkDrops(sqrt: real -> real, s: State, s': State)
    requires Inv(sqrt, s) && InnerStep(sqrt, s, s')
    ensures Inv(sqrt, s') && Work(s') < Work(s)
  {
    hide Inv, Do, StepsLeft, Enabled;
    var tid: nat, step: Step :| !step.Call? && Enabled(s, tid, step) && s' == Do(sqrt, s, tid, step);
    StepKeeps(sqrt, s, tid, step);
    CallsEnd(sqrt, s, tid, step);
    StepIsOwn(s, tid, step);
    var th := s'.threads[tid];
    assert s'.threads == s.threads[tid := th];
    MapValuesUpdate(StepsOf(s.table), s.threads, tid, th);
    MapSumUpdate(MapValues(StepsOf(s.table), s.threads), tid, StepsLeft(s.table, th));
  }

  lemma StepIsOwn(s: State, tid: nat, step: Step)
    requires Enabled(s, tid, step)
    ensures tid in s.threads
  {
  }

  lemma WorkNonNegative(sqrt: real -> real, s: State)
    requires Inv(sqrt, s)
    ensures Work(s) >= 0
  {
    hide EntryOk, BestFrom, CandidatesFor, Uncached, KeyFor;
    forall tid | tid in s.threads ensures StepsLeft(s.table, s.threads[tid]) >= 0 {
      assert ThreadOk(sqrt, s.table, s.cache, s.threads[tid]);
    }
    MapSumNonNegative(MapValues(StepsOf(s.table), s.threads));
  }

  /** While no new call starts, a run makes at most as many steps as there is work at its beginning. */
  lemma {:induction false} InnerRunBounded(sqrt: real -> real, states: seq<State>)
    requires states != [] && Inv(sqrt, states[0]) && InnerRun(sqrt, states)
    ensures Inv(sqrt, states[|states| - 1])
    ensures |states| - 1 <= Work(states[0]) - Work(states[|states| - 1]) && Work(states[|states| - 1]) >= 0
  {
    hide Inv, Work, InnerStep;
    var n := |states| - 1;
    if n > 0 {
      assert InnerRun(sqrt, states[..n]) by {
        forall i | 0 < i < n ensures InnerFollows(sqrt, states[..n], i) {
          assert InnerFollows(sqrt, states, i);
        }
      }
      InnerRunBounded(sqrt, states[..n]);
      assert InnerFollows(sqrt, states, n);
      WorkDrops(sqrt, states[n - 1], states[n]);
    }
    WorkNonNegative(sqrt, states[n]);
  }

  /** No thread can move unless a new call starts. */
  ghost predicate Stuck(s: State) {
    forall tid: nat, step: Step :: Enabled(s, tid, step) ==> step.Call?
  }

  lemma StuckMeansIdle(sqrt: real -> real, s: State)
    requires Inv(sqrt, s) && Stuck(s)
    ensures AllIdle(s)
  {
    hide Inv, Enabled;
    forall tid | tid in s.threads ensures s.threads[tid].Idle? {
      if !s.threads[tid].Idle? {
        var mover, step := NoDeadlock(sqrt, s, tid);
      }
    }
  }

  /**
   * Once no new call starts, every call under way ends: the run makes at most Work steps, and when it can make no
   * further one, every thread is idle.
   */
  lemma CallsRunOut(sqrt: real -> real, states: seq<State>)
    requires states != [] && Inv(sqrt, states[0]) && InnerRun(sqrt, states)
    ensures |states| - 1 <= Work(states[0])
    ensures Stuck(states[|states| - 1]) ==> AllIdle(states[|states| - 1])
  {
    hide Inv, Work, Stuck;
    InnerRunBounded(sqrt, states);
    if Stuck(states[|states| - 1]) {
      StuckMeansIdle(sqrt, states[|states| - 1]);
    }
  }

  // ---------- why the cache is cleared ----------

  /** Training a new table without clearing is safe when the buckets scanned for every cached key are unchanged. */
  lemma UnchangedBucketsAreSafe(sqrt: real -> real, s: State, table: Table)
    requires Inv(sqrt, s) && AllIdle(s)
    requires forall t: Ref :: KeyFor(t) in s.cache && s.cache[KeyFor(t)].bursts != [] ==>
                                CandidatesFor(table, t) == CandidatesFor(s.table, t)
    ensures Inv(sqrt, s.(table := table))
  {
    hide BestFrom, CandidatesFor, KeyOf, Candidates;
    forall k | k in s.cache ensures EntryOk(sqrt, table.p, table.trained, k, s.cache[k]) {
      assert k !in s.locks;
      if s.cache[k].bursts != [] {
        forall t: Ref | KeyOf(t.burst) == k ensures s.cache[k] == ScanOf(sqrt, table.p, table.trained, t) {
          assert KeyFor(t) == k;
          SameScan(sqrt, s.table, table, t);
        }
      }
    }
    assert forall tid :: tid in s.threads ==> ThreadOk(sqrt, table, s.cache, s.threads[tid]);
  }

  lemma SameScan(sqrt: real -> real, a: Table, b: Table, t: Ref)
    requires CandidatesFor(a, t) == CandidatesFor(b, t)
    ensures ScanOf(sqrt, a.p, a.trained, t) == ScanOf(sqrt, b.p, b.trained, t)
  {
  }

  /** The steps of a call that finds its result cached. */
  ghost function CachedCall(sqrt: real -> real, s: State, tid: nat, t: Ref): State
    requires tid in s.threads && s.threads[tid].Idle? && KeyFor(t) !in s.locks
    requires KeyFor(t) in s.cache && s.cache[KeyFor(t)].bursts != []
  {
    var s1 := Do(sqrt, s, tid, Call(t));
    var s2 := Do(sqrt, s1, tid, Acquire);
    var s3 := Do(sqrt, s2, tid, Query);
    var s4 := Do(sqrt, s3, tid, Hit);
    Do(sqrt, s4, tid, Leave)
  }

  /** Without Clear, a stale entry is handed out as the answer under the new table. */
  lemma StaleAnswer(sqrt: real -> real, s: State, table: Table, tid: nat, t: Ref)
    requires Inv(sqrt, s) && AllIdle(s) && tid in s.threads
    requires KeyFor(t) in s.cache && s.cache[KeyFor(t)].bursts != [] && s.cache[KeyFor(t)] != Uncached(sqrt, table, t)
    ensures KeyFor(t) !in s.locks
    ensures var after := CachedCall(sqrt, s.(table := table), tid, t);
            after.answers == s.answers + [Answer(t, table, s.cache[KeyFor(t)])] && !Inv(sqrt, after)
  {
    hide EntryOk, ThreadOk, KeyFor, Uncached;
    assert forall k :: k !in s.locks;
    var after := CachedCall(sqrt, s.(table := table), tid, t);
    assert after.answers[|s.answers|] == Answer(t, table, s.cache[KeyFor(t)]);
  }

  /** A call answered from the cache leaves everything but the answers as it was, so it can be repeated for ever. */
  lemma CachedCallRepeats(sqrt: real -> real, s: State, tid: nat, t: Ref)
    requires tid in s.threads && s.threads[tid].Idle? && KeyFor(t) !in s.locks
    requires KeyFor(t) in s.cache && s.cache[KeyFor(t)].bursts != []
    ensures var after := CachedCall(sqrt, s, tid, t);
            after.threads == s.threads && after.locks == s.locks && after.cache == s.cache && after.table == s.table
  {
    hide KeyFor;
    var after := CachedCall(sqrt, s, tid, t);
    assert after.threads.Keys == s.threads.Keys;
    assert after.locks.Keys == s.locks.Keys;
  }

  const WITNESS_INDEX := IndexParam(100, 60, 20, 60)

  const WITNESS_TEST: Ref := Shared(0, ANY_BURST)

  /** A table that holds one burst, a state in which its result is cached, and an empty table trained next. */
  ghost function WarmState(sqrt: real -> real): State {
    var first := Table(WITNESS_INDEX, [WITNESS_TEST]);
    State(first, map[0 := Idle], map[], map[KeyFor(WITNESS_TEST) := Uncached(sqrt, first, WITNESS_TEST)], [])
  }

  /** Without Clear the empty table's first answer is the burst of the table before it, which it does not hold. */
  lemma StaleWitness(sqrt: real -> real)
    requires SqrtLaw(sqrt)
    ensures var s, table := WarmState(sqrt), Table(WITNESS_INDEX, []);
            Inv(sqrt, s) && AllIdle(s) && KeyFor(WITNESS_TEST) in s.cache && KeyFor(WITNESS_TEST) !in s.locks &&
            WITNESS_TEST in s.cache[KeyFor(WITNESS_TEST)].bursts &&
            WITNESS_TEST !in Uncached(sqrt, table, WITNESS_TEST).bursts &&
            !Inv(sqrt, CachedCall(sqrt, s.(table := table), 0, WITNESS_TEST))
  {
    var t, s, table := WITNESS_TEST, WarmState(sqrt), Table(WITNESS_INDEX, []);
    hide ScanOf, SqrtLaw, CandidatesFor, KeyOf, BestFrom;
    ExactRecall(sqrt, WITNESS_INDEX, [t], t, t);
    ScanFindsNearest(sqrt, WITNESS_INDEX, [], t, t);
    ScanMakesEntry(sqrt, WITNESS_INDEX, [t], t);
    assert Inv(sqrt, s);
    StaleAnswer(sqrt, s, table, 0, t);
  }
}
