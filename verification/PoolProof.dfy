/** The barrier invariant holds in every reachable state of the pool, in both variants. */
module PoolProof {
  import opened Common
  import opened PoolState

  lemma {:induction false} CountUpdate(w: seq<Worker>, gen: nat, k: nat, x: Worker)
    requires k < |w|
    ensures FinishedCount(w[k := x], gen)
      == FinishedCount(w, gen) - (if DoneWith(w[k], gen) then 1 else 0) + (if DoneWith(x, gen) then 1 else 0)
  {
    var v := w[k := x];
    if k < |w| - 1 {
      CountUpdate(w[..|w| - 1], gen, k, x);
      assert v[..|v| - 1] == w[..|w| - 1][k := x];
    } else {
      assert v[..|v| - 1] == w[..|w| - 1];
    }
  }

  lemma {:induction false} CountWake(w: seq<Worker>, gen: nat)
    ensures FinishedCount(WakeAll(w), gen) == FinishedCount(w, gen)
  {
    if w != [] {
      CountWake(w[..|w| - 1], gen);
      assert WakeAll(w)[..|w| - 1] == WakeAll(w[..|w| - 1]);
    }
  }

  lemma {:induction false} CountNone(w: seq<Worker>, gen: nat)
    requires forall k :: 0 <= k < |w| ==> !DoneWith(w[k], gen)
    ensures FinishedCount(w, gen) == 0
  {
    if w != [] {
      CountNone(w[..|w| - 1], gen);
    }
  }

  /** When all are counted, all are finished. */
  lemma {:induction false} CountAll(w: seq<Worker>, gen: nat)
    requires FinishedCount(w, gen) == |w|
    ensures forall k :: 0 <= k < |w| ==> DoneWith(w[k], gen)
  {
    if w != [] {
      CountAll(w[..|w| - 1], gen);
      assert forall k :: 0 <= k < |w| - 1 ==> w[k] == w[..|w| - 1][k];
    }
  }

  /** Otherwise some worker is not. */
  lemma {:induction false} CountMissing(w: seq<Worker>, gen: nat) returns (k: nat)
    requires FinishedCount(w, gen) < |w|
    ensures k < |w| && !DoneWith(w[k], gen)
  {
    if DoneWith(w[|w| - 1], gen) {
      k := CountMissing(w[..|w| - 1], gen);
    } else {
      k := |w| - 1;
    }
  }

  /** Computing a row of thread t's range leaves every other thread's rows as they were. */
  lemma {:induction false} RowsOfOthers(s: Pool, s': Pool, t: nat, r: nat, u: nat, progress: nat)
    requires |s.written| == s.rows && s'.rows == s.rows && Threads(s') == Threads(s)
    requires t < Threads(s) && u < Threads(s) && t != u && r < s.rows && InRangeOf(s.rows, Threads(s), t, r)
    requires s'.written == s.written[r := s.written[r] + 1]
    requires RowsOk(s.written, Threads(s), u, progress)
    ensures |s'.written| == s'.rows && RowsOk(s'.written, Threads(s'), u, progress)
  {
    hide InRangeOf, PerThread;
    RangesPartition(s.rows, Threads(s), t, r);
    forall x | 0 <= x < s.rows && InRangeOf(s.rows, Threads(s), u, x)
      ensures s'.written[x] == (if x < progress then 1 else 0)
    {
      RangesPartition(s.rows, Threads(s), u, r);
    }
  }

  /** ... and moves its own mark by one. */
  lemma {:induction false} RowsOfMine(s: Pool, s': Pool, t: nat, r: nat)
    requires |s.written| == s.rows && s'.rows == s.rows && Threads(s') == Threads(s)
    requires r < s.rows && InRangeOf(s.rows, Threads(s), t, r)
    requires s'.written == s.written[r := s.written[r] + 1]
    requires RowsOk(s.written, Threads(s), t, r)
    ensures |s'.written| == s'.rows && RowsOk(s'.written, Threads(s'), t, r + 1)
  {
    hide InRangeOf, PerThread;
  }

  /** A range that has been walked to its end is complete. */
  lemma {:induction false} RowsComplete(s: Pool, t: nat, progress: nat)
    requires |s.written| == s.rows && RowsOk(s.written, Threads(s), t, progress) && progress >= Beyond(s.rows, Threads(s), t)
    ensures RowsOk(s.written, Threads(s), t, s.rows)
  {
  }

  /** A step that leaves the shared fields and worker j alone keeps worker j's part. */
  lemma {:induction false} OthersKeep(s: Pool, s': Pool, j: nat)
    requires |s.written| == s.rows && |s'.written| == s'.rows
    requires j < |s.w| == |s'.w| && s'.w[j] == s.w[j]
    requires s'.spin == s.spin && s'.gen == s.gen && s'.stop == s.stop && s'.rows == s.rows
    requires s'.d == s.d || (s.d.WaitAsleep? && s'.d.WaitWoken?)
    requires s'.done == s.done || (s'.done == s.done + 1 && s'.done <= Threads(s))
    requires s'.mutex == s.mutex || (s.mutex != ByWorker(j) && s'.mutex != ByWorker(j))
    requires WorkerOk(s, j) && RowsOk(s'.written, Threads(s'), j + 1, WorkerProgress(s, j))
    ensures WorkerOk(s', j)
  {
    hide RowsOk, First, InRangeOf;
  }

  lemma {:induction false} WorkerStepKeeps(s: Pool, k: nat)
    requires Inv(s) && k < |s.w| && WorkerStep(s, k).Some?
    ensures Inv(WorkerStep(s, k).value)
  {
    var s' := WorkerStep(s, k).value;
    assert WorkerOk(s, k);
    CountUpdate(s.w, s.gen, k, s'.w[k]);
    StepSelf(s, k);
    StepDispatcher(s, k);
    forall j | 0 <= j < |s'.w|
      ensures WorkerOk(s', j)
    {
      if j != k {
        StepOther(s, k, j);
      }
    }
  }

  lemma {:induction false} StepSelf(s: Pool, k: nat)
    requires Inv(s) && k < |s.w| && WorkerStep(s, k).Some?
    ensures var s' := WorkerStep(s, k).value; |s'.written| == s'.rows && |s'.w| == |s.w| && WorkerOk(s', k)
  {
    hide Inv, WorkerStep, WorkerOk;
    if s.w[k].pc.Run? {
      StepSelfRun(s, k);
    } else if s.mutex == ByWorker(k) {
      StepSelfHolding(s, k);
    } else {
      StepSelfElse(s, k);
    }
  }

  lemma {:induction false} StepSelfRun(s: Pool, k: nat)
    requires Inv(s) && k < |s.w| && WorkerStep(s, k).Some? && s.w[k].pc.Run?
    ensures var s' := WorkerStep(s, k).value; |s'.written| == s'.rows && |s'.w| == |s.w| && WorkerOk(s', k)
  {
    hide PerThread, InRangeOf, FinishedCount, RowsOk;
    var s', me := WorkerStep(s, k).value, s.w[k];
    assert WorkerOk(s, k);
    CountUpdate(s.w, s.gen, k, s'.w[k]);
    if me.pc.row < Beyond(s.rows, Threads(s), k + 1) {
      RowIsMine(s, k + 1, me.pc.row);
      RowsOfMine(s, s', k + 1, me.pc.row);
    } else {
      RowsComplete(s, k + 1, me.pc.row);
    }
  }

  lemma {:induction false} StepSelfHolding(s: Pool, k: nat)
    requires Inv(s) && k < |s.w| && WorkerStep(s, k).Some? && !s.w[k].pc.Run? && s.mutex == ByWorker(k)
    ensures var s' := WorkerStep(s, k).value; |s'.written| == s'.rows && |s'.w| == |s.w| && WorkerOk(s', k)
  {
    hide PerThread, InRangeOf, FinishedCount, RowsOk;
    var s' := WorkerStep(s, k).value;
    assert WorkerOk(s, k);
    CountUpdate(s.w, s.gen, k, s'.w[k]);
    RowsAtStartIfZero(s, k + 1);
  }

  lemma {:induction false} StepSelfElse(s: Pool, k: nat)
    requires Inv(s) && k < |s.w| && WorkerStep(s, k).Some? && !s.w[k].pc.Run? && s.mutex != ByWorker(k)
    ensures var s' := WorkerStep(s, k).value; |s'.written| == s'.rows && |s'.w| == |s.w| && WorkerOk(s', k)
  {
    hide PerThread, InRangeOf, FinishedCount, RowsOk;
    var s' := WorkerStep(s, k).value;
    assert WorkerOk(s, k);
    CountUpdate(s.w, s.gen, k, s'.w[k]);
    RowsAtStartIfZero(s, k + 1);
  }

  lemma {:induction false} RowsAtStartIfZero(s: Pool, t: nat)
    requires |s.written| == s.rows
    ensures RowsOk(s.written, Threads(s), t, 0) ==> RowsOk(s.written, Threads(s), t, First(s.rows, Threads(s), t))
  {
  }

  lemma {:induction false} RowIsMine(s: Pool, t: nat, r: nat)
    requires First(s.rows, Threads(s), t) <= r < Beyond(s.rows, Threads(s), t)
    ensures InRangeOf(s.rows, Threads(s), t, r)
  {
  }

  lemma {:induction false} StepOther(s: Pool, k: nat, j: nat)
    requires Inv(s) && k < |s.w| && j < |s.w| && j != k && WorkerStep(s, k).Some?
    ensures var s' := WorkerStep(s, k).value; |s'.written| == s'.rows && |s'.w| == |s.w| && WorkerOk(s', j)
  {
    hide Inv, WorkerStep, WorkerOk;
    if s.w[k].pc.Run? {
      StepOtherRun(s, k, j);
    } else {
      StepOtherElse(s, k, j);
    }
  }

  lemma {:induction false} StepOtherRun(s: Pool, k: nat, j: nat)
    requires Inv(s) && k < |s.w| && j < |s.w| && j != k && WorkerStep(s, k).Some? && s.w[k].pc.Run?
    ensures var s' := WorkerStep(s, k).value; |s'.written| == s'.rows && |s'.w| == |s.w| && WorkerOk(s', j)
  {
    hide PerThread, InRangeOf, FinishedCount, RowsOk;
    var s', me := WorkerStep(s, k).value, s.w[k];
    assert WorkerOk(s, k) && WorkerOk(s, j);
    if me.pc.row < Beyond(s.rows, Threads(s), k + 1) {
      RowIsMine(s, k + 1, me.pc.row);
      RowsOfOthers(s, s', k + 1, me.pc.row, j + 1, WorkerProgress(s, j));
    }
    OthersKeep(s, s', j);
  }

  lemma {:induction false} StepOtherElse(s: Pool, k: nat, j: nat)
    requires Inv(s) && k < |s.w| && j < |s.w| && j != k && WorkerStep(s, k).Some? && !s.w[k].pc.Run?
    ensures var s' := WorkerStep(s, k).value; |s'.written| == s'.rows && |s'.w| == |s.w| && WorkerOk(s', j)
  {
    hide PerThread, InRangeOf, FinishedCount, RowsOk, First, Beyond;
    var s' := WorkerStep(s, k).value;
    assert WorkerOk(s, k) && WorkerOk(s, j);
    CountUpdate(s.w, s.gen, k, s'.w[k]);
    OthersKeep(s, s', j);
  }

  lemma {:induction false} StepDispatcher(s: Pool, k: nat)
    requires Inv(s) && k < |s.w| && WorkerStep(s, k).Some?
    ensures var s' := WorkerStep(s, k).value; |s'.written| == s'.rows && |s'.w| == |s.w| && DispatcherOk(s')
  {
    hide Inv, WorkerStep, DispatcherOk;
    if s.w[k].pc.Run? {
      StepDispatcherRun(s, k);
    } else if s.mutex == ByWorker(k) {
      StepDispatcherHolding(s, k);
    } else {
      StepDispatcherElse(s, k);
    }
  }

  lemma {:induction false} StepDispatcherRun(s: Pool, k: nat)
    requires Inv(s) && k < |s.w| && WorkerStep(s, k).Some? && s.w[k].pc.Run?
    ensures var s' := WorkerStep(s, k).value; |s'.written| == s'.rows && |s'.w| == |s.w| && DispatcherOk(s')
  {
    hide PerThread, InRangeOf, FinishedCount, RowsOk;
    var s', me := WorkerStep(s, k).value, s.w[k];
    assert WorkerOk(s, k);
    CountUpdate(s.w, s.gen, k, s'.w[k]);
    if me.pc.row < Beyond(s.rows, Threads(s), k + 1) {
      RowIsMine(s, k + 1, me.pc.row);
      RowsOfOthers(s, s', k + 1, me.pc.row, 0, DispatcherProgress(s));
    }
  }

  lemma {:induction false} StepDispatcherHolding(s: Pool, k: nat)
    requires Inv(s) && k < |s.w| && WorkerStep(s, k).Some? && !s.w[k].pc.Run? && s.mutex == ByWorker(k)
    ensures var s' := WorkerStep(s, k).value; |s'.written| == s'.rows && |s'.w| == |s.w| && DispatcherOk(s')
  {
    hide PerThread, InRangeOf, FinishedCount, RowsOk;
    assert WorkerOk(s, k);
    CountUpdate(s.w, s.gen, k, WorkerStep(s, k).value.w[k]);
  }

  lemma {:induction false} StepDispatcherElse(s: Pool, k: nat)
    requires Inv(s) && k < |s.w| && WorkerStep(s, k).Some? && !s.w[k].pc.Run? && s.mutex != ByWorker(k)
    ensures var s' := WorkerStep(s, k).value; |s'.written| == s'.rows && |s'.w| == |s.w| && DispatcherOk(s')
  {
    hide PerThread, InRangeOf, FinishedCount, RowsOk;
    assert WorkerOk(s, k);
    CountUpdate(s.w, s.gen, k, WorkerStep(s, k).value.w[k]);
  }

  lemma {:induction false} DispatcherStepKeeps(s: Pool)
    requires Inv(s) && DispatcherStep(s).Some?
    ensures Inv(DispatcherStep(s).value)
  {
    var s' := DispatcherStep(s).value;
    DispatcherItself(s);
    forall j | 0 <= j < |s'.w|
      ensures WorkerOk(s', j)
    {
      DispatcherOthers(s, j);
    }
  }

  lemma {:induction false} DispatcherItself(s: Pool)
    requires Inv(s) && DispatcherStep(s).Some?
    ensures var s' := DispatcherStep(s).value; |s'.written| == s'.rows && |s'.w| == |s.w| && DispatcherOk(s')
  {
    hide Inv, DispatcherStep, DispatcherOk;
    if s.d.Running? {
      DispatcherItselfRun(s);
    } else {
      DispatcherItselfElse(s);
    }
  }

  lemma {:induction false} DispatcherItselfRun(s: Pool)
    requires Inv(s) && DispatcherStep(s).Some? && s.d.Running?
    ensures var s' := DispatcherStep(s).value; |s'.written| == s'.rows && |s'.w| == |s.w| && DispatcherOk(s')
  {
    hide PerThread, InRangeOf, FinishedCount, RowsOk, WorkerOk;
    if s.d.row < Beyond(s.rows, Threads(s), 0) {
      RowIsMine(s, 0, s.d.row);
      RowsOfMine(s, DispatcherStep(s).value, 0, s.d.row);
    } else {
      RowsComplete(s, 0, s.d.row);
    }
  }

  lemma {:induction false} DispatcherItselfElse(s: Pool)
    requires Inv(s) && DispatcherStep(s).Some? && !s.d.Running?
    ensures var s' := DispatcherStep(s).value; |s'.written| == s'.rows && |s'.w| == |s.w| && DispatcherOk(s')
  {
    hide PerThread, InRangeOf, FinishedCount, RowsOk;
    var s' := DispatcherStep(s).value;
    assert forall k :: 0 <= k < |s.w| ==> WorkerOk(s, k);
    CountWake(s.w, s.gen);
    if s.d.GoGen? {
      forall k | 0 <= k < |s.w|
        ensures !DoneWith(s.w[k], s'.gen)
      {
        assert WorkerOk(s, k);
      }
      CountNone(s.w, s'.gen);
    }
  }

  lemma {:induction false} DispatcherOthers(s: Pool, j: nat)
    requires Inv(s) && DispatcherStep(s).Some? && j < |s.w|
    ensures var s' := DispatcherStep(s).value; |s'.written| == s'.rows && |s'.w| == |s.w| && WorkerOk(s', j)
  {
    hide Inv, DispatcherStep, WorkerOk;
    if s.d.Running? {
      DispatcherOthersRun(s, j);
    } else {
      DispatcherOthersElse(s, j);
    }
  }

  lemma {:induction false} DispatcherOthersRun(s: Pool, j: nat)
    requires Inv(s) && DispatcherStep(s).Some? && j < |s.w| && s.d.Running?
    ensures var s' := DispatcherStep(s).value; |s'.written| == s'.rows && |s'.w| == |s.w| && WorkerOk(s', j)
  {
    hide PerThread, InRangeOf, FinishedCount, RowsOk;
    var s' := DispatcherStep(s).value;
    assert WorkerOk(s, j);
    if s.d.row < Beyond(s.rows, Threads(s), 0) {
      RowIsMine(s, 0, s.d.row);
      RowsOfOthers(s, s', 0, s.d.row, j + 1, WorkerProgress(s, j));
    }
    if InCall(s.d) && !InCall(s'.d) {
      CountAll(s.w, s.gen);
    }
  }

  lemma {:induction false} DispatcherOthersElse(s: Pool, j: nat)
    requires Inv(s) && DispatcherStep(s).Some? && j < |s.w| && !s.d.Running?
    ensures var s' := DispatcherStep(s).value; |s'.written| == s'.rows && |s'.w| == |s.w| && WorkerOk(s', j)
  {
    hide PerThread, InRangeOf, FinishedCount, RowsOk;
    var s' := DispatcherStep(s).value;
    assert WorkerOk(s, j);
    if InCall(s.d) && !InCall(s'.d) {
      CountAll(s.w, s.gen);
    }
  }

  lemma {:induction false} NothingComputed(written: seq<nat>, n: nat, t: nat)
    requires n > 0 && forall r :: 0 <= r < |written| ==> written[r] == 0
    ensures RowsOk(written, n, t, 0)
  {
  }

  /** The entry points and spurious wake-ups keep the invariant too. */
  lemma {:induction false} OtherStepsKeep(s: Pool, a: Step)
    requires Inv(s) && !a.WorkerMoves? && !a.DispatcherMoves? && Apply(s, a).Some?
    ensures Inv(Apply(s, a).value)
  {
    var s' := Apply(s, a).value;
    OtherStepsDispatcher(s, a);
    hide FinishedCount, WorkerOk, DispatcherOk;
    forall j | 0 <= j < |s'.w|
      ensures WorkerOk(s', j)
    {
      OtherStepsWorker(s, a, j);
    }
  }

  lemma {:induction false} OtherStepsDispatcher(s: Pool, a: Step)
    requires Inv(s) && !a.WorkerMoves? && !a.DispatcherMoves? && Apply(s, a).Some?
    ensures var s' := Apply(s, a).value; |s'.written| == s'.rows && |s'.w| == |s.w| && DispatcherOk(s')
  {
    hide RowsOk, First, Beyond, FinishedCount;
    var s' := Apply(s, a).value;
    if a.SpuriousWorkerWake? {
      CountUpdate(s.w, s.gen, a.k, s'.w[a.k]);
    }
    if a.NewCall? {
      NothingComputed(s'.written, Threads(s'), 0);
    }
  }

  lemma {:induction false} OtherStepsWorker(s: Pool, a: Step, j: nat)
    requires Inv(s) && !a.WorkerMoves? && !a.DispatcherMoves? && Apply(s, a).Some? && j < |s.w|
    ensures var s' := Apply(s, a).value; |s'.written| == s'.rows && |s'.w| == |s.w| && WorkerOk(s', j)
  {
    hide RowsOk, First, Beyond, FinishedCount;
    assert WorkerOk(s, j);
    if a.NewCall? {
      var s' := Apply(s, a).value;
      NothingComputed(s'.written, Threads(s'), j + 1);
    }
  }

  lemma {:induction false} StepKeepsInv(s: Pool, a: Step)
    requires Inv(s) && Apply(s, a).Some?
    ensures Inv(Apply(s, a).value)
  {
    match a {
      case WorkerMoves(k) => WorkerStepKeeps(s, k);
      case DispatcherMoves => DispatcherStepKeeps(s);
      case _ => OtherStepsKeep(s, a);
    }
  }

  lemma {:induction false} InitInv(spin: bool, workers: nat)
    ensures Inv(InitPool(spin, workers))
  {
  }

  /** The invariant holds in every reachable state. */
  lemma {:induction false} ReachableInv(s: Pool, n: nat)
    requires ReachableIn(s, n)
    ensures Inv(s)
    decreases n
  {
    hide Inv, Apply;
    if n == 0 {
      var spin, workers :| s == InitPool(spin, workers);
      InitInv(spin, workers);
    } else {
      var p: Pool, a: Step :| |p.written| == p.rows && Apply(p, a) == Some(s) && ReachableIn(p, n - 1);
      ReachableInv(p, n - 1);
      StepKeepsInv(p, a);
    }
  }

  // ---- what the invariant means ----

  /** In every reachable state, in either variant: generations, the done count, and when the job may be rewritten. */
  lemma {:induction false} BarrierCounts(s: Pool, n: nat)
    requires ReachableIn(s, n)
    ensures forall k :: 0 <= k < |s.w| ==> GenerationLag(s, k)
    ensures InCall(s.d) ==> s.done == 1 + FinishedCount(s.w, s.gen)
    ensures !InCall(s.d) ==> forall k :: 0 <= k < |s.w| ==> DoneWith(s.w[k], s.gen)
  {
    hide RowsOk, FinishedCount;
    ReachableInv(s, n);
    forall k | 0 <= k < |s.w|
      ensures GenerationLag(s, k) && (!InCall(s.d) ==> DoneWith(s.w[k], s.gen))
    {
      assert WorkerOk(s, k);
    }
  }

  /** A worker is at most one generation behind the pool. */
  predicate GenerationLag(s: Pool, k: nat)
    requires k < |s.w|
  {
    s.gen == s.w[k].last || s.gen == s.w[k].last + 1
  }

  /** A thread asleep has nothing to wake up for, unless the broadcast or the signal is about to be sent. */
  lemma {:induction false} NoLostWakeUp(s: Pool, n: nat)
    requires ReachableIn(s, n)
    ensures forall k :: 0 <= k < |s.w| && s.w[k].pc.Asleep? ==> SleepIsDue(s, k)
    ensures s.d.WaitAsleep? ==> s.done < Threads(s) || (s.mutex.ByWorker? && s.mutex.i < |s.w| && s.w[s.mutex.i].pc.Signal?)
  {
    hide RowsOk;
    ReachableInv(s, n);
    forall k | 0 <= k < |s.w| && s.w[k].pc.Asleep?
      ensures SleepIsDue(s, k)
    {
      assert WorkerOk(s, k);
    }
  }

  predicate SleepIsDue(s: Pool, k: nat)
    requires k < |s.w|
  {
    (s.gen == s.w[k].last && !s.stop) || s.d.GoBroadcast? || s.d.StopBroadcast?
  }

  /** How far thread t has got with the current job. */
  ghost function ProgressOf(s: Pool, t: nat): nat
    requires t < Threads(s)
  {
    if t == 0 then DispatcherProgress(s) else WorkerProgress(s, t - 1)
  }

  lemma {:induction false} ThreadRows(s: Pool, t: nat)
    requires Inv(s) && t < Threads(s)
    ensures |s.written| == s.rows && RowsOk(s.written, Threads(s), t, ProgressOf(s, t))
  {
    hide RowsOk, FinishedCount, PerThread, InRangeOf;
    assert t > 0 ==> WorkerOk(s, t - 1);
  }

  /** No row is ever computed twice for one job. */
  lemma {:induction false} NoRowTwice(s: Pool, n: nat, r: nat)
    requires ReachableIn(s, n) && r < s.rows
    ensures |s.written| == s.rows && s.written[r] <= 1
  {
    hide InRangeOf, PerThread, Inv, ProgressOf;
    ReachableInv(s, n);
    var t := OwnerOf(s, r);
    ThreadRows(s, t);
  }

  lemma {:induction false} OwnerOf(s: Pool, r: nat) returns (t: nat)
    requires r < s.rows
    ensures t < Threads(s) && InRangeOf(s.rows, Threads(s), t, r)
    ensures forall u :: 0 <= u < Threads(s) && InRangeOf(s.rows, Threads(s), u, r) ==> u == t
  {
    hide InRangeOf, PerThread;
    RangesPartition(s.rows, Threads(s), 0, r);
    t := r / PerThread(s.rows, Threads(s));
    forall u | 0 <= u < Threads(s)
      ensures InRangeOf(s.rows, Threads(s), u, r) <==> u == t
    {
      RangesPartition(s.rows, Threads(s), u, r);
    }
  }

  /** go_and_wait returns only after every row of the job has been computed exactly once. */
  lemma {:induction false} ReturnMeansDone(s: Pool, n: nat)
    requires ReachableIn(s, n) && InCall(s.d) && |s.written| == s.rows
    requires Apply(s, DispatcherMoves).Some? && Apply(s, DispatcherMoves).value.d.Idle?
    ensures var s' := Apply(s, DispatcherMoves).value;
      |s'.written| == s'.rows == s.rows && forall r :: 0 <= r < s'.rows ==> s'.written[r] == 1
  {
    hide InRangeOf, PerThread, FinishedCount;
    ReachableInv(s, n);
    StepKeepsInv(s, DispatcherMoves);
    var s' := Apply(s, DispatcherMoves).value;
    forall r | 0 <= r < s'.rows
      ensures s'.written[r] == 1
    {
      var t := OwnerOf(s', r);
      assert t > 0 ==> WorkerOk(s', t - 1);
    }
  }

  /** destroy returns only after every worker is gone, and nothing is called after it. */
  lemma {:induction false} DestroyJoinsAll(s: Pool, n: nat)
    requires ReachableIn(s, n) && s.d.Finished?
    ensures forall k :: 0 <= k < |s.w| ==> s.w[k].pc.Exited?
    ensures forall a :: |s.written| == s.rows ==> Apply(s, a).None?
  {
    hide RowsOk, FinishedCount;
    ReachableInv(s, n);
  }
}
