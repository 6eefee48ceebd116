/**
 The barrier cannot get stuck: inside a call (or start, or destroy) some thread can always
 make a productive step, and productive steps use up a finite budget.
 */
module PoolProgress {
  import opened Common
  import opened PoolState
  import opened PoolProof

  /** Rows left to thread t when `row` is its next one. */
  function Left(rows: nat, n: nat, t: nat, row: nat): nat
    requires n > 0
  {
    if row < Beyond(rows, n, t) then Beyond(rows, n, t) - row else 0
  }

  function Share(rows: nat, n: nat, t: nat): nat
    requires n > 0
  {
    Left(rows, n, t, First(rows, n, t))
  }

  /** Steps a worker can still take once it has (or needs) no new generation. */
  function RestRank(rows: nat, n: nat, t: nat, pc: WorkerPc): nat
    requires n > 0
  {
    match pc
    case TakeUnlock => 8 + Share(rows, n, t)
    case Run(r) => 7 + Left(rows, n, t, r)
    case DoneLock => 6
    case Inc => 5
    case SpinInc => 5
    case Signal => 4
    case DoneUnlock => 3
    case Lock => 2
    case Woken => 2
    case Check => 1
    case _ => 0
  }

  /** ... before it takes the generation already published. */
  function PendingRank(pc: WorkerPc): nat {
    match pc
    case Signal => 3
    case DoneUnlock => 2
    case Asleep => 2
    case Lock => 1
    case Woken => 1
    case PollStop => 1
    case _ => 0
  }

  /** ... before it sees the stop flag already set. */
  function StoppingRank(pc: WorkerPc): nat {
    match pc
    case DoneUnlock => 4
    case Asleep => 4
    case Lock => 3
    case Woken => 3
    case Check => 2
    case Poll => 2
    case ExitUnlock => 1
    case PollStop => 1
    case _ => 0
  }

  datatype Phase = Calling | Preparation | Resting | Stopping

  function PhaseOf(s: Pool): Phase {
    if s.stop then Stopping else if InCall(s.d) then Calling else if Preparing(s.d) then Preparation else Resting
  }

  function RankIn(phase: Phase, behind: bool, rows: nat, n: nat, t: nat, pc: WorkerPc): nat
    requires n > 0
  {
    match phase
    case Stopping => StoppingRank(pc)
    case Calling => if behind then 14 + Share(rows, n, t) + PendingRank(pc) else 5 + RestRank(rows, n, t, pc)
    case Preparation => 16 + Share(rows, n, t) + RestRank(rows, n, t, pc)
    case Resting => 5 + RestRank(rows, n, t, pc)
  }

  function WorkerRank(s: Pool, k: nat): nat
    requires k < |s.w|
  {
    RankIn(PhaseOf(s), s.w[k].last != s.gen, s.rows, Threads(s), k + 1, s.w[k].pc)
  }

  function DispatcherRank(s: Pool): nat {
    var n := Threads(s);
    match s.d
    case Starting(i) => 1 + (if i < |s.w| then 3 * (|s.w| - i) else 0)
    case Idle => 0
    case GoLock => 15 + Share(s.rows, n, 0)
    case GoReset => 14 + Share(s.rows, n, 0)
    case GoGen => 13 + Share(s.rows, n, 0)
    case GoBroadcast => 12 + Share(s.rows, n, 0)
    case GoUnlock => 11 + Share(s.rows, n, 0)
    case Running(r) => 10 + Left(s.rows, n, 0, r)
    case WaitLock => if s.done < n then 8 else 3
    case WaitWoken => if s.done < n then 7 else 3
    case WaitCheck => if s.done < n then 6 else 2
    case WaitAsleep => if s.done < n then 5 else 4
    case WaitUnlock => 1
    case SpinWait => 2
    case StopLock => 5 + |s.w|
    case StopSet => 4 + |s.w|
    case StopBroadcast => 3 + |s.w|
    case StopUnlock => 2 + |s.w|
    case Join(i) => 1 + (if i < |s.w| then |s.w| - i else 0)
    case Finished => 0
  }

  /** Sum of the ranks of the first n workers. */
  function RankSum(s: Pool, n: nat): nat
    requires n <= |s.w|
  {
    if n == 0 then 0 else RankSum(s, n - 1) + WorkerRank(s, n - 1)
  }

  function Rank(s: Pool): nat {
    DispatcherRank(s) + RankSum(s, |s.w|)
  }

  /** An empty poll: a spin loop that looks and sees nothing. */
  predicate EmptyPoll(s: Pool, a: Step) {
    || (a.WorkerMoves? && a.k < |s.w| && !s.stop && s.w[a.k].last == s.gen && (s.w[a.k].pc.Poll? || s.w[a.k].pc.PollStop?))
    || (a.DispatcherMoves? && s.d.SpinWait? && s.done < Threads(s))
  }

  /** A step of a thread's own code that is not an empty poll. */
  predicate Productive(s: Pool, a: Step)
    requires |s.written| == s.rows
  {
    (a.WorkerMoves? || a.DispatcherMoves?) && Apply(s, a).Some? && !EmptyPoll(s, a)
  }

  lemma {:induction false} SumAtMost(s: Pool, s': Pool, n: nat)
    requires n <= |s.w| == |s'.w| && forall k :: 0 <= k < n ==> WorkerRank(s', k) <= WorkerRank(s, k)
    ensures RankSum(s', n) <= RankSum(s, n)
  {
    if n > 0 {
      SumAtMost(s, s', n - 1);
    }
  }

  lemma {:induction false} SumLess(s: Pool, s': Pool, n: nat, k: nat, gain: nat)
    requires k < n <= |s.w| == |s'.w| && forall j :: 0 <= j < n && j != k ==> WorkerRank(s', j) <= WorkerRank(s, j)
    requires WorkerRank(s', k) <= WorkerRank(s, k) + gain
    ensures RankSum(s', n) <= RankSum(s, n) + gain
    ensures WorkerRank(s', k) < WorkerRank(s, k) ==> RankSum(s', n) < RankSum(s, n)
  {
    if k == n - 1 {
      SumAtMost(s, s', n - 1);
    } else {
      SumLess(s, s', n - 1, k, gain);
    }
  }

  lemma {:induction false} WorkerStepRanks(s: Pool, k: nat)
    requires Inv(s) && Productive(s, WorkerMoves(k))
    ensures Rank(WorkerStep(s, k).value) < Rank(s)
  {
    WorkerStepFrame(s, k);
    hide Inv, WorkerStep, WorkerRank, EmptyPoll, DispatcherRank;
    var s' := WorkerStep(s, k).value;
    forall j | 0 <= j < |s.w|
      ensures if j == k then WorkerRank(s', k) < WorkerRank(s, k) else WorkerRank(s', j) <= WorkerRank(s, j)
    {
      WorkerStepOne(s, k, j);
    }
    SumLess(s, s', |s.w|, k, 0);
    WorkerStepDispatcherRank(s, k);
  }

  lemma {:induction false} WorkerStepOne(s: Pool, k: nat, j: nat)
    requires Inv(s) && Productive(s, WorkerMoves(k)) && j < |s.w|
    ensures |WorkerStep(s, k).value.w| == |s.w|
    ensures var s' := WorkerStep(s, k).value;
      if j == k then WorkerRank(s', k) < WorkerRank(s, k) else WorkerRank(s', j) <= WorkerRank(s, j)
  {
    WorkerStepFrame(s, k);
    if j == k {
      WorkerStepMine(s, k);
    } else {
      hide Inv, RankIn, WorkerStep, PhaseOf;
      assert WorkerStep(s, k).value.w[j] == s.w[j];
    }
  }

  /** A worker's step touches only its own record, and not the phase of the pool. */
  lemma {:induction false} WorkerStepFrame(s: Pool, k: nat)
    requires k < |s.w| && |s.written| == s.rows && WorkerStep(s, k).Some?
    ensures var s' := WorkerStep(s, k).value;
      && s'.gen == s.gen && s'.rows == s.rows && PhaseOf(s') == PhaseOf(s) && |s'.w| == |s.w|
      && s'.w == s.w[k := s'.w[k]]
  {
    hide First, Beyond, WorkerStep;
    WorkerStepPhase(s, k);
    WorkerStepRecord(s, k);
  }

  lemma {:induction false} WorkerStepPhase(s: Pool, k: nat)
    requires k < |s.w| && |s.written| == s.rows && WorkerStep(s, k).Some?
    ensures var s' := WorkerStep(s, k).value; s'.gen == s.gen && s'.rows == s.rows && PhaseOf(s') == PhaseOf(s)
  {
    hide First, Beyond;
  }

  lemma {:induction false} WorkerStepRecord(s: Pool, k: nat)
    requires k < |s.w| && |s.written| == s.rows && WorkerStep(s, k).Some?
    ensures var s' := WorkerStep(s, k).value; |s'.w| == |s.w| && s'.w == s.w[k := s'.w[k]]
  {
    hide First, Beyond, PhaseOf;
    match s.w[k].pc
    case Run(_) =>
    case Check =>
    case _ =>
  }

  lemma {:induction false} WorkerStepMine(s: Pool, k: nat)
    requires Inv(s) && Productive(s, WorkerMoves(k))
    ensures |WorkerStep(s, k).value.w| == |s.w|
    ensures WorkerRank(WorkerStep(s, k).value, k) < WorkerRank(s, k)
  {
    var pc := s.w[k].pc;
    hide Inv, WorkerRank, WorkerStep;
    if pc.TakeUnlock? || pc.Run? || pc.Check? || pc.Poll? {
      WorkerStepToRows(s, k);
    } else {
      WorkerStepElsewhere(s, k);
    }
  }

  lemma {:induction false} WorkerStepToRows(s: Pool, k: nat)
    requires Inv(s) && Productive(s, WorkerMoves(k))
    requires var pc := s.w[k].pc; pc.TakeUnlock? || pc.Run? || pc.Check? || pc.Poll?
    ensures |WorkerStep(s, k).value.w| == |s.w|
    ensures WorkerRank(WorkerStep(s, k).value, k) < WorkerRank(s, k)
  {
    hide RowsOk, FinishedCount, First, Beyond;
    assert WorkerOk(s, k);
    hide Inv, DispatcherOk;
  }

  lemma {:induction false} WorkerStepElsewhere(s: Pool, k: nat)
    requires Inv(s) && Productive(s, WorkerMoves(k))
    requires var pc := s.w[k].pc; !(pc.TakeUnlock? || pc.Run? || pc.Check? || pc.Poll?)
    ensures |WorkerStep(s, k).value.w| == |s.w|
    ensures WorkerRank(WorkerStep(s, k).value, k) < WorkerRank(s, k)
  {
    hide RowsOk, FinishedCount, First, Beyond;
    assert WorkerOk(s, k);
    hide Inv, DispatcherOk;
  }

  lemma {:induction false} WorkerStepDispatcherRank(s: Pool, k: nat)
    requires Inv(s) && Productive(s, WorkerMoves(k))
    ensures DispatcherRank(WorkerStep(s, k).value) <= DispatcherRank(s)
  {
    hide RowsOk, FinishedCount, First, Beyond;
    assert WorkerOk(s, k);
  }

  lemma {:induction false} DispatcherStepRanks(s: Pool)
    requires Inv(s) && Productive(s, DispatcherMoves)
    ensures Rank(DispatcherStep(s).value) < Rank(s)
  {
    var s' := DispatcherStep(s).value;
    forall j | 0 <= j < |s.w| && !(s.d.Starting? && j == s.d.next)
      ensures WorkerRank(s', j) <= WorkerRank(s, j)
    {
      DispatcherStepOne(s, j);
    }
    if s.d.Starting? && s.d.next < |s.w| {
      SumLess(s, s', |s.w|, s.d.next, 2);
    } else {
      SumAtMost(s, s', |s.w|);
    }
    DispatcherStepOwn(s);
  }

  lemma {:induction false} DispatcherStepOne(s: Pool, j: nat)
    requires Inv(s) && Productive(s, DispatcherMoves) && j < |s.w| && !(s.d.Starting? && j == s.d.next)
    ensures var s' := DispatcherStep(s).value; |s'.w| == |s.w| && WorkerRank(s', j) <= WorkerRank(s, j)
  {
    hide RowsOk, FinishedCount, First, Beyond;
    assert WorkerOk(s, j);
  }

  lemma {:induction false} DispatcherStepOwn(s: Pool)
    requires Inv(s) && Productive(s, DispatcherMoves)
    ensures DispatcherRank(DispatcherStep(s).value) + (if s.d.Starting? && s.d.next < |s.w| then 2 else 0) < DispatcherRank(s)
  {
    hide Inv, DispatcherStep, DispatcherRank, Productive;
    if s.d.Running? || s.d.WaitLock? || s.d.WaitCheck? || s.d.WaitAsleep? || s.d.WaitWoken? || s.d.WaitUnlock? || s.d.SpinWait? {
      DispatcherStepWaits(s);
    } else {
      DispatcherStepGoes(s);
    }
  }

  lemma {:induction false} DispatcherStepWaits(s: Pool)
    requires Inv(s) && Productive(s, DispatcherMoves)
    requires s.d.Running? || s.d.WaitLock? || s.d.WaitCheck? || s.d.WaitAsleep? || s.d.WaitWoken? || s.d.WaitUnlock? || s.d.SpinWait?
    ensures DispatcherRank(DispatcherStep(s).value) < DispatcherRank(s)
  {
    hide RowsOk, FinishedCount, PerThread;
  }

  lemma {:induction false} DispatcherStepGoes(s: Pool)
    requires Inv(s) && Productive(s, DispatcherMoves)
    requires !(s.d.Running? || s.d.WaitLock? || s.d.WaitCheck? || s.d.WaitAsleep? || s.d.WaitWoken? || s.d.WaitUnlock? || s.d.SpinWait?)
    ensures DispatcherRank(DispatcherStep(s).value) + (if s.d.Starting? && s.d.next < |s.w| then 2 else 0) < DispatcherRank(s)
  {
    hide RowsOk, FinishedCount, PerThread;
  }

  /** A productive step uses up budget, so there are only finitely many between two spurious wake-ups. */
  lemma {:induction false} ProductiveStepsShrink(s: Pool, a: Step)
    requires Inv(s) && Productive(s, a)
    ensures Rank(Apply(s, a).value) < Rank(s)
  {
    if a.WorkerMoves? {
      WorkerStepRanks(s, a.k);
    } else {
      DispatcherStepRanks(s);
    }
  }

  /** An empty poll changes nothing but the poller's place between its two reads. */
  lemma {:induction false} EmptyPollsChangeNothing(s: Pool, a: Step)
    requires Inv(s) && EmptyPoll(s, a) && Apply(s, a).Some?
    ensures Rank(Apply(s, a).value) == Rank(s)
  {
    if a.WorkerMoves? {
      EmptyWorkerPoll(s, a.k);
    }
  }

  lemma {:induction false} EmptyPollMine(s: Pool, k: nat)
    requires k < |s.w| && |s.written| == s.rows && EmptyPoll(s, WorkerMoves(k)) && WorkerStep(s, k).Some?
    ensures var s' := WorkerStep(s, k).value; |s'.w| == |s.w| && s'.d == s.d && s'.done == s.done
    ensures WorkerRank(WorkerStep(s, k).value, k) == WorkerRank(s, k)
  {
    hide Share, Left;
  }

  lemma {:induction false} EmptyWorkerPoll(s: Pool, k: nat)
    requires k < |s.w| && |s.written| == s.rows && EmptyPoll(s, WorkerMoves(k)) && WorkerStep(s, k).Some?
    ensures Rank(WorkerStep(s, k).value) == Rank(s)
  {
    var s' := WorkerStep(s, k).value;
    EmptyPollMine(s, k);
    WorkerStepFrame(s, k);
    hide WorkerStep, RankIn, PhaseOf, WakeOne;
    forall j | 0 <= j < |s.w|
      ensures WorkerRank(s', j) == WorkerRank(s, j)
    {
      assert j != k ==> s'.w[j] == s.w[j];
    }
    SumAtMost(s, s', |s.w|);
    SumAtMost(s', s, |s.w|);
  }

  // ---- something can always move ----

  /** A worker that holds the mutex can move. */
  lemma {:induction false} HolderMoves(s: Pool, k: nat)
    requires Inv(s) && k < |s.w| && HoldsMutex(s.w[k].pc)
    ensures Productive(s, WorkerMoves(k))
  {
    hide RowsOk, FinishedCount;
    assert WorkerOk(s, k);
  }

  /** While a call waits for the others, a worker that has not finished can move, or the mutex holder can. */
  lemma {:induction false} UnfinishedMoves(s: Pool, k: nat) returns (a: Step)
    requires Inv(s) && k < |s.w| && !DoneWith(s.w[k], s.gen)
    requires InCall(s.d) && !s.d.GoBroadcast? && !DispatcherHolds(s.d)
    ensures Productive(s, a)
  {
    hide RowsOk, FinishedCount;
    assert WorkerOk(s, k);
    if s.mutex.ByWorker? {
      assert WorkerOk(s, s.mutex.i);
      HolderMoves(s, s.mutex.i);
      a := WorkerMoves(s.mutex.i);
    } else {
      a := WorkerMoves(k);
    }
  }

  lemma {:induction false} JoinMoves(s: Pool) returns (a: Step)
    requires Inv(s) && s.d.Join?
    ensures Productive(s, a)
  {
    hide RowsOk, FinishedCount;
    if s.d.next >= |s.w| || s.w[s.d.next].pc.Exited? {
      a := DispatcherMoves;
    } else if s.mutex.ByWorker? {
      assert WorkerOk(s, s.mutex.i);
      HolderMoves(s, s.mutex.i);
      a := WorkerMoves(s.mutex.i);
    } else {
      assert WorkerOk(s, s.d.next);
      a := WorkerMoves(s.d.next);
    }
  }

  /** Between two calls, or after destroy: nothing is asked of the pool. */
  predicate AtRest(d: DispatcherPc) {
    d.Idle? || d.Finished?
  }

  /** Unless the dispatcher is at rest, some thread has a productive step. */
  lemma {:induction false} InvMoves(s: Pool) returns (a: Step)
    requires Inv(s) && !AtRest(s.d)
    ensures |s.written| == s.rows && Productive(s, a)
  {
    hide RowsOk, FinishedCount;
    if s.d.Join? {
      a := JoinMoves(s);
    } else if (s.d.WaitAsleep? || s.d.SpinWait?) && s.done < Threads(s) {
      var k := CountMissing(s.w, s.gen);
      a := UnfinishedMoves(s, k);
    } else if s.mutex.ByWorker? && !s.spin {
      assert WorkerOk(s, s.mutex.i);
      HolderMoves(s, s.mutex.i);
      a := WorkerMoves(s.mutex.i);
    } else {
      a := DispatcherMoves;
    }
  }

  /** No deadlock and no livelock: in every reachable state in which the dispatcher is not at rest
      between calls or finished, some thread has a productive step. */
  lemma {:induction false} SomethingMoves(s: Pool, n: nat) returns (a: Step)
    requires ReachableIn(s, n) && !AtRest(s.d)
    ensures |s.written| == s.rows && Productive(s, a) && Inv(s)
  {
    ReachableInv(s, n);
    a := InvMoves(s);
  }
}
