/**
Every call comes to an end under a fair scheduler. A run is fair with bound K when no thread
has an enabled step throughout K steps in a row without taking it. Then a call, a start or a
destroy that is under way ends within K steps for every unit of its budget.
*/
module PoolFairness {
  import opened Common
  import opened PoolState
  import opened PoolProof
  import opened PoolProgress

  predicate Follows(s: Pool, a: Step, s': Pool) {
    |s.written| == s.rows && Apply(s, a) == Some(s')
  }

  /** acts[i] leads from states[i] to states[i + 1]. */
  predicate Run(states: seq<Pool>, acts: seq<Step>) {
    |states| == |acts| + 1 && forall i :: 0 <= i < |acts| ==> Follows(states[i], acts[i], states[i + 1])
  }

  /** The step of a thread that is neither blocked, asleep nor gone. */
  predicate Enabled(s: Pool, a: Step) {
    |s.written| == s.rows && (a.WorkerMoves? || a.DispatcherMoves?) && Apply(s, a).Some?
  }

  predicate EnabledThroughout(states: seq<Pool>, a: Step, from: nat, till: nat)
    requires till <= |states|
  {
    forall j :: from <= j < till ==> Enabled(states[j], a)
  }

  /** A step enabled throughout `bound` steps in a row is one of them. */
  ghost predicate Fair(states: seq<Pool>, acts: seq<Step>, bound: nat) {
    forall i: nat, till: nat, a: Step ::
      till == i + bound && till <= |acts| && till <= |states| && EnabledThroughout(states, a, i, till) ==> a in acts[i..till]
  }

  predicate Spurious(a: Step) {
    a.SpuriousWorkerWake? || a.SpuriousDispatcherWake?
  }

  /** Spurious wake-ups from step i on. */
  function WakesFrom(acts: seq<Step>, i: nat): nat
    requires i <= |acts|
    decreases |acts| - i
  {
    if i == |acts| then 0 else (if Spurious(acts[i]) then 1 else 0) + WakesFrom(acts, i + 1)
  }

  /** A spurious wake-up costs at most two steps: take the mutex and look again. */
  lemma {:induction false} WakeCosts(s: Pool, a: Step)
    requires Inv(s) && Spurious(a) && Apply(s, a).Some?
    ensures Rank(Apply(s, a).value) <= Rank(s) + 2
  {
    var s' := Apply(s, a).value;
    if a.SpuriousWorkerWake? {
      WakeCostsMine(s, a.k);
      hide Inv, RankIn, PhaseOf;
      forall j | 0 <= j < |s.w| && j != a.k
        ensures WorkerRank(s', j) <= WorkerRank(s, j)
      {
        assert s'.w[j] == s.w[j];
      }
      SumLess(s, s', |s.w|, a.k, 2);
      WakeLeavesDispatcher(s, a.k);
    } else {
      hide Inv, RankIn;
      SumAtMost(s, s', |s.w|);
    }
  }

  lemma {:induction false} WakeLeavesDispatcher(s: Pool, k: nat)
    requires k < |s.w|
    ensures DispatcherRank(SetWorker(s, k, Woken)) == DispatcherRank(s)
  {
    hide Share, Left;
  }

  lemma {:induction false} WakeCostsMine(s: Pool, k: nat)
    requires k < |s.w| && |s.written| == s.rows && s.w[k].pc.Asleep?
    ensures var s' := SetWorker(s, k, Woken); PhaseOf(s') == PhaseOf(s) && WorkerRank(s', k) <= WorkerRank(s, k) + 2
  {
    hide Share, Left;
  }

  predicate Polling(pc: WorkerPc) {
    pc.Poll? || pc.PollStop?
  }

  lemma {:induction false} PollKeepsWorker(s: Pool, k: nat, pc: WorkerPc, j: nat)
    requires k < |s.w| && |s.written| == s.rows && Polling(pc) && j != k && Productive(s, WorkerMoves(j))
    ensures Productive(SetWorker(s, k, pc), WorkerMoves(j))
  {
    hide First, Beyond;
    assert SetWorker(s, k, pc).w[j] == s.w[j];
  }

  lemma {:induction false} PollKeepsDispatcher(s: Pool, k: nat, pc: WorkerPc)
    requires k < |s.w| && |s.written| == s.rows && Polling(pc) && Polling(s.w[k].pc) && Productive(s, DispatcherMoves)
    ensures Productive(SetWorker(s, k, pc), DispatcherMoves)
  {
    hide First, Beyond;
  }

  /** An empty poll takes no step away from any other thread. */
  lemma {:induction false} PollKeepsProductive(s: Pool, b: Step, a: Step)
    requires |s.written| == s.rows && EmptyPoll(s, b) && Apply(s, b).Some? && Productive(s, a)
    ensures |Apply(s, b).value.written| == Apply(s, b).value.rows && Productive(Apply(s, b).value, a)
  {
    if b.WorkerMoves? {
      var pc := if s.w[b.k].pc.Poll? then PollStop else Poll;
      assert Apply(s, b).value == SetWorker(s, b.k, pc);
      hide WorkerStep, DispatcherStep;
      if a.WorkerMoves? {
        PollKeepsWorker(s, b.k, pc, a.k);
      } else {
        PollKeepsDispatcher(s, b.k, pc);
      }
    }
  }

  /** The budget of a run from step i on: the rank, and three for every wake-up still to come. */
  function Budget(states: seq<Pool>, acts: seq<Step>, i: nat): nat
    requires i < |states| && i <= |acts|
  {
    Rank(states[i]) + 3 * WakesFrom(acts, i)
  }

  /** Away from rest every step but an empty poll uses up budget. */
  lemma {:induction false} StepSpends(states: seq<Pool>, acts: seq<Step>, i: nat)
    requires Run(states, acts) && i < |acts| && Inv(states[i]) && !AtRest(states[i].d)
    ensures Inv(states[i + 1]) && Budget(states, acts, i + 1) <= Budget(states, acts, i)
    ensures !EmptyPoll(states[i], acts[i]) ==> Budget(states, acts, i + 1) < Budget(states, acts, i)
  {
    var s, a := states[i], acts[i];
    assert Follows(s, a, states[i + 1]);
    StepKeepsInv(s, a);
    hide Inv, Rank, WorkerStep, DispatcherStep;
    if Spurious(a) {
      WakeCosts(s, a);
    } else if EmptyPoll(s, a) {
      EmptyPollsChangeNothing(s, a);
    } else {
      assert Productive(s, a);
      ProductiveStepsShrink(s, a);
    }
  }

  ghost predicate AllPolls(states: seq<Pool>, acts: seq<Step>, from: nat, till: nat)
    requires till <= |acts| < |states|
  {
    forall i :: from <= i < till ==> Inv(states[i]) && EmptyPoll(states[i], acts[i])
  }

  /** Over a window of steps: the budget does not grow, and unless the window is all empty polls it shrinks. */
  lemma {:induction false} WindowSpends(states: seq<Pool>, acts: seq<Step>, from: nat, till: nat)
    requires Run(states, acts) && from <= till <= |acts| && Inv(states[from])
    requires forall i :: from <= i < till ==> !AtRest(states[i].d)
    ensures Inv(states[till]) && Budget(states, acts, till) <= Budget(states, acts, from)
    ensures Budget(states, acts, till) == Budget(states, acts, from) ==> AllPolls(states, acts, from, till)
    decreases till
  {
    hide Inv, Budget, EmptyPoll, Follows;
    if from < till {
      WindowSpends(states, acts, from, till - 1);
      StepSpends(states, acts, till - 1);
    }
  }

  /** A productive step stays available, and untaken, through empty polls. */
  lemma {:induction false} StaysAvailable(states: seq<Pool>, acts: seq<Step>, a: Step, from: nat, till: nat)
    requires Run(states, acts) && from <= till <= |acts| && |states[from].written| == states[from].rows && Productive(states[from], a)
    requires AllPolls(states, acts, from, till)
    ensures |states[till].written| == states[till].rows && Productive(states[till], a)
    ensures EnabledThroughout(states, a, from, till) && a !in acts[from..till]
    decreases till
  {
    hide Inv, EmptyPoll, Apply;
    if from < till {
      StaysAvailable(states, acts, a, from, till - 1);
      assert Follows(states[till - 1], acts[till - 1], states[till]);
      PollKeepsProductive(states[till - 1], acts[till - 1], a);
      assert acts[from..till] == acts[from..till - 1] + [acts[till - 1]];
    }
  }

  /** `bound` fair steps away from rest use up budget. */
  lemma {:induction false} FairWindow(states: seq<Pool>, acts: seq<Step>, bound: nat, from: nat)
    requires Run(states, acts) && Fair(states, acts, bound) && from + bound <= |acts| && Inv(states[from])
    requires forall i :: from <= i <= from + bound ==> !AtRest(states[i].d)
    ensures Inv(states[from + bound]) && Budget(states, acts, from + bound) < Budget(states, acts, from)
  {
    hide Inv, Productive, Follows, EnabledThroughout, Budget, AtRest;
    WindowSpends(states, acts, from, from + bound);
    if Budget(states, acts, from + bound) == Budget(states, acts, from) {
      var a := InvMoves(states[from]);
      StaysAvailable(states, acts, a, from, from + bound);
      assert false;
    }
  }

  /** With `windows` windows left and less budget than that, the dispatcher comes to rest. */
  lemma {:induction false} RestWithin(states: seq<Pool>, acts: seq<Step>, bound: nat, from: nat, windows: nat)
    returns (i: nat)
    requires Run(states, acts) && Fair(states, acts, bound) && from <= |acts| && Inv(states[from])
    requires from + bound * windows <= |acts| && Budget(states, acts, from) < windows
    ensures from <= i <= from + bound * windows && i < |states| && AtRest(states[i].d)
    decreases windows
  {
    hide Inv, Budget, Fair, Follows;
    assert bound * windows == bound + bound * (windows - 1);
    if j :| from <= j <= from + bound && AtRest(states[j].d) {
      i := j;
    } else {
      FairWindow(states, acts, bound, from);
      i := RestWithin(states, acts, bound, from + bound, windows - 1);
    }
  }

  /**
  Whatever is under way in a reachable state ends: in every fair run from it the dispatcher is
  at rest within `bound` steps for each unit of rank, three more units for each spurious
  wake-up, and one more.
  */
  lemma {:induction false} EveryCallEnds(states: seq<Pool>, acts: seq<Step>, bound: nat, n: nat) returns (i: nat)
    requires Run(states, acts) && ReachableIn(states[0], n) && Fair(states, acts, bound)
    requires |acts| >= bound * (Budget(states, acts, 0) + 1)
    ensures i <= bound * (Budget(states, acts, 0) + 1) && i < |states| && AtRest(states[i].d)
  {
    assert Inv(states[0]) by {
      hide Inv, Fair, Follows, Rank;
      ReachableInv(states[0], n);
    }
    hide Inv, Fair, Follows, Rank, ReachableIn, AtRest;
    i := RestWithin(states, acts, bound, 0, Budget(states, acts, 0) + 1);
  }
}
