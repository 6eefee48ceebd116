/**
 When a run comes to its end. The next thing a run wants is a step of its own or the arrival of
 the request it waits for; each uses up a finite budget. Only a request the database refuses
 can hold a run up for good, and it then holds up every later run too.
 */
module OutboxProgress {
  import opened Common
  import opened OutboxLog
  import opened OutboxOps
  import opened Outbox
  import opened OutboxProof

  /** None of the requests is one the database refuses. */
  predicate Clear(e: Env, ops: seq<Op>) {
    forall i :: 0 <= i < |ops| ==> !Rejects(e, ops[i].items)
  }

  function OpsLeft(ob: Outbox, i: nat): nat {
    if i <= |ob.ops| then |ob.ops| - i else 0
  }

  /** Steps a run still has before it, the arrivals it waits for included. */
  function StepsLeft(s: State): nat {
    match s.pc
    case Idle => 0
    case Writing(ob) => 4 * |ob.ops| + 3
    case Working(ob, i) => 4 * OpsLeft(ob, i) + 2
    case Waiting(ob, i) => 4 * OpsLeft(ob, i) + (if s.replied then 0 else 1)
    case Marked(ob, i) => 4 * OpsLeft(ob, i + 1) + 3
    case Removing(_) => 1
  }

  /** The next step of a run, or the arrival it waits for. */
  function Wanted(s: State): Action
    requires !s.pc.Idle?
  {
    match s.pc
    case Writing(_) => WriteOutbox
    case Working(ob, i) => if i >= |ob.ops| then WriteOffset else if ob.ops[i].done then Skip else Send
    case Waiting(ob, i) => if s.replied || i >= |ob.ops| then Ack else Deliver(ob.ops[i].items)
    case Marked(_, _) => Save
    case Removing(_) => Unlink
  }

  /** A run is under way that is to move the checkpoint to `end`. */
  predicate Underway(e: Env, s: State, end: nat) {
    !s.pc.Idle? && s.pc.ob.end == end && Clear(e, s.pc.ob.ops)
  }

  /** The run is over and its outbox is gone. */
  predicate Committed(s: State, end: nat) {
    s.pc.Idle? && s.outbox.None? && s.offset == end
  }

  lemma {:induction false} SameRequests(e: Env, ob: Outbox, i: nat)
    requires i < |ob.ops|
    ensures Clear(e, MarkDone(ob, i).ops) <==> Clear(e, ob.ops)
  {
    hide Rejects;
    var ops := MarkDone(ob, i).ops;
    assert forall k :: 0 <= k < |ob.ops| ==> ops[k].items == ob.ops[k].items;
  }

  /** What a run wants is possible and brings it nearer its end, the unlink that leaves the checkpoint at `end`. */
  lemma {:induction false} WantedHelps(e: Env, s: State, end: nat)
    requires Inv(e, s) && Underway(e, s, end)
    ensures Enabled(s, Wanted(s))
    ensures var t := Next(e, s, Wanted(s));
            && StepsLeft(t) < StepsLeft(s) && t.log == s.log
            && (if s.pc.Removing? then Committed(t, end) && t.cuts == s.cuts else Underway(e, t, end))
            && (s.pc.Working? && s.pc.i == |s.pc.ob.ops| ==> t.cuts == s.cuts + [end] && t.pc.Removing?)
            && (!(s.pc.Working? && s.pc.i == |s.pc.ob.ops|) && !s.pc.Removing? ==> t.cuts == s.cuts && !t.pc.Removing?)
  {
    hide GoodOutbox, DoneSettled, Settled, GoodBounds, ServerOk, SentOk, CommittedSettled, Clear, Arrive, Rejects, FileOk;
    if s.pc.Waiting? {
      var ob, i := s.pc.ob, s.pc.i;
      SameRequests(e, ob, i);
      assert !Rejects(e, ob.ops[i].items) by { ClearAt(e, ob.ops, i); }
    }
  }

  lemma {:induction false} ClearAt(e: Env, ops: seq<Op>, i: nat)
    requires Clear(e, ops) && i < |ops|
    ensures !Rejects(e, ops[i].items)
  {
  }

  /** An action that fails neither the run nor the machine, and is not what the run wants, leaves the run as it is. */
  lemma {:induction false} OthersPass(e: Env, s: State, a: Action)
    requires Inv(e, s) && !s.pc.Idle? && Enabled(s, a) && !a.Crash? && !a.Fail? && a != Wanted(s)
    ensures var t := Next(e, s, a); t.pc == s.pc && t.replied == s.replied
  {
    hide GoodOutbox, DoneSettled, Settled, GoodBounds, ServerOk, SentOk, CommittedSettled, Arrive, Rejects, FileOk;
  }

  // ---- a run that nothing disturbs ----

  lemma {:induction false} StepReaches(e: Env, s: State, n: nat, a: Action)
    requires ReachableIn(e, s, n) && Enabled(s, a)
    ensures ReachableIn(e, Next(e, s, a), n + 1)
  {
  }

  lemma {:induction false} RunReaches(e: Env, s: State, n: nat, acts: seq<Action>, t: State)
    requires ReachableIn(e, s, n) && RunsTo(e, s, acts, t)
    ensures ReachableIn(e, t, n + |acts|)
    decreases |acts|
  {
    hide ReachableIn, Next, Enabled;
    if acts != [] {
      StepReaches(e, s, n, acts[0]);
      RunReaches(e, Next(e, s, acts[0]), n + 1, acts[1..], t);
    }
  }

  lemma {:induction false} RunPrepend(e: Env, s: State, a: Action, acts: seq<Action>, t: State)
    requires Enabled(s, a) && RunsTo(e, Next(e, s, a), acts, t)
    ensures RunsTo(e, s, [a] + acts, t)
  {
    assert ([a] + acts)[1..] == acts;
  }

  /** The actions that take a run to its end, when its requests arrive. */
  lemma {:induction false} Drive(e: Env, s: State, end: nat) returns (acts: seq<Action>, t: State)
    requires InjectiveHash(e) && Inv(e, s) && Underway(e, s, end)
    ensures RunsTo(e, s, acts, t) && |acts| <= StepsLeft(s) && Committed(t, end)
    ensures t.log == s.log && t.cuts == if s.pc.Removing? then s.cuts else s.cuts + [end]
    decreases StepsLeft(s)
  {
    hide Inv, Next, Enabled, Underway, InjectiveHash, Wanted, StepsLeft;
    assert !s.pc.Idle? by { UnderwayRuns(e, s, end); }
    WantedHelps(e, s, end);
    var a := Wanted(s);
    var next := Next(e, s, a);
    StepKeeps(e, s, a);
    if s.pc.Removing? {
      acts, t := [], next;
      assert RunsTo(e, next, [], next);
    } else {
      acts, t := Drive(e, next, end);
    }
    RunPrepend(e, s, a, acts, t);
    acts := [a] + acts;
  }

  lemma {:induction false} UnderwayRuns(e: Env, s: State, end: nat)
    requires Underway(e, s, end)
    ensures !s.pc.Idle?
  {
  }

  // ---- every fair run ends ----

  predicate Follows(e: Env, s: State, a: Action, t: State) {
    Enabled(s, a) && t == Next(e, s, a)
  }

  /** acts[i] leads from states[i] to states[i + 1], and nothing crashes or gives up. */
  predicate Run(e: Env, states: seq<State>, acts: seq<Action>) {
    && |states| == |acts| + 1
    && (forall i :: 0 <= i < |acts| ==> Follows(e, states[i], acts[i], states[i + 1]))
    && (forall i :: 0 <= i < |acts| ==> !acts[i].Crash? && !acts[i].Fail?)
  }

  predicate WantedThroughout(states: seq<State>, a: Action, from: nat, till: nat)
    requires till <= |states|
  {
    forall j :: from <= j < till ==> !states[j].pc.Idle? && Wanted(states[j]) == a
  }

  /** What a run wants throughout `bound` steps happens in one of them: its process gets on, its requests arrive. */
  ghost predicate Fair(states: seq<State>, acts: seq<Action>, bound: nat) {
    forall i: nat, till: nat, a: Action ::
      till == i + bound && till <= |acts| && till <= |states| && WantedThroughout(states, a, i, till) ==> a in acts[i..till]
  }

  /** Within `bound` steps what the run wants happens, and until then the run stays as it is. */
  lemma {:induction false} FirstAdvance(e: Env, states: seq<State>, acts: seq<Action>, bound: nat, from: nat, end: nat) returns (i: nat)
    requires InjectiveHash(e) && Run(e, states, acts) && Fair(states, acts, bound) && from + bound <= |acts|
    requires Inv(e, states[from]) && Underway(e, states[from], end)
    ensures from <= i < from + bound && Inv(e, states[i]) && Underway(e, states[i], end)
    ensures acts[i] == Wanted(states[i]) && StepsLeft(states[i]) == StepsLeft(states[from])
  {
    hide InjectiveHash, Inv, Next, Enabled, Clear;
    var s := states[from];
    i := from;
    while i < from + bound && acts[i] != Wanted(states[i])
      invariant from <= i <= from + bound && Inv(e, states[i])
      invariant states[i].pc == s.pc && states[i].replied == s.replied
      invariant WantedThroughout(states, Wanted(s), from, i)
      invariant Wanted(s) !in acts[from..i]
    {
      assert Follows(e, states[i], acts[i], states[i + 1]);
      StepKeeps(e, states[i], acts[i]);
      OthersPass(e, states[i], acts[i]);
      assert acts[from..i + 1] == acts[from..i] + [acts[i]];
      i := i + 1;
    }
    if i == from + bound {
      assert false;
    }
  }

  lemma {:induction false} AdvanceAt(e: Env, s: State, a: Action, t: State, end: nat)
    requires InjectiveHash(e) && Inv(e, s) && Underway(e, s, end) && Follows(e, s, a, t) && a == Wanted(s)
    ensures StepsLeft(t) < StepsLeft(s) && Inv(e, t) && (Committed(t, end) || Underway(e, t, end))
  {
    hide InjectiveHash, Inv, Next, Enabled, StepsLeft, Clear;
    WantedHelps(e, s, end);
    StepKeeps(e, s, a);
  }

  lemma {:induction false} WindowsFit(bound: nat, left: nat, left': nat)
    requires left' < left
    ensures bound * left' + bound <= bound * left
  {
    assert bound * (left' + 1) <= bound * left;
  }

  lemma {:induction false} EndsFrom(e: Env, states: seq<State>, acts: seq<Action>, bound: nat, from: nat, end: nat) returns (i: nat)
    requires InjectiveHash(e) && Run(e, states, acts) && Fair(states, acts, bound) && from <= |acts|
    requires Inv(e, states[from]) && Underway(e, states[from], end)
    requires from + bound * StepsLeft(states[from]) <= |acts|
    ensures from <= i <= from + bound * StepsLeft(states[from]) && i < |states| && Committed(states[i], end)
    decreases StepsLeft(states[from])
  {
    hide InjectiveHash, Inv, Next, Enabled, Underway, Wanted, Fair, Follows, StepsLeft, Committed;
    var left := StepsLeft(states[from]);
    assert left > 0 by { WantedHelps(e, states[from], end); }
    WindowsFit(bound, left, 0);
    i := FirstAdvance(e, states, acts, bound, from, end);
    assert Follows(e, states[i], acts[i], states[i + 1]);
    assert !states[i].pc.Idle? by { UnderwayRuns(e, states[i], end); }
    AdvanceAt(e, states[i], acts[i], states[i + 1], end);
    i := i + 1;
    if !Committed(states[i], end) {
      WindowsFit(bound, left, StepsLeft(states[i]));
      i := EndsFrom(e, states, acts, bound, i, end);
    }
  }

  /**
   A run under way from a reachable state, whose outbox holds no request the database refuses,
   ends within `bound` steps for each step it has left, whatever is appended or delivered
   meanwhile: the checkpoint stands at the end of the outbox and the outbox is gone.
   */
  lemma {:induction false} EveryRunEnds(e: Env, states: seq<State>, acts: seq<Action>, bound: nat, n: nat) returns (i: nat)
    requires InjectiveHash(e) && Run(e, states, acts) && Fair(states, acts, bound)
    requires ReachableIn(e, states[0], n) && !states[0].pc.Idle? && Clear(e, states[0].pc.ob.ops)
    requires |acts| >= bound * StepsLeft(states[0])
    ensures i <= bound * StepsLeft(states[0]) && i < |states| && Committed(states[i], states[0].pc.ob.end)
  {
    hide InjectiveHash, Inv, Fair, StepsLeft, ReachableIn;
    ReachableInv(e, states[0], n);
    i := EndsFrom(e, states, acts, bound, 0, states[0].pc.ob.end);
  }

  // ---- an outbox that cannot be committed ----

  /** The outbox on disk is not committed and holds a request the database refuses. */
  predicate Blocked(e: Env, s: State) {
    s.outbox.Some? && s.outbox.value.start == s.offset && !Clear(e, s.outbox.value.ops)
  }

  lemma {:induction false} DoneIsClear(e: Env, s: State)
    requires Inv(e, s) && s.outbox.Some? && DoneUpTo(s.outbox.value, |s.outbox.value.ops|)
    ensures Clear(e, s.outbox.value.ops)
  {
    hide GoodOutbox, GoodBounds, ServerOk, SentOk, CommittedSettled, PcOk, Rejects;
    var ob := s.outbox.value;
    forall i | 0 <= i < |ob.ops| ensures !Rejects(e, ob.ops[i].items) {
      assert Settled(e, s.server, s.sent, ob.ops[i].items);
    }
  }

  lemma {:induction false} BlockedStays(e: Env, s: State, a: Action)
    requires Inv(e, s) && Blocked(e, s) && Enabled(s, a)
    ensures Blocked(e, Next(e, s, a)) && Next(e, s, a).offset == s.offset
  {
    hide GoodOutbox, GoodBounds, ServerOk, SentOk, CommittedSettled, Clear, Settled, DoneSettled, Arrive, Opened, Rejects;
    if a.Save? {
      SameRequests(e, s.outbox.value, s.pc.i);
    } else if a.WriteOffset? {
      DoneIsClear(e, s);
    } else if a.Unlink? {
      BatchNonEmpty(e, s.log, s.outbox.value);
    }
  }

  /** However many runs follow, a blocked outbox stays and the checkpoint does not move. */
  lemma {:induction false} BlockedForever(e: Env, s: State, acts: seq<Action>, t: State)
    requires InjectiveHash(e) && Inv(e, s) && Blocked(e, s) && RunsTo(e, s, acts, t)
    ensures Blocked(e, t) && t.offset == s.offset
    decreases |acts|
  {
    hide Inv, Blocked, Next, Enabled, InjectiveHash;
    if acts != [] {
      BlockedStays(e, s, acts[0]);
      StepKeeps(e, s, acts[0]);
      BlockedForever(e, Next(e, s, acts[0]), acts[1..], t);
    }
  }

  /** A crash, a new run, and then everything arrives. */
  lemma {:induction false} ResumeAndEnd(e: Env, s: State) returns (acts: seq<Action>, t: State)
    requires InjectiveHash(e) && Inv(e, s) && s.outbox.Some? && s.outbox.value.start == s.offset && Clear(e, s.outbox.value.ops)
    ensures RunsTo(e, s, acts, t) && Committed(t, s.outbox.value.end)
  {
    hide Inv, Clear, InjectiveHash, Opened, StepsLeft;
    var s1 := Next(e, s, Crash);
    StepKeeps(e, s, Crash);
    ResumeOpens(e, s1);
    var s2 := Next(e, s1, Start);
    StepKeeps(e, s1, Start);
    acts, t := Drive(e, s2, s.outbox.value.end);
    RunPrepend(e, s1, Start, acts, t);
    RunPrepend(e, s, Crash, [Start] + acts, t);
    acts := [Crash] + ([Start] + acts);
  }

  /** An outbox on disk can be committed by some continuation if and only if the database refuses none of its requests. */
  lemma {:induction false} CommitsIffClear(e: Env, s: State, n: nat)
    requires InjectiveHash(e) && ReachableIn(e, s, n) && s.outbox.Some? && s.outbox.value.start == s.offset
    ensures (exists acts, t :: RunsTo(e, s, acts, t) && t.offset != s.offset) <==> Clear(e, s.outbox.value.ops)
  {
    hide Inv, Clear, InjectiveHash, ReachableIn, RunsTo;
    ReachableInv(e, s, n);
    if Clear(e, s.outbox.value.ops) {
      var acts, t := ResumeAndEnd(e, s);
      assert s.outbox.value.start < s.outbox.value.end by { OutboxNonEmpty(e, s); }
      assert RunsTo(e, s, acts, t) && t.offset != s.offset;
    } else if acts, t :| RunsTo(e, s, acts, t) && t.offset != s.offset {
      BlockedForever(e, s, acts, t);
    }
  }

  lemma {:induction false} OutboxNonEmpty(e: Env, s: State)
    requires Inv(e, s) && s.outbox.Some?
    ensures s.outbox.value.start < s.outbox.value.end
  {
    hide GoodOutbox, GoodBounds, ServerOk, SentOk, CommittedSettled, PcOk, DoneSettled;
    BatchNonEmpty(e, s.log, s.outbox.value);
  }
}
