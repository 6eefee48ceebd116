/**
 The worker pool as interleaved atomic steps: one dispatcher (thread 0) and workers 1..n-1
 sharing a generation counter, a done counter, a stop flag, a mutex and two condition
 variables, in both the condition-variable and the spin variant.
 */
module PoolState {
  import opened Common

  /** Where a worker stands in q4_worker. */
  datatype WorkerPc =
    | NotStarted
    // condition-variable variant
    | Lock                // about to take the mutex at the top of the loop
    | Check               // holds the mutex, about to test gen and stop
    | Asleep              // waiting on cv_go
    | Woken               // woken, must retake the mutex
    | TakeUnlock          // holds the mutex, has taken the generation
    | Run(row: nat)       // computing its range; `row` is next
    | DoneLock            // about to take the mutex to report
    | Inc                 // holds the mutex, about to count itself done
    | Signal              // holds the mutex, was the last, about to signal cv_done
    | DoneUnlock          // holds the mutex, about to release it
    | ExitUnlock          // holds the mutex, saw stop
    // spin variant
    | Poll                // about to read gen
    | PollStop            // saw no new generation, about to read stop
    | SpinInc             // about to count itself done
    | Exited

  datatype Worker = Worker(pc: WorkerPc, last: nat)

  /** Where the dispatcher stands: between calls, in q4pool_go_and_wait, or in q4pool_start and _destroy. */
  datatype DispatcherPc =
    | Starting(next: nat)
    | Idle
    | GoLock | GoReset | GoGen | GoBroadcast | GoUnlock
    | Running(row: nat)
    | WaitLock | WaitCheck | WaitAsleep | WaitWoken | WaitUnlock
    | SpinWait
    | StopLock | StopSet | StopBroadcast | StopUnlock
    | Join(next: nat)
    | Finished

  datatype Holder = Free | Dispatcher | ByWorker(i: nat)

  /** `rows` is the out count of the job record; written[r] counts how often row r was computed for it. */
  datatype Pool = Pool(spin: bool, gen: nat, done: nat, stop: bool, mutex: Holder,
                       w: seq<Worker>, d: DispatcherPc, rows: nat, written: seq<nat>)

  /** Worker k is thread k + 1; the pool has |w| + 1 threads. */
  function Threads(s: Pool): nat { |s.w| + 1 }

  // ---- the row partition of q4_run_range ----

  function PerThread(rows: nat, n: nat): nat
    requires n > 0
  {
    (rows + n - 1) / n
  }

  function First(rows: nat, n: nat, t: nat): nat
    requires n > 0
  {
    t * PerThread(rows, n)
  }

  function Beyond(rows: nat, n: nat, t: nat): nat
    requires n > 0
  {
    var end := First(rows, n, t) + PerThread(rows, n);
    if end > rows then rows else end
  }

  /** Row r belongs to thread t. */
  predicate InRangeOf(rows: nat, n: nat, t: nat, r: nat)
    requires n > 0
  {
    First(rows, n, t) <= r < Beyond(rows, n, t)
  }

  lemma {:induction false} DivisionBounds(a: nat, b: nat)
    requires b > 0
    ensures b * (a / b) <= a < b * (a / b) + b
  {
  }

  lemma {:induction false} MulMonotone(a: nat, x: nat, y: nat)
    requires x <= y
    ensures a * x <= a * y
  {
  }

  lemma {:induction false} RangesCoverAll(rows: nat, n: nat)
    requires n > 0
    ensures n * PerThread(rows, n) >= rows
  {
    DivisionBounds(rows + n - 1, n);
  }

  lemma {:induction false} BlockOf(per: nat, t: nat, q: nat, r: nat)
    requires per * q <= r < per * q + per
    ensures t * per <= r < t * per + per <==> t == q
  {
    if t < q {
      MulMonotone(per, t + 1, q);
      assert (t + 1) * per == t * per + per;
    } else if t > q {
      MulMonotone(per, q + 1, t);
      assert (q + 1) * per == q * per + per;
    }
  }

  /** Every row belongs to exactly one thread: the thread r / per. */
  lemma {:induction false} RangesPartition(rows: nat, n: nat, t: nat, r: nat)
    requires n > 0 && t < n && r < rows
    ensures PerThread(rows, n) > 0 && r / PerThread(rows, n) < n
    ensures InRangeOf(rows, n, t, r) <==> t == r / PerThread(rows, n)
  {
    RangesCoverAll(rows, n);
    hide PerThread;
    var per := PerThread(rows, n);
    assert per > 0;
    DivisionBounds(r, per);
    var q := r / per;
    if q >= n {
      MulMonotone(per, n, q);
    }
    BlockOf(per, t, q, r);
  }

  // ---- steps ----

  function SetWorker(s: Pool, k: nat, pc: WorkerPc): Pool
    requires k < |s.w|
  {
    s.(w := s.w[k := s.w[k].(pc := pc)])
  }

  /** One step of worker k, or None when it cannot move (blocked, asleep, not started or gone). */
  function WorkerStep(s: Pool, k: nat): Option<Pool>
    requires k < |s.w| && |s.written| == s.rows
  {
    var me := s.w[k];
    match me.pc
    case NotStarted => None
    case Lock => if s.mutex.Free? then Some(SetWorker(s, k, Check).(mutex := ByWorker(k))) else None
    case Check =>
      if s.gen == me.last && !s.stop then Some(SetWorker(s, k, Asleep).(mutex := Free))
      else if s.stop then Some(SetWorker(s, k, ExitUnlock))
      else Some(s.(w := s.w[k := Worker(TakeUnlock, s.gen)]))
    case Asleep => None
    case Woken => if s.mutex.Free? then Some(SetWorker(s, k, Check).(mutex := ByWorker(k))) else None
    case TakeUnlock => Some(SetWorker(s, k, Run(First(s.rows, Threads(s), k + 1))).(mutex := Free))
    case Run(r) =>
      if r < Beyond(s.rows, Threads(s), k + 1) then Some(SetWorker(s, k, Run(r + 1)).(written := s.written[r := s.written[r] + 1]))
      else Some(SetWorker(s, k, if s.spin then SpinInc else DoneLock))
    case DoneLock => if s.mutex.Free? then Some(SetWorker(s, k, Inc).(mutex := ByWorker(k))) else None
    case Inc => Some(SetWorker(s, k, if s.done + 1 == Threads(s) then Signal else DoneUnlock).(done := s.done + 1))
    case Signal => Some(SetWorker(s, k, DoneUnlock).(d := if s.d.WaitAsleep? then WaitWoken else s.d))
    case DoneUnlock => Some(SetWorker(s, k, Lock).(mutex := Free))
    case ExitUnlock => Some(SetWorker(s, k, Exited).(mutex := Free))
    case Poll =>
      if s.gen == me.last then Some(SetWorker(s, k, PollStop))
      else Some(s.(w := s.w[k := Worker(Run(First(s.rows, Threads(s), k + 1)), s.gen)]))
    case PollStop => Some(SetWorker(s, k, if s.stop then Exited else Poll))
    case SpinInc => Some(SetWorker(s, k, Poll).(done := s.done + 1))
    case Exited => None
  }

  function WakeOne(w: Worker): Worker {
    if w.pc.Asleep? then w.(pc := Woken) else w
  }

  /** pthread_cond_broadcast on cv_go. */
  function WakeAll(w: seq<Worker>): (r: seq<Worker>)
    ensures |r| == |w|
    ensures forall k {:trigger r[k]} :: 0 <= k < |w| ==> r[k] == WakeOne(w[k])
  {
    seq(|w|, k requires 0 <= k < |w| => WakeOne(w[k]))
  }

  /** One step of the dispatcher inside start, go_and_wait or destroy. */
  function DispatcherStep(s: Pool): Option<Pool>
    requires |s.written| == s.rows
  {
    match s.d
    case Starting(i) =>
      if i < |s.w| then Some(SetWorker(s, i, if s.spin then Poll else Lock).(d := Starting(i + 1))) else Some(s.(d := Idle))
    case Idle => None
    case GoLock => if s.mutex.Free? then Some(s.(d := GoReset, mutex := Dispatcher)) else None
    case GoReset => Some(s.(d := GoGen, done := 1))
    case GoGen => Some(s.(d := if s.spin then Running(0) else GoBroadcast, gen := s.gen + 1))
    case GoBroadcast => Some(s.(d := GoUnlock, w := WakeAll(s.w)))
    case GoUnlock => Some(s.(d := Running(0), mutex := Free))
    case Running(r) =>
      if r < Beyond(s.rows, Threads(s), 0) then Some(s.(d := Running(r + 1), written := s.written[r := s.written[r] + 1]))
      else Some(s.(d := if s.spin then SpinWait else WaitLock))
    case WaitLock => if s.mutex.Free? then Some(s.(d := WaitCheck, mutex := Dispatcher)) else None
    case WaitCheck =>
      if s.done < Threads(s) then Some(s.(d := WaitAsleep, mutex := Free)) else Some(s.(d := WaitUnlock))
    case WaitAsleep => None
    case WaitWoken => if s.mutex.Free? then Some(s.(d := WaitCheck, mutex := Dispatcher)) else None
    case WaitUnlock => Some(s.(d := Idle, mutex := Free))
    case SpinWait => Some(if s.done < Threads(s) then s else s.(d := Idle))
    case StopLock => if s.mutex.Free? then Some(s.(d := StopSet, mutex := Dispatcher)) else None
    case StopSet => Some(s.(d := if s.spin then Join(0) else StopBroadcast, stop := true))
    case StopBroadcast => Some(s.(d := StopUnlock, w := WakeAll(s.w)))
    case StopUnlock => Some(s.(d := Join(0), mutex := Free))
    case Join(i) =>
      if i >= |s.w| then Some(s.(d := Finished))
      else if s.w[i].pc.Exited? then Some(s.(d := Join(i + 1)))
      else None
    case Finished => None
  }

  datatype Step =
    | WorkerMoves(k: nat)
    | DispatcherMoves
    | NewCall(rows: nat)         // an entry point rewrites the job record and calls go_and_wait
    | Destroy                    // q4pool_destroy is called
    | SpuriousWorkerWake(k: nat)
    | SpuriousDispatcherWake

  /** The state after a step, or None when the step is not possible. */
  function Apply(s: Pool, a: Step): Option<Pool>
    requires |s.written| == s.rows
  {
    match a
    case WorkerMoves(k) => if k < |s.w| then WorkerStep(s, k) else None
    case DispatcherMoves => DispatcherStep(s)
    case NewCall(rows) =>
      if s.d.Idle? then Some(s.(d := if s.spin then GoReset else GoLock, rows := rows, written := seq(rows, _ => 0))) else None
    case Destroy => if s.d.Idle? then Some(s.(d := if s.spin then StopSet else StopLock)) else None
    case SpuriousWorkerWake(k) => if k < |s.w| && s.w[k].pc.Asleep? then Some(SetWorker(s, k, Woken)) else None
    case SpuriousDispatcherWake => if s.d.WaitAsleep? then Some(s.(d := WaitWoken)) else None
  }

  /** The pool q4pool_init leaves, about to start `workers` workers. */
  function InitPool(spin: bool, workers: nat): Pool {
    Pool(spin, 0, 0, false, Free, seq(workers, _ => Worker(NotStarted, 0)), Starting(0), 0, [])
  }

  // ---- the invariant ----

  /** The current generation is published and go_and_wait has not returned. */
  predicate InCall(d: DispatcherPc) {
    d.GoBroadcast? || d.GoUnlock? || d.Running? || d.WaitLock? || d.WaitCheck? || d.WaitAsleep? || d.WaitWoken?
    || d.WaitUnlock? || d.SpinWait?
  }

  /** The job record is set up but its generation is not yet published. */
  predicate Preparing(d: DispatcherPc) {
    d.GoLock? || d.GoReset? || d.GoGen?
  }

  /** Not between taking a generation and counting itself done. */
  predicate Quiet(pc: WorkerPc) {
    !(pc.TakeUnlock? || pc.Run? || pc.DoneLock? || pc.Inc? || pc.SpinInc?)
  }

  predicate DoneWith(w: Worker, gen: nat) {
    w.last == gen && Quiet(w.pc)
  }

  predicate HoldsMutex(pc: WorkerPc) {
    pc.Check? || pc.TakeUnlock? || pc.Inc? || pc.Signal? || pc.DoneUnlock? || pc.ExitUnlock?
  }

  predicate DispatcherHolds(d: DispatcherPc) {
    d.GoReset? || d.GoGen? || d.GoBroadcast? || d.GoUnlock? || d.WaitCheck? || d.WaitUnlock?
    || d.StopSet? || d.StopBroadcast? || d.StopUnlock?
  }

  predicate ModeOk(spin: bool, pc: WorkerPc) {
    if spin then pc.NotStarted? || pc.Poll? || pc.PollStop? || pc.Run? || pc.SpinInc? || pc.Exited?
    else !(pc.Poll? || pc.PollStop? || pc.SpinInc?)
  }

  /** First row of worker k's range not yet computed, as far as its place in the loop says. */
  function WorkerProgress(s: Pool, k: nat): nat
    requires k < |s.w|
  {
    var me := s.w[k];
    if Preparing(s.d) || (InCall(s.d) && (me.last != s.gen || me.pc.TakeUnlock?)) then 0
    else if me.pc.Run? then me.pc.row
    else s.rows
  }

  function DispatcherProgress(s: Pool): nat {
    if Preparing(s.d) || s.d.GoBroadcast? || s.d.GoUnlock? then 0
    else if s.d.Running? then s.d.row
    else s.rows
  }

  /** The rows of thread t below `progress` are computed once, the others not yet. */
  ghost predicate RowsOk(written: seq<nat>, n: nat, t: nat, progress: nat)
    requires n > 0
  {
    forall r :: 0 <= r < |written| && InRangeOf(|written|, n, t, r) ==> written[r] == (if r < progress then 1 else 0)
  }

  predicate AwaitsSignal(d: DispatcherPc) {
    d.Running? || d.WaitLock? || d.WaitAsleep? || d.WaitWoken?
  }

  /** Places of the dispatcher that only the condition-variable variant has. */
  predicate CondvarOnly(d: DispatcherPc) {
    d.GoLock? || d.GoBroadcast? || d.GoUnlock? || d.WaitLock? || d.WaitCheck? || d.WaitAsleep? || d.WaitWoken?
    || d.WaitUnlock? || d.StopLock? || d.StopBroadcast? || d.StopUnlock?
  }

  ghost predicate WorkerOk(s: Pool, k: nat)
    requires k < |s.w| && |s.written| == s.rows
  {
    var me := s.w[k];
    && ModeOk(s.spin, me.pc)
    && (me.pc.NotStarted? <==> s.d.Starting? && s.d.next <= k)
    && (if InCall(s.d) then me.last == s.gen || (me.last + 1 == s.gen && Quiet(me.pc)) else DoneWith(me, s.gen))
    && (me.pc.Signal? ==> s.done == Threads(s) && me.last == s.gen && AwaitsSignal(s.d))
    && (me.pc.Asleep? ==> (me.last == s.gen && !s.stop) || s.d.GoBroadcast? || s.d.StopBroadcast?)
    && (s.d.GoBroadcast? ==> me.last + 1 == s.gen)
    && (me.pc.ExitUnlock? || me.pc.Exited? ==> s.stop)
    && (HoldsMutex(me.pc) <==> s.mutex == ByWorker(k))
    && (me.pc.Run? ==> me.pc.row >= First(s.rows, Threads(s), k + 1))
    && RowsOk(s.written, Threads(s), k + 1, WorkerProgress(s, k))
  }

  /** Workers finished with the current generation among the first k. */
  function FinishedCount(w: seq<Worker>, gen: nat): (c: nat)
    ensures c <= |w|
  {
    if w == [] then 0 else FinishedCount(w[..|w| - 1], gen) + (if DoneWith(w[|w| - 1], gen) then 1 else 0)
  }

  ghost predicate DispatcherOk(s: Pool)
    requires |s.written| == s.rows
  {
    && (s.stop <==> s.d.StopBroadcast? || s.d.StopUnlock? || s.d.Join? || s.d.Finished?)
    && (!s.spin ==> (DispatcherHolds(s.d) <==> s.mutex == Dispatcher))
    && (s.spin ==> s.mutex == Free)
    && (s.spin ==> !CondvarOnly(s.d))
    && (!s.spin ==> !s.d.SpinWait?)
    && (s.mutex.ByWorker? ==> s.mutex.i < |s.w|)
    && (s.d.Starting? ==> s.d.next <= |s.w| && s.gen == 0)
    && (s.d.Join? ==> forall k :: 0 <= k < s.d.next && k < |s.w| ==> s.w[k].pc.Exited?)
    && (s.d.Finished? ==> forall k :: 0 <= k < |s.w| ==> s.w[k].pc.Exited?)
    && (s.d.GoGen? ==> s.done == 1)
    && (InCall(s.d) ==> s.done == 1 + FinishedCount(s.w, s.gen))
    && (s.d.WaitUnlock? ==> s.done == Threads(s))
    && (s.d.WaitAsleep? && s.done == Threads(s) ==> s.mutex.ByWorker? && s.w[s.mutex.i].pc.Signal?)
    && RowsOk(s.written, Threads(s), 0, DispatcherProgress(s))
  }

  ghost predicate Inv(s: Pool) {
    |s.written| == s.rows && DispatcherOk(s) && forall k :: 0 <= k < |s.w| ==> WorkerOk(s, k)
  }

  /** States reached from a fresh pool in n steps. */
  ghost predicate ReachableIn(s: Pool, n: nat)
    decreases n
  {
    if n == 0 then exists spin, workers :: s == InitPool(spin, workers)
    else exists p: Pool, a: Step :: |p.written| == p.rows && Apply(p, a) == Some(s) && ReachableIn(p, n - 1)
  }
}
