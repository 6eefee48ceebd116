/**
 The push as a protocol: a checkpoint file, an outbox file and a log on disk, a server that
 ignores an ingest_id it has seen and overwrites a provenance row with the same columns, and a
 network that may deliver a request late, twice or never. A crash may come between any two
 steps. `cuts` records the checkpoints there have been.
 */
module Outbox {
  import opened Common
  import opened OutboxLog
  import opened OutboxOps

  datatype Outbox = Outbox(start: nat, end: nat, digest: Id, ops: seq<Op>)

  /** Where run_once stands; the outbox it carries is its copy in memory. */
  datatype Pc =
    | Idle
    | Writing(ob: Outbox)             // built, about to be written
    | Working(ob: Outbox, i: nat)     // about to look at operation i
    | Waiting(ob: Outbox, i: nat)     // operation i sent, no reply yet
    | Marked(ob: Outbox, i: nat)      // operation i done in memory, not yet on disk
    | Removing(ob: Outbox)            // checkpoint written, about to unlink the outbox

  /** The rows of one POST, or the one argument list of a call. */
  type Request = seq<Item>

  /** Provenance rows stand under their nine-column key. */
  datatype Server = Server(effects: seq<Item>, provenance: map<Row, Item>)

  /** `replied`: the server has answered the request the run is waiting for with success. */
  datatype State = State(log: Bytes, offset: nat, outbox: Option<Outbox>, pc: Pc,
                         sent: set<Request>, replied: bool, server: Server, cuts: seq<nat>)

  datatype Action =
    | Append(more: Bytes)
    | Start | WriteOutbox | Skip | Send | Ack | Fail | Save | WriteOffset | Unlink
    | Deliver(q: Request)
    | Crash

  function InitState(): State {
    State([], 0, None, Idle, {}, false, Server([], map[]), [0])
  }

  // ---- the server ----

  /** Events and increments are deduplicated by ingest_id, each in a table of its own. */
  predicate SameKey(x: Item, y: Item) {
    || (x.EventItem? && y.EventItem? && x.id == y.id)
    || (x.IncrementItem? && y.IncrementItem? && x.id == y.id)
  }

  predicate Claimed(effects: seq<Item>, x: Item) {
    exists i :: 0 <= i < |effects| && SameKey(effects[i], x)
  }

  /** A known ingest_id is ignored, a provenance row overwrites the one with its columns. */
  function ArriveRow(sv: Server, x: Item): Server {
    if x.ProvenanceItem? then sv.(provenance := sv.provenance[ConflictKey(x.row) := x])
    else if Claimed(sv.effects, x) then sv
    else sv.(effects := sv.effects + [x])
  }

  function ArriveRows(sv: Server, q: Request): Server {
    if q == [] then sv else ArriveRow(ArriveRows(sv, q[..|q| - 1]), q[|q| - 1])
  }

  predicate SameColumns(x: Item, y: Item) {
    x.ProvenanceItem? && y.ProvenanceItem? && ConflictKey(x.row) == ConflictKey(y.row)
  }

  /** Two provenance rows of one request have the same nine columns. */
  predicate Repeats(q: Request) {
    exists i, j :: 0 <= i < j < |q| && SameColumns(q[i], q[j])
  }

  /** The whole statement fails, and with it the request. */
  predicate Rejects(e: Env, q: Request) {
    e.strict && Repeats(q)
  }

  function Arrive(e: Env, sv: Server, q: Request): Server {
    if Rejects(e, q) then sv else ArriveRows(sv, q)
  }

  /** What a request leaves under a key: its last row with those columns. */
  function Writes(q: Request, key: Row): Option<Item> {
    if q == [] then None
    else
      var x := q[|q| - 1];
      if x.ProvenanceItem? && ConflictKey(x.row) == key then Some(x) else Writes(q[..|q| - 1], key)
  }

  // ---- one run ----

  function MarkDone(ob: Outbox, i: nat): Outbox
    requires i < |ob.ops|
  {
    ob.(ops := ob.ops[i := ob.ops[i].(done := true)])
  }

  function Opened(e: Env, s: State): Pc {
    match s.outbox
    case Some(ob) =>
      if ob.start != s.offset then Idle                       // "does not match committed checkpoint"
      else
        var hi := if ob.end <= |s.log| then ob.end else |s.log|;
        if s.offset > hi || e.hash(s.log[s.offset..hi]) != ob.digest then Idle
        else Working(ob, 0)
    case None =>
      match ReadSpec(e, s.log, s.offset)
      case Rows(lines, end, complete) =>
        if lines == [] then Idle else Writing(Outbox(s.offset, end, e.hash(complete), BuildOps(lines)))
      case _ => Idle
  }

  predicate Enabled(s: State, a: Action) {
    match a
    case Append(_) => true
    case Start => s.pc.Idle?
    case WriteOutbox => s.pc.Writing?
    case Skip => s.pc.Working? && s.pc.i < |s.pc.ob.ops| && s.pc.ob.ops[s.pc.i].done
    case Send => s.pc.Working? && s.pc.i < |s.pc.ob.ops| && !s.pc.ob.ops[s.pc.i].done
    case Ack => s.pc.Waiting? && s.pc.i < |s.pc.ob.ops| && s.replied
    case Fail => s.pc.Waiting?
    case Save => s.pc.Marked?
    case WriteOffset => s.pc.Working? && s.pc.i == |s.pc.ob.ops|
    case Unlink => s.pc.Removing?
    case Deliver(q) => q in s.sent
    case Crash => true
  }

  /** The request the run is waiting for. */
  predicate Awaits(pc: Pc, q: Request) {
    pc.Waiting? && pc.i < |pc.ob.ops| && q == pc.ob.ops[pc.i].items
  }

  function Next(e: Env, s: State, a: Action): State
    requires Enabled(s, a)
  {
    match a
    case Append(more) => s.(log := s.log + more)
    case Start => s.(pc := Opened(e, s))
    case WriteOutbox => s.(outbox := Some(s.pc.ob), pc := Working(s.pc.ob, 0))
    case Skip => s.(pc := Working(s.pc.ob, s.pc.i + 1))
    case Send => s.(sent := s.sent + {s.pc.ob.ops[s.pc.i].items}, replied := false, pc := Waiting(s.pc.ob, s.pc.i))
    case Ack => s.(pc := Marked(MarkDone(s.pc.ob, s.pc.i), s.pc.i))
    case Fail => s.(pc := Idle)
    case Save => s.(outbox := Some(s.pc.ob), pc := Working(s.pc.ob, s.pc.i + 1))
    case WriteOffset => s.(offset := s.pc.ob.end, pc := Removing(s.pc.ob), cuts := s.cuts + [s.pc.ob.end])
    case Unlink => s.(outbox := None, pc := Idle)
    case Deliver(q) => s.(server := Arrive(e, s.server, q), replied := s.replied || (Awaits(s.pc, q) && !Rejects(e, q)))
    case Crash => s.(pc := Idle)
  }

  ghost predicate ReachableIn(e: Env, s: State, n: nat)
    decreases n
  {
    if n == 0 then s == InitState()
    else exists p: State, a: Action :: ReachableIn(e, p, n - 1) && Enabled(p, a) && s == Next(e, p, a)
  }

  /** A list of actions that the states enable in turn. */
  ghost predicate RunsTo(e: Env, s: State, acts: seq<Action>, t: State)
    decreases |acts|
  {
    if acts == [] then s == t
    else Enabled(s, acts[0]) && RunsTo(e, Next(e, s, acts[0]), acts[1..], t)
  }

  // ---- batches ----

  /** A batch that could be cut: boundaries at newlines, and every record parses. */
  predicate GoodBatch(e: Env, log: Bytes, lo: nat, hi: nat) {
    lo < hi && Boundary(log, lo) && Boundary(log, hi) && AllParse(e, Records(log, lo, hi))
  }

  predicate InBatch(e: Env, log: Bytes, lo: nat, hi: nat, x: Item)
    requires GoodBatch(e, log, lo, hi)
  {
    AskedFor(LinesOf(e, Records(log, lo, hi)), x)
  }

  predicate Includes(ops: seq<Op>, q: Request) {
    exists i :: 0 <= i < |ops| && ops[i].items == q
  }

  /** The batch's operations include the request q. */
  predicate PlannedIn(e: Env, log: Bytes, lo: nat, hi: nat, q: Request)
    requires GoodBatch(e, log, lo, hi)
  {
    Includes(BuildOps(LinesOf(e, Records(log, lo, hi))), q)
  }

  predicate BatchAt(e: Env, log: Bytes, bounds: seq<nat>, j: nat)
    requires j + 1 < |bounds|
  {
    GoodBatch(e, log, bounds[j], bounds[j + 1])
  }

  /** Batches laid end to end from the start of the log. */
  ghost predicate GoodBounds(e: Env, log: Bytes, bounds: seq<nat>) {
    && |bounds| > 0 && bounds[0] == 0
    && (forall j :: 0 <= j < |bounds| - 1 ==> BatchAt(e, log, bounds, j))
  }

  predicate InBatchAt(e: Env, log: Bytes, bounds: seq<nat>, j: nat, x: Item)
    requires j + 1 < |bounds|
  {
    BatchAt(e, log, bounds, j) && InBatch(e, log, bounds[j], bounds[j + 1], x)
  }

  /** Some batch asks for x. */
  ghost predicate Asked(e: Env, log: Bytes, bounds: seq<nat>, x: Item) {
    exists j :: 0 <= j < |bounds| - 1 && InBatchAt(e, log, bounds, j, x)
  }

  predicate PlannedAt(e: Env, log: Bytes, bounds: seq<nat>, j: nat, q: Request)
    requires j + 1 < |bounds|
  {
    BatchAt(e, log, bounds, j) && PlannedIn(e, log, bounds[j], bounds[j + 1], q)
  }

  /** Some batch's operations include the request. */
  ghost predicate Planned(e: Env, log: Bytes, bounds: seq<nat>, q: Request) {
    exists j :: 0 <= j < |bounds| - 1 && PlannedAt(e, log, bounds, j, q)
  }

  // ---- the invariant ----

  /** The batches cut so far: the committed ones and, while it is not committed, that of the outbox. */
  function Bounds(cuts: seq<nat>, offset: nat, outbox: Option<Outbox>): seq<nat> {
    if outbox.Some? && outbox.value.start == offset then cuts + [outbox.value.end] else cuts
  }

  predicate SameWork(ops: seq<Op>, planned: seq<Op>) {
    |ops| == |planned| && forall i :: 0 <= i < |ops| ==> ops[i].(done := false) == planned[i]
  }

  predicate GoodOutbox(e: Env, log: Bytes, ob: Outbox) {
    && GoodBatch(e, log, ob.start, ob.end)
    && ob.digest == e.hash(log[ob.start..ob.end])
    && SameWork(ob.ops, BuildOps(LinesOf(e, Records(log, ob.start, ob.end))))
  }

  /** The effect is there; of a provenance row, some row under its key. */
  predicate Landed(sv: Server, x: Item) {
    if x.ProvenanceItem? then ConflictKey(x.row) in sv.provenance else x in sv.effects
  }

  /** The request was sent, was not refused, and everything in it has landed. */
  predicate Settled(e: Env, sv: Server, sent: set<Request>, q: Request) {
    q in sent && !Rejects(e, q) && forall x :: x in q ==> Landed(sv, x)
  }

  predicate DoneSettled(e: Env, sv: Server, sent: set<Request>, ob: Outbox) {
    forall i :: 0 <= i < |ob.ops| && ob.ops[i].done ==> Settled(e, sv, sent, ob.ops[i].items)
  }

  predicate DoneUpTo(ob: Outbox, i: nat) {
    i <= |ob.ops| && forall k :: 0 <= k < i ==> ob.ops[k].done
  }

  /** The outbox on disk, before or after its checkpoint was written. */
  predicate FileOk(e: Env, log: Bytes, offset: nat, sv: Server, sent: set<Request>, outbox: Option<Outbox>) {
    outbox.Some? ==>
      var ob := outbox.value;
      && GoodOutbox(e, log, ob) && DoneSettled(e, sv, sent, ob)
      && (ob.start == offset || (ob.end == offset && DoneUpTo(ob, |ob.ops|)))
  }

  predicate PcOk(e: Env, log: Bytes, offset: nat, sv: Server, sent: set<Request>, replied: bool, outbox: Option<Outbox>, pc: Pc) {
    match pc
    case Idle => true
    case Writing(ob) => outbox.None? && ob.start == offset && GoodOutbox(e, log, ob) && DoneSettled(e, sv, sent, ob)
    case Working(ob, i) => outbox == Some(ob) && ob.start == offset && DoneUpTo(ob, i)
    case Waiting(ob, i) =>
      && outbox == Some(ob) && ob.start == offset && i < |ob.ops| && DoneUpTo(ob, i) && ob.ops[i].items in sent
      && (replied ==> Settled(e, sv, sent, ob.ops[i].items))
    case Marked(ob, i) =>
      && outbox.Some? && outbox.value.start == offset && i < |outbox.value.ops|
      && ob == MarkDone(outbox.value, i) && DoneUpTo(ob, i + 1) && Settled(e, sv, sent, ob.ops[i].items)
    case Removing(ob) => outbox == Some(ob) && ob.end == offset
  }

  /** x was in some request. */
  ghost predicate Sent(sent: set<Request>, x: Item) {
    exists q :: q in sent && x in q
  }

  /** The row under a key is what some request sent left there. */
  ghost predicate Written(e: Env, sent: set<Request>, key: Row, x: Item) {
    exists q :: q in sent && !Rejects(e, q) && Writes(q, key) == Some(x)
  }

  /** Effects carry distinct keys and were sent. */
  ghost predicate EffectsOk(effects: seq<Item>, sent: set<Request>) {
    && (forall i :: 0 <= i < |effects| ==> Sent(sent, effects[i]) && !effects[i].ProvenanceItem?)
    && (forall i, j :: 0 <= i < j < |effects| ==> !SameKey(effects[i], effects[j]))
  }

  ghost predicate ServerOk(e: Env, sv: Server, sent: set<Request>) {
    && EffectsOk(sv.effects, sent)
    && (forall key :: key in sv.provenance ==> Written(e, sent, key, sv.provenance[key]))
  }

  ghost predicate SentOk(e: Env, log: Bytes, bounds: seq<nat>, sent: set<Request>) {
    forall q :: q in sent ==> Planned(e, log, bounds, q)
  }

  ghost predicate CommittedSettled(e: Env, log: Bytes, cuts: seq<nat>, sv: Server, sent: set<Request>) {
    forall q :: Planned(e, log, cuts, q) ==> Settled(e, sv, sent, q)
  }

  ghost predicate Inv(e: Env, s: State) {
    && GoodBounds(e, s.log, s.cuts) && s.cuts[|s.cuts| - 1] == s.offset
    && FileOk(e, s.log, s.offset, s.server, s.sent, s.outbox)
    && PcOk(e, s.log, s.offset, s.server, s.sent, s.replied, s.outbox, s.pc)
    && ServerOk(e, s.server, s.sent)
    && SentOk(e, s.log, Bounds(s.cuts, s.offset, s.outbox), s.sent)
    && CommittedSettled(e, s.log, s.cuts, s.server, s.sent)
  }
}
