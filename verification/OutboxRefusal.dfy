/** A run that ends in the window between the checkpoint write and the unlink, and what follows from it. */
module OutboxRefusal {
  import opened Common
  import opened OutboxLog
  import opened OutboxOps
  import opened Outbox
  import opened OutboxProof
  import opened OutboxSafety
  import opened OutboxProgress
  import opened OutboxLines

  /** What a run makes of the first line of an empty log, when it is an event. */
  lemma {:induction false} FirstOutbox(e: Env, raw: Bytes, s: State) returns (x: Item)
    requires PlainLine(raw) && e.parse(raw).Some? && e.parse(raw).value.EventRow?
    requires s == InitState().(log := raw + [LF])
    ensures !x.ProvenanceItem?
    ensures Opened(e, s) == Writing(Outbox(0, |s.log|, e.hash(s.log), [Op(Events, [x], false)]))
  {
    hide Records, LastCut, Seed;
    assert s.log[0..] == raw + [LF];
    LineRecord(s.log, 0, raw);
    var r := Record(0, raw);
    x := EventItem(IdOf(e, r), e.parse(raw).value);
    var lines := LinesOf(e, [r]);
    assert lines == [Line(IdOf(e, r), e.parse(raw).value)];
    assert s.log[0..|s.log|] == s.log;
    assert AllParse(e, [r]);
    OneEvent(lines, x);
  }

  lemma {:induction false} OneEvent(lines: seq<Line>, x: Item)
    requires |lines| == 1 && lines[0].row.EventRow? && x == EventItem(lines[0].id, lines[0].row)
    ensures BuildOps(lines) == [Op(Events, [x], false)]
  {
    assert Collected(Events, lines, 1) == Collected(Events, lines, 0) + EventOf(lines, 0) == [x];
    assert Collected(Increment, lines, 1) == Collected(Increment, lines, 0) + IncrementOf(lines, 0) == [];
    assert Collected(Provenance, lines, 1) == Collected(Provenance, lines, 0) + ProvenanceOf(lines, 0) == [];
    assert Chunks(Events, [x]) == [Op(Events, [x], false)];
  }

  /** A run with one event, up to its delivery. */
  lemma {:induction false} SendOne(e: Env, s: State, n: nat, ob: Outbox, x: Item) returns (t: State)
    requires ReachableIn(e, s, n) && s.pc == Writing(ob) && ob.ops == [Op(Events, [x], false)]
    ensures ReachableIn(e, t, n + 3)
    ensures t.pc == Waiting(ob, 0) && t.outbox == Some(ob) && t.offset == s.offset && t.replied
  {
    hide ReachableIn, Opened, Arrive, Rejects;
    var q := [x];
    var s1 := Next(e, s, WriteOutbox);
    StepReaches(e, s, n, WriteOutbox);
    var s2 := Next(e, s1, Send);
    StepReaches(e, s1, n + 1, Send);
    ShortIsKept(e, q);
    t := Next(e, s2, Deliver(q));
    StepReaches(e, s2, n + 2, Deliver(q));
  }

  /** From its acknowledgement to a crash just after the checkpoint write. */
  lemma {:induction false} CrashInTheWindow(e: Env, s: State, n: nat, ob: Outbox, x: Item) returns (t: State)
    requires ReachableIn(e, s, n) && ob.ops == [Op(Events, [x], false)] && ob.start == s.offset < ob.end
    requires s.pc == Waiting(ob, 0) && s.outbox == Some(ob) && s.replied
    ensures ReachableIn(e, t, n + 4) && Refuses(t) && t.pc.Idle?
  {
    hide ReachableIn, Opened, Arrive, Rejects;
    var s1 := Next(e, s, Ack);
    StepReaches(e, s, n, Ack);
    var s2 := Next(e, s1, Save);
    StepReaches(e, s1, n + 1, Save);
    var s3 := Next(e, s2, WriteOffset);
    StepReaches(e, s2, n + 2, WriteOffset);
    t := Next(e, s3, Crash);
    StepReaches(e, s3, n + 3, Crash);
  }

  /** A first run that finds one event in the log. */
  lemma {:induction false} StartOne(e: Env, raw: Bytes) returns (s: State, ob: Outbox, x: Item)
    requires PlainLine(raw) && e.parse(raw).Some? && e.parse(raw).value.EventRow?
    ensures ReachableIn(e, s, 2) && s.pc == Writing(ob) && ob.ops == [Op(Events, [x], false)] && !x.ProvenanceItem?
    ensures ob.start == s.offset < ob.end
  {
    hide Opened, PlainLine, Arrive, BuildOps, Records, LastCut;
    var s0 := InitState();
    assert ReachableIn(e, s0, 0);
    hide ReachableIn;
    var s1 := Next(e, s0, Append(raw + [LF]));
    StepReaches(e, s0, 0, Append(raw + [LF]));
    assert s1 == s0.(log := raw + [LF]) by { assert [] + (raw + [LF]) == raw + [LF]; }
    x := FirstOutbox(e, raw, s1);
    s := Next(e, s1, Start);
    StepReaches(e, s1, 1, Start);
    ob := s.pc.ob;
  }

  /** Whenever some line parses to an event, a reachable state refuses every later run. */
  lemma {:induction false} RefusalIsReachable(e: Env, raw: Bytes) returns (s: State)
    requires PlainLine(raw) && e.parse(raw).Some? && e.parse(raw).value.EventRow?
    ensures ReachableIn(e, s, 9) && Refuses(s) && s.pc.Idle?
  {
    hide *;
    var s2, ob, x := StartOne(e, raw);
    var s5 := SendOne(e, s2, 2, ob, x);
    s := CrashInTheWindow(e, s5, 5, ob, x);
  }

  /** However many runs follow, with whatever log growth and deliveries: nothing is sent and nothing is committed. */
  lemma {:induction false} RefusalNeverEnds(e: Env, s: State, acts: seq<Action>, t: State)
    requires Refuses(s) && s.pc.Idle? && RunsTo(e, s, acts, t)
    ensures Refuses(t) && t.pc.Idle? && t.offset == s.offset && t.sent == s.sent && t.outbox == s.outbox
    decreases |acts|
  {
    if acts != [] {
      RefusalIsForever(e, s, acts[0]);
      RefusalNeverEnds(e, Next(e, s, acts[0]), acts[1..], t);
    }
  }

  /** Such a hash, parser and line exist. */
  lemma {:induction false} SomeRunIsStuck() returns (e: Env, s: State)
    ensures InjectiveHash(e) && ReachableIn(e, s, 9) && Refuses(s) && s.pc.Idle?
  {
    var raw: Bytes := [123, 125];
    assert !Space(raw[0]);
    e := InjectiveHashExists([], (b: Bytes) => Some(EventRow(Key("m", "c", 0, 0), None, [])), true);
    s := RefusalIsReachable(e, raw);
  }
}
