/** Logs of one and of two plain lines, the operations they lead to, and a run that pushes one line. */
module OutboxLines {
  import opened Common
  import opened OutboxLog
  import opened OutboxOps
  import opened Outbox
  import opened OutboxProof
  import opened OutboxProgress

  /** One non-blank line without its terminator. */
  predicate PlainLine(raw: Bytes) {
    !Blank(raw) && forall k :: 0 <= k < |raw| ==> raw[k] != LF && raw[k] != CR
  }

  lemma {:induction false} PlainLineEnd(log: Bytes, lo: nat, raw: Bytes, i: nat)
    requires PlainLine(raw) && lo <= |log| && log[lo..] == raw + [LF] && i <= |raw|
    ensures LineEnd(log, lo + i, |log|) == |log|
    decreases |raw| - i
  {
    assert log[lo + i] == log[lo..][i];
    if i < |raw| {
      PlainLineEnd(log, lo, raw, i + 1);
    }
  }

  /** A log that ends in one more line has one more record. */
  lemma {:induction false} LineRecord(log: Bytes, lo: nat, raw: Bytes)
    requires PlainLine(raw) && lo <= |log| && log[lo..] == raw + [LF]
    ensures LastCut(log, lo, |log|) == |log| == lo + |raw| + 1 && Records(log, lo, |log|) == [Record(lo, raw)]
  {
    PlainLineEnd(log, lo, raw, 0);
    var line := log[lo..|log|];
    assert line == raw + [LF] && line[..|line| - 1] == raw && |raw| > 0;
    assert log[|log| - 1] == line[|line| - 1];
    assert WithoutNewlines(raw) == raw && WithoutNewlines(line) == raw;
    NoRecordsAt(log, |log|);
  }

  lemma {:induction false} ShortOps(kind: Kind, items: seq<Item>)
    requires |items| <= 1
    ensures forall i :: 0 <= i < |Chunks(kind, items)| ==> |Chunks(kind, items)[i].items| <= 1
    ensures forall i :: 0 <= i < |Singles(items)| ==> |Singles(items)[i].items| <= 1
  {
  }

  /** No request of a one-record batch is refused. */
  lemma {:induction false} OneLineClear(e: Env, lines: seq<Line>)
    requires |lines| == 1
    ensures Clear(e, BuildOps(lines))
  {
    hide ItemsOf, Chunks, Singles, Rejects;
    forall kind: Kind ensures |Collected(kind, lines, 1)| <= 1 {
      assert Collected(kind, lines, 1) == Collected(kind, lines, 0) + ItemsOf(kind, lines, 0);
      OneItem(kind, lines, 0);
    }
    ShortOps(Events, Collected(Events, lines, 1));
    ShortOps(Increment, Collected(Increment, lines, 1));
    ShortOps(Provenance, Collected(Provenance, lines, 1));
    forall i | 0 <= i < |BuildOps(lines)| ensures !Rejects(e, BuildOps(lines)[i].items) {
      ShortIsKept(e, BuildOps(lines)[i].items);
    }
  }

  lemma {:induction false} OneItem(kind: Kind, lines: seq<Line>, k: nat)
    requires k < |lines|
    ensures |ItemsOf(kind, lines, k)| <= 1
  {
    hide TheEvent, MarginOf;
  }

  lemma {:induction false} ShortIsKept(e: Env, q: Request)
    requires |q| <= 1
    ensures !Rejects(e, q)
  {
  }

  /** What a start finds when one line was appended to a fully committed log. */
  lemma {:induction false} OpensLine(e: Env, s: State, lo: nat, raw: Bytes)
    requires PlainLine(raw) && e.parse(raw).Some? && s.outbox.None? && s.offset == lo <= |s.log| && s.log[lo..] == raw + [LF]
    ensures Opened(e, s).Writing? && Opened(e, s).ob.end == |s.log| && Clear(e, Opened(e, s).ob.ops)
    ensures Opened(e, s).ob.start == lo
  {
    hide Records, LastCut, Seed, BuildOps, Clear;
    LineRecord(s.log, lo, raw);
    var recs := [Record(lo, raw)];
    assert AllParse(e, recs);
    assert |LinesOf(e, recs)| == 1;
    OneLineClear(e, LinesOf(e, recs));
  }

  /** All of the log is committed and no run is under way. */
  predicate AtRest(s: State) {
    s.pc.Idle? && s.outbox.None? && s.offset == |s.log|
  }

  /** One more line, pushed to the end. */
  lemma {:induction false} PushLine(e: Env, s: State, n: nat, raw: Bytes) returns (t: State, m: nat)
    requires InjectiveHash(e) && ReachableIn(e, s, n) && AtRest(s) && PlainLine(raw) && e.parse(raw).Some?
    ensures ReachableIn(e, t, m) && AtRest(t) && t.log == s.log + (raw + [LF])
    ensures Record(|s.log|, raw) in Records(t.log, 0, |t.log|)
    ensures forall r :: r in Records(s.log, 0, |s.log|) ==> r in Records(t.log, 0, |t.log|)
  {
    hide Inv, InjectiveHash, ReachableIn, Opened, PlainLine, Records, LastCut, Clear;
    ReachableInv(e, s, n);
    OffsetBoundary(e, s);
    var s1 := Next(e, s, Append(raw + [LF]));
    StepReaches(e, s, n, Append(raw + [LF]));
    assert s1.log[|s.log|..] == raw + [LF];
    OpensLine(e, s1, |s.log|, raw);
    var s2 := Next(e, s1, Start);
    StepReaches(e, s1, n + 1, Start);
    ReachableInv(e, s2, n + 2);
    var acts;
    acts, t := Drive(e, s2, |s1.log|);
    m := n + 2 + |acts|;
    RunReaches(e, s2, n + 2, acts, t);
    LineAdds(s.log, raw);
  }

  lemma {:induction false} LineAdds(log: Bytes, raw: Bytes)
    requires PlainLine(raw) && Boundary(log, |log|)
    ensures var more := log + (raw + [LF]);
            Records(more, 0, |more|) == Records(log, 0, |log|) + [Record(|log|, raw)]
  {
    hide Records, LastCut, PlainLine;
    var more := log + (raw + [LF]);
    RecordsStable(log, raw + [LF], 0, |log|);
    CutsDoNotMatter(more, 0, |log|, |more|);
    assert more[|log|..] == raw + [LF];
    LineRecord(more, |log|, raw);
  }

  // ---- the same attribution twice ----

  lemma {:induction false} TwoLines(lines: seq<Line>)
    requires |lines| == 2 && lines[0].row == lines[1].row && Traced(lines[0].row)
    ensures exists x: Item :: Includes(BuildOps(lines), [x, x]) && x.ProvenanceItem?
  {
    hide TheEvent, MarginOf;
    var x := ProvenanceOf(lines, 0)[0];
    assert ProvenanceOf(lines, 1) == [x];
    var items := Collected(Provenance, lines, 2);
    assert items == Collected(Provenance, lines, 1) + [x];
    assert Collected(Provenance, lines, 1) == Collected(Provenance, lines, 0) + [x];
    assert items == [x, x];
    assert Chunks(Provenance, items) == [Op(Provenance, items, false)];
    var ops := BuildOps(lines);
    assert ops[|ops| - 1].items == [x, x];
  }

  /** A line that parses to a traced attribution, logged twice, blocks the outbox of the run that finds both. */
  lemma {:induction false} TwoCopiesBlock(e: Env, raw: Bytes) returns (s: State)
    requires e.strict && PlainLine(raw) && e.parse(raw).Some? && Traced(e.parse(raw).value)
    ensures ReachableIn(e, s, 3) && Blocked(e, s)
  {
    hide Records, LastCut, PlainLine, Traced, Seed;
    var line := raw + [LF];
    var s0 := InitState();
    assert ReachableIn(e, s0, 0);
    hide ReachableIn;
    var s1 := Next(e, s0, Append(line + line));
    StepReaches(e, s0, 0, Append(line + line));
    assert s1.log == line + line;
    OpensTwo(e, s1, raw);
    hide Opened, Blocked, BuildOps, Clear;
    var s2 := Next(e, s1, Start);
    StepReaches(e, s1, 1, Start);
    s := Next(e, s2, WriteOutbox);
    StepReaches(e, s2, 2, WriteOutbox);
    assert Blocked(e, s) by { BlockedIs(e, s); }
  }

  lemma {:induction false} BlockedIs(e: Env, s: State)
    requires s.outbox.Some? && s.outbox.value.start == s.offset && !Clear(e, s.outbox.value.ops)
    ensures Blocked(e, s)
  {
  }

  lemma {:induction false} OpensTwo(e: Env, s: State, raw: Bytes)
    requires e.strict && PlainLine(raw) && e.parse(raw).Some? && Traced(e.parse(raw).value)
    requires s.log == (raw + [LF]) + (raw + [LF]) && s.offset == 0 && s.outbox.None?
    ensures Opened(e, s).Writing? && Opened(e, s).ob.start == 0 && !Clear(e, Opened(e, s).ob.ops)
  {
    hide Records, LastCut, PlainLine, Traced, Seed, BuildOps;
    var line := raw + [LF];
    TwoRecords(raw);
    var recs := [Record(0, raw), Record(|line|, raw)];
    assert AllParse(e, recs);
    var lines := LinesOf(e, recs);
    TwoLines(lines);
    var ops := BuildOps(lines);
    var x: Item :| Includes(ops, [x, x]) && x.ProvenanceItem?;
    var i :| 0 <= i < |ops| && ops[i].items == [x, x];
    assert SameColumns(ops[i].items[0], ops[i].items[1]);
    assert Rejects(e, ops[i].items);
  }

  lemma {:induction false} TwoRecords(raw: Bytes)
    requires PlainLine(raw)
    ensures var line := raw + [LF];
            var log := line + line;
            LastCut(log, 0, |log|) == |log| && Records(log, 0, |log|) == [Record(0, raw), Record(|line|, raw)]
  {
    hide Records, PlainLine;
    var line := raw + [LF];
    assert line[0..] == line;
    LineRecord(line, 0, raw);
    LineAdds(line, raw);
  }
}
