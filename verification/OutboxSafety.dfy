/** What the protocol promises in every reachable state, record by record. */
module OutboxSafety {
  import opened Common
  import opened OutboxLog
  import opened OutboxOps
  import opened Outbox
  import opened OutboxProof

  /** x carries the ingest_id of record r. */
  predicate HasKeyOf(e: Env, x: Item, r: Record) {
    !x.ProvenanceItem? && x.id == IdOf(e, r)
  }

  /** x is what record r is to do on the server. */
  predicate IsEffectOf(e: Env, x: Item, r: Record) {
    && HasKeyOf(e, x, r) && e.parse(r.raw).Some?
    && match e.parse(r.raw).value
       case EventRow(_, _, _) => x.EventItem? && x.row == e.parse(r.raw).value
       case AttributionRow(_, target, _, _, _, _) => x.IncrementItem? && x.target == target
       case OtherRow => false
  }

  predicate ContributesAs(e: Env, recs: seq<Record>, r: Record, x: Item)
    requires AllParse(e, recs)
  {
    exists k: nat :: k < |recs| && recs[k] == r && Contributes(LinesOf(e, recs), k, x)
  }

  predicate ContributedAt(e: Env, log: Bytes, bounds: seq<nat>, j: nat, r: Record, x: Item)
    requires j + 1 < |bounds|
  {
    BatchAt(e, log, bounds, j) && ContributesAs(e, Records(log, bounds[j], bounds[j + 1]), r, x)
  }

  /** x is exactly what r contributes to the batch that r is in: an attribution's margin is that of its event in this batch. */
  ghost predicate Contributed(e: Env, log: Bytes, bounds: seq<nat>, r: Record, x: Item) {
    exists j :: 0 <= j < |bounds| - 1 && ContributedAt(e, log, bounds, j, r, x)
  }

  /** Everything before the checkpoint, or before the end of an outbox that is not committed yet. */
  function Frontier(s: State): nat {
    if s.outbox.Some? && s.outbox.value.start == s.offset then s.outbox.value.end else s.offset
  }

  // ---- records and batches ----

  lemma {:induction false} RecordInABatch(e: Env, log: Bytes, bounds: seq<nat>, m: nat, r: Record)
    requires GoodBounds(e, log, bounds) && m < |bounds| && bounds[m] <= |log|
    requires r in Records(log, 0, bounds[m])
    ensures exists j :: 0 <= j < m && j < |bounds| - 1 && BatchAt(e, log, bounds, j)
                        && r in Records(log, bounds[j], bounds[j + 1])
    decreases m
  {
    hide Records, AllParse;
    if m == 0 {
      NoRecords(e, log, 0);
    } else {
      assert BatchAt(e, log, bounds, m - 1);
      var mid, hi := bounds[m - 1], bounds[m];
      CutsDoNotMatter(log, 0, mid, hi);
      if r in Records(log, 0, mid) {
        RecordInABatch(e, log, bounds, m - 1, r);
      }
    }
  }

  lemma {:induction false} BatchInTheLog(e: Env, log: Bytes, bounds: seq<nat>, j: nat, m: nat, r: Record)
    requires GoodBounds(e, log, bounds) && j < m < |bounds| && bounds[m] <= |log|
    requires BatchAt(e, log, bounds, j) && r in Records(log, bounds[j], bounds[j + 1])
    ensures r in Records(log, 0, bounds[m])
    decreases m
  {
    hide Records, AllParse;
    assert BatchAt(e, log, bounds, m - 1);
    CutsDoNotMatter(log, 0, bounds[m - 1], bounds[m]);
    if j < m - 1 {
      BatchInTheLog(e, log, bounds, j, m - 1, r);
    }
  }

  lemma {:induction false} ContributionIsEffect(e: Env, recs: seq<Record>, k: nat, x: Item)
    requires AllParse(e, recs) && k < |recs| && !x.ProvenanceItem?
    requires Contributes(LinesOf(e, recs), k, x)
    ensures IsEffectOf(e, x, recs[k])
  {
    hide TheEvent, MarginOf, Seed;
  }

  lemma {:induction false} ContributedIsEffect(e: Env, log: Bytes, bounds: seq<nat>, r: Record, x: Item)
    requires Contributed(e, log, bounds, r, x) && !x.ProvenanceItem?
    ensures IsEffectOf(e, x, r)
  {
    hide Records, IsEffectOf, Contributes, AllParse;
    var j :| 0 <= j < |bounds| - 1 && ContributedAt(e, log, bounds, j, r, x);
    var recs := Records(log, bounds[j], bounds[j + 1]);
    var k: nat :| k < |recs| && recs[k] == r && Contributes(LinesOf(e, recs), k, x);
    ContributionIsEffect(e, recs, k, x);
  }

  /** A provenance row contributed by r is that of a traced record with r's columns. */
  lemma {:induction false} ContributedIsTraced(e: Env, log: Bytes, bounds: seq<nat>, r: Record, x: Item)
    requires Contributed(e, log, bounds, r, x) && x.ProvenanceItem?
    ensures e.parse(r.raw) == Some(x.row) && Traced(x.row)
  {
    hide Records, TheEvent, MarginOf, Seed;
    var j :| 0 <= j < |bounds| - 1 && ContributedAt(e, log, bounds, j, r, x);
    var recs := Records(log, bounds[j], bounds[j + 1]);
    var k: nat :| k < |recs| && recs[k] == r && Contributes(LinesOf(e, recs), k, x);
  }

  /** A record has one provenance row: no other batch contains it. */
  lemma {:induction false} OneOwnRow(e: Env, log: Bytes, bounds: seq<nat>, r: Record, x: Item, y: Item)
    requires GoodBounds(e, log, bounds) && Contributed(e, log, bounds, r, x) && Contributed(e, log, bounds, r, y)
    requires x.ProvenanceItem? && y.ProvenanceItem?
    ensures x == y
  {
    hide Records, Contributes, AllParse, GoodBounds;
    var i :| 0 <= i < |bounds| - 1 && ContributedAt(e, log, bounds, i, r, x);
    var j :| 0 <= j < |bounds| - 1 && ContributedAt(e, log, bounds, j, r, y);
    var a, b := Records(log, bounds[i], bounds[i + 1]), Records(log, bounds[j], bounds[j + 1]);
    var k: nat :| k < |a| && a[k] == r && Contributes(LinesOf(e, a), k, x);
    var m: nat :| m < |b| && b[m] == r && Contributes(LinesOf(e, b), m, y);
    OnePlace(e, log, bounds, i, k, j, m);
    OneProvenanceItem(LinesOf(e, a), k, x, y);
  }

  lemma {:induction false} OneProvenanceItem(lines: seq<Line>, k: nat, x: Item, y: Item)
    requires k < |lines| && Contributes(lines, k, x) && Contributes(lines, k, y) && x.ProvenanceItem? && y.ProvenanceItem?
    ensures x == y
  {
    hide TheEvent, EventsWith, MarginOf;
  }

  /** The item a record asks for. */
  lemma {:induction false} RecordAsks(e: Env, recs: seq<Record>, k: nat) returns (x: Item)
    requires AllParse(e, recs) && k < |recs| && !e.parse(recs[k].raw).value.OtherRow?
    ensures Contributes(LinesOf(e, recs), k, x) && !x.ProvenanceItem?
  {
    hide TheEvent, MarginOf, Seed;
    var lines := LinesOf(e, recs);
    x := if lines[k].row.EventRow? then EventOf(lines, k)[0] else IncrementOf(lines, k)[0];
  }

  /** ... and its provenance row when it is traced. */
  lemma {:induction false} TracedAsks(e: Env, recs: seq<Record>, k: nat) returns (x: Item)
    requires AllParse(e, recs) && k < |recs| && Traced(e.parse(recs[k].raw).value)
    ensures Contributes(LinesOf(e, recs), k, x) && x.ProvenanceItem? && x.row == e.parse(recs[k].raw).value
  {
    hide TheEvent, MarginOf, Seed;
    x := ProvenanceOf(LinesOf(e, recs), k)[0];
  }

  /** What is asked for is contributed by a record of the log. */
  lemma {:induction false} AskedRecord(e: Env, log: Bytes, bounds: seq<nat>, x: Item) returns (r: Record)
    requires GoodBounds(e, log, bounds) && Asked(e, log, bounds, x)
    ensures |bounds| > 0 && bounds[|bounds| - 1] <= |log| && r in Records(log, 0, bounds[|bounds| - 1])
    ensures Contributed(e, log, bounds, r, x)
  {
    hide Records, Contributes, AllParse, GoodBounds;
    BatchesReach(e, log, bounds);
    var j :| 0 <= j < |bounds| - 1 && InBatchAt(e, log, bounds, j, x);
    var recs := Records(log, bounds[j], bounds[j + 1]);
    var k :| 0 <= k < |LinesOf(e, recs)| && Contributes(LinesOf(e, recs), k, x);
    r := recs[k];
    assert ContributedAt(e, log, bounds, j, r, x);
    BatchInTheLog(e, log, bounds, j, |bounds| - 1, r);
  }

  lemma {:induction false} BatchesReach(e: Env, log: Bytes, bounds: seq<nat>)
    requires GoodBounds(e, log, bounds)
    ensures |bounds| > 0 && bounds[|bounds| - 1] <= |log|
  {
    BoundsIncrease(e, log, bounds, |bounds| - 1, |bounds| - 1);
  }

  function BoundsOf(s: State): seq<nat> {
    Bounds(s.cuts, s.offset, s.outbox)
  }

  lemma {:induction false} SentRecord(e: Env, s: State, x: Item) returns (r: Record)
    requires Inv(e, s) && Sent(s.sent, x)
    ensures Frontier(s) <= |s.log| && r in Records(s.log, 0, Frontier(s)) && Contributed(e, s.log, BoundsOf(s), r, x)
  {
    hide Records, FileOk, PcOk, ServerOk, CommittedSettled, GoodBounds, Contributed, Planned, Asked;
    var q :| q in s.sent && x in q;
    RequestAsked(e, s.log, BoundsOf(s), q, x);
    BoundsGood(e, s);
    r := AskedRecord(e, s.log, BoundsOf(s), x);
  }

  // ---- exactly once ----

  /** One effect, and only one, carries the key of r, and it is what r asks for, margin included. */
  ghost predicate TakenOnce(e: Env, s: State, r: Record) {
    exists i :: 0 <= i < |s.server.effects| && TakenAt(e, s, r, i)
  }

  ghost predicate TakenAt(e: Env, s: State, r: Record, i: nat)
    requires i < |s.server.effects|
  {
    var x := s.server.effects[i];
    IsEffectOf(e, x, r) && Contributed(e, s.log, s.cuts, r, x) && OnlyAt(e, s.server.effects, r, i)
  }

  predicate OnlyAt(e: Env, effects: seq<Item>, r: Record, i: int) {
    forall j :: 0 <= j < |effects| && HasKeyOf(e, effects[j], r) ==> j == i
  }

  lemma {:induction false} KeyOnlyOnce(e: Env, s: State, r: Record, i: nat)
    requires InjectiveHash(e) && Inv(e, s)
    requires i < |s.server.effects| && IsEffectOf(e, s.server.effects[i], r)
    ensures OnlyAt(e, s.server.effects, r, i)
  {
    hide Records, IdOf, InjectiveHash, FileOk, PcOk, GoodBounds, SentOk, CommittedSettled, Contributed, Sent;
    var effects := s.server.effects;
    forall j | 0 <= j < |effects| && HasKeyOf(e, effects[j], r) ensures j == i {
      var q := SentRecord(e, s, effects[j]);
      ContributedIsEffect(e, s.log, BoundsOf(s), q, effects[j]);
      IdInjective(e, q, r);
      assert SameKey(effects[i], effects[j]) && SameKey(effects[j], effects[i]);
    }
  }

  /** The batch of a committed record. */
  lemma {:induction false} CommittedRecord(e: Env, s: State, r: Record) returns (j: nat, k: nat)
    requires Inv(e, s) && s.offset <= |s.log| && r in Records(s.log, 0, s.offset)
    ensures j < |s.cuts| - 1 && BatchAt(e, s.log, s.cuts, j)
    ensures k < |Records(s.log, s.cuts[j], s.cuts[j + 1])| && Records(s.log, s.cuts[j], s.cuts[j + 1])[k] == r
  {
    hide Records, AllParse, FileOk, PcOk, SentOk, ServerOk, CommittedSettled, GoodBounds;
    var m := |s.cuts| - 1;
    assert |s.cuts| > 0 by { BatchesReach(e, s.log, s.cuts); }
    RecordInABatch(e, s.log, s.cuts, m, r);
    var i :| 0 <= i < m && i < |s.cuts| - 1 && BatchAt(e, s.log, s.cuts, i) && r in Records(s.log, s.cuts[i], s.cuts[i + 1]);
    j := i;
    k :| 0 <= k < |Records(s.log, s.cuts[j], s.cuts[j + 1])| && Records(s.log, s.cuts[j], s.cuts[j + 1])[k] == r;
  }

  /** What a committed record contributes has landed. */
  lemma {:induction false} CommittedLanded(e: Env, s: State, r: Record, j: nat, k: nat, x: Item)
    requires Inv(e, s) && j < |s.cuts| - 1 && BatchAt(e, s.log, s.cuts, j)
    requires k < |Records(s.log, s.cuts[j], s.cuts[j + 1])| && Records(s.log, s.cuts[j], s.cuts[j + 1])[k] == r
    requires Contributes(LinesOf(e, Records(s.log, s.cuts[j], s.cuts[j + 1])), k, x)
    ensures Landed(s.server, x) && Contributed(e, s.log, s.cuts, r, x) && Asked(e, s.log, s.cuts, x)
  {
    hide Records, AllParse, FileOk, PcOk, SentOk, ServerOk, GoodBounds, Contributes, Landed, Planned;
    assert ContributedAt(e, s.log, s.cuts, j, r, x);
    assert InBatchAt(e, s.log, s.cuts, j, x);
    AskedInRequest(e, s.log, s.cuts, x);
    var q :| Planned(e, s.log, s.cuts, q) && x in q;
    assert Settled(e, s.server, s.sent, q);
  }

  /** The provenance row of a committed traced record. */
  lemma {:induction false} OwnRow(e: Env, s: State, n: nat, r: Record) returns (x: Item)
    requires InjectiveHash(e) && ReachableIn(e, s, n)
    requires s.offset <= |s.log| && r in Records(s.log, 0, s.offset)
    requires e.parse(r.raw).Some? && Traced(e.parse(r.raw).value)
    ensures x.ProvenanceItem? && x.row == e.parse(r.raw).value
    ensures Contributed(e, s.log, s.cuts, r, x) && Asked(e, s.log, s.cuts, x) && Landed(s.server, x)
  {
    hide Records, Inv, InjectiveHash, ReachableIn, LinesOf, Contributed, Asked;
    ReachableInv(e, s, n);
    var j, k := CommittedRecord(e, s, r);
    x := TracedAsks(e, Records(s.log, s.cuts[j], s.cuts[j + 1]), k);
    CommittedLanded(e, s, r, j, k, x);
  }

  /**
   Below the checkpoint every event and every attribution has taken effect exactly once, with the
   payload of its own batch, and there is a provenance row with the columns of every traced one.
   */
  lemma {:induction false} CommittedExactlyOnce(e: Env, s: State, n: nat, r: Record)
    requires InjectiveHash(e) && ReachableIn(e, s, n)
    requires s.offset <= |s.log| && r in Records(s.log, 0, s.offset)
    ensures e.parse(r.raw).Some?
    ensures var row := e.parse(r.raw).value;
            && (row.OtherRow? || TakenOnce(e, s, r))
            && (Traced(row) ==> ConflictKey(row) in s.server.provenance)
  {
    hide Records, Inv, InjectiveHash, ReachableIn, IsEffectOf, OnlyAt, LinesOf, Contributed, Asked, Contributes;
    ReachableInv(e, s, n);
    var j, k := CommittedRecord(e, s, r);
    var recs := Records(s.log, s.cuts[j], s.cuts[j + 1]);
    assert e.parse(recs[k].raw).Some?;
    if !e.parse(r.raw).value.OtherRow? {
      var x := RecordAsks(e, recs, k);
      CommittedLanded(e, s, r, j, k, x);
      ContributedIsEffect(e, s.log, s.cuts, r, x);
      var i :| 0 <= i < |s.server.effects| && s.server.effects[i] == x;
      KeyOnlyOnce(e, s, r, i);
      assert TakenAt(e, s, r, i);
    }
    if Traced(e.parse(r.raw).value) {
      var x := OwnRow(e, s, n, r);
    }
  }

  ghost predicate EffectInside(e: Env, s: State, i: nat)
    requires i < |s.server.effects|
  {
    Frontier(s) <= |s.log| && exists r :: r in Records(s.log, 0, Frontier(s)) && EffectFrom(e, s, i, r)
  }

  ghost predicate EffectFrom(e: Env, s: State, i: nat, r: Record)
    requires i < |s.server.effects|
  {
    && IsEffectOf(e, s.server.effects[i], r) && Contributed(e, s.log, BoundsOf(s), r, s.server.effects[i])
    && OnlyAt(e, s.server.effects, r, i)
  }

  /** The row under a key is the own row of a traced record with these columns. */
  ghost predicate ProvenanceInside(e: Env, s: State, key: Row)
    requires key in s.server.provenance
  {
    var x := s.server.provenance[key];
    && x.ProvenanceItem? && Traced(x.row) && ConflictKey(x.row) == key && Frontier(s) <= |s.log|
    && exists r :: r in Records(s.log, 0, Frontier(s)) && e.parse(r.raw) == Some(x.row) && Contributed(e, s.log, BoundsOf(s), r, x)
  }

  lemma {:induction false} ProvenanceRecord(e: Env, s: State, key: Row)
    requires Inv(e, s) && key in s.server.provenance
    ensures ProvenanceInside(e, s, key)
  {
    hide Records, FileOk, PcOk, CommittedSettled, GoodBounds, Contributed, Traced, SentOk, Rejects;
    var x := s.server.provenance[key];
    assert Written(e, s.sent, key, x);
    var q :| q in s.sent && Writes(q, key) == Some(x);
    WritesItem(q, key);
    assert Sent(s.sent, x);
    var r := SentRecord(e, s, x);
    ContributedIsTraced(e, s.log, BoundsOf(s), r, x);
  }

  /**
   Nothing takes effect, event, attribution or provenance row, that is not what a record before
   the end of the outbox asks for in its batch, and nothing twice under one key.
   */
  lemma {:induction false} NothingBeyondTheOutbox(e: Env, s: State, n: nat)
    requires InjectiveHash(e) && ReachableIn(e, s, n)
    ensures forall i :: 0 <= i < |s.server.effects| ==> EffectInside(e, s, i)
    ensures forall key :: key in s.server.provenance ==> ProvenanceInside(e, s, key)
  {
    hide Records, InjectiveHash, ReachableIn, IsEffectOf, OnlyAt, ProvenanceInside, FileOk, PcOk, GoodBounds, SentOk, CommittedSettled, Contributed;
    ReachableInv(e, s, n);
    forall i | 0 <= i < |s.server.effects| ensures EffectInside(e, s, i) {
      var r := SentRecord(e, s, s.server.effects[i]);
      ContributedIsEffect(e, s.log, BoundsOf(s), r, s.server.effects[i]);
      KeyOnlyOnce(e, s, r, i);
      assert EffectFrom(e, s, i, r);
    }
    forall key | key in s.server.provenance ensures ProvenanceInside(e, s, key) {
      ProvenanceRecord(e, s, key);
    }
  }

  // ---- refusing to resume ----

  /** run_once would raise "does not match committed checkpoint". */
  predicate Refuses(s: State) {
    s.outbox.Some? && s.outbox.value.start != s.offset
  }

  /**
   A run refuses exactly when the checkpoint was advanced over the outbox and the outbox not
   removed; then the checkpoint is the outbox's end, so nothing is pending beyond it, and by
   CommittedExactlyOnce nothing is lost or doubled.
   */
  lemma {:induction false} RefusesExactly(e: Env, s: State, n: nat)
    requires InjectiveHash(e) && ReachableIn(e, s, n)
    ensures Refuses(s) <==> s.outbox.Some? && s.outbox.value.end == s.offset
    ensures Refuses(s) ==> Frontier(s) == s.offset && (s.pc.Idle? || s.pc.Removing?)
    ensures Refuses(s) ==> Opened(e, s).Idle?
  {
    hide InjectiveHash, ReachableIn, GoodBounds, SentOk, ServerOk, CommittedSettled, SameWork, DoneSettled;
    ReachableInv(e, s, n);
    if s.outbox.Some? {
      BatchNonEmpty(e, s.log, s.outbox.value);
    }
  }

  /** Refusal begins with the checkpoint write and ends with the unlink, and with nothing else. */
  lemma {:induction false} RefusalWindow(e: Env, s: State, n: nat, a: Action)
    requires InjectiveHash(e) && ReachableIn(e, s, n) && Enabled(s, a)
    ensures !Refuses(s) && Refuses(Next(e, s, a)) <==> a.WriteOffset?
    ensures Refuses(s) && !Refuses(Next(e, s, a)) <==> a.Unlink?
  {
    hide InjectiveHash, ReachableIn, GoodBounds, SentOk, ServerOk, CommittedSettled, GoodOutbox, DoneSettled, Settled, DoneUpTo, Opened, Arrive;
    ReachableInv(e, s, n);
    if s.outbox.Some? {
      BatchNonEmpty(e, s.log, s.outbox.value);
    }
  }

  /** Once a crash falls into that window, no later run makes any progress. */
  lemma {:induction false} RefusalIsForever(e: Env, s: State, a: Action)
    requires Refuses(s) && s.pc.Idle? && Enabled(s, a)
    ensures Refuses(Next(e, s, a)) && Next(e, s, a).pc.Idle?
    ensures Next(e, s, a).offset == s.offset && Next(e, s, a).sent == s.sent && Next(e, s, a).outbox == s.outbox
  {
    hide ReadSpec;
  }

  /** From any other state a new run resumes the outbox, or reads on from a checkpoint that lies inside the log. */
  lemma {:induction false} OtherwiseResumes(e: Env, s: State, n: nat)
    requires InjectiveHash(e) && ReachableIn(e, s, n) && !Refuses(s)
    ensures s.outbox.Some? ==> Opened(e, s) == Working(s.outbox.value, 0)
    ensures s.outbox.None? ==> !ReadSpec(e, s.log, s.offset).Shrunk?
  {
    hide InjectiveHash, ReachableIn, Inv, Opened, Records;
    ReachableInv(e, s, n);
    if s.outbox.Some? {
      ResumeOpens(e, s);
    } else {
      OffsetBoundary(e, s);
    }
  }
}
