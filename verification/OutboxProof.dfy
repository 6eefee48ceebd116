/**
 What every run of the push keeps, over all crash points, lost, late and repeated deliveries,
 and log growth.
 */
module OutboxProof {
  import opened Common
  import opened OutboxLog
  import opened OutboxOps
  import opened Outbox

  // ---- batches under a growing log ----

  lemma {:induction false} BatchStable(e: Env, log: Bytes, more: Bytes, lo: nat, hi: nat)
    requires GoodBatch(e, log, lo, hi)
    ensures GoodBatch(e, log + more, lo, hi)
    ensures Records(log + more, lo, hi) == Records(log, lo, hi)
    ensures (log + more)[lo..hi] == log[lo..hi]
  {
    hide Records;
    RecordsStable(log, more, lo, hi);
  }

  lemma {:induction false} BoundsStable(e: Env, log: Bytes, more: Bytes, bounds: seq<nat>)
    requires GoodBounds(e, log, bounds)
    ensures GoodBounds(e, log + more, bounds)
    ensures forall q :: Planned(e, log + more, bounds, q) <==> Planned(e, log, bounds, q)
  {
    hide GoodBatch, PlannedIn;
    forall j | 0 <= j < |bounds| - 1
      ensures BatchAt(e, log, bounds, j) && BatchAt(e, log + more, bounds, j)
      ensures forall q :: PlannedAt(e, log + more, bounds, j, q) <==> PlannedAt(e, log, bounds, j, q)
    {
      assert BatchAt(e, log, bounds, j);
      BatchStable(e, log, more, bounds[j], bounds[j + 1]);
      SameBatch(e, log, log + more, bounds[j], bounds[j + 1]);
    }
  }

  lemma {:induction false} SameBatch(e: Env, log: Bytes, log': Bytes, lo: nat, hi: nat)
    requires GoodBatch(e, log, lo, hi) && GoodBatch(e, log', lo, hi)
    requires Records(log', lo, hi) == Records(log, lo, hi)
    ensures forall q :: PlannedIn(e, log', lo, hi, q) <==> PlannedIn(e, log, lo, hi, q)
  {
  }

  lemma {:induction false} BoundsIncrease(e: Env, log: Bytes, bounds: seq<nat>, i: nat, j: nat)
    requires GoodBounds(e, log, bounds) && i <= j < |bounds|
    ensures bounds[i] <= bounds[j] <= |log|
    ensures i < j ==> bounds[i] < bounds[j]
    decreases j
  {
    if j > 0 {
      assert BatchAt(e, log, bounds, j - 1);
      if i < j {
        BoundsIncrease(e, log, bounds, i, j - 1);
      }
    }
  }

  lemma {:induction false} BoundsExtend(e: Env, log: Bytes, bounds: seq<nat>, hi: nat)
    requires GoodBounds(e, log, bounds)
    requires GoodBatch(e, log, bounds[|bounds| - 1], hi)
    ensures GoodBounds(e, log, bounds + [hi])
    ensures forall q :: Planned(e, log, bounds + [hi], q)
                   <==> Planned(e, log, bounds, q) || PlannedIn(e, log, bounds[|bounds| - 1], hi, q)
  {
    hide GoodBatch, PlannedIn;
    var more := bounds + [hi];
    var last := |bounds| - 1;
    forall j | 0 <= j < |more| - 1
      ensures BatchAt(e, log, more, j)
      ensures j < last ==> BatchAt(e, log, bounds, j)
      ensures j < last ==> forall q :: PlannedAt(e, log, more, j, q) <==> PlannedAt(e, log, bounds, j, q)
    {
      if j < last {
        assert BatchAt(e, log, bounds, j);
      }
    }
    forall q ensures PlannedAt(e, log, more, last, q) <==> PlannedIn(e, log, bounds[last], hi, q) {
    }
    forall q
      ensures Planned(e, log, more, q) <==> Planned(e, log, bounds, q) || PlannedIn(e, log, bounds[last], hi, q)
    {
      if Planned(e, log, bounds, q) {
        var j :| 0 <= j < |bounds| - 1 && PlannedAt(e, log, bounds, j, q);
        assert PlannedAt(e, log, more, j, q);
      }
      if PlannedIn(e, log, bounds[last], hi, q) {
        assert PlannedAt(e, log, more, last, q);
      }
    }
  }

  // ---- items and the requests they travel in ----

  /** A batch asks for exactly the items of its requests. */
  lemma {:induction false} BatchItems(e: Env, log: Bytes, lo: nat, hi: nat, x: Item)
    requires GoodBatch(e, log, lo, hi)
    ensures InBatch(e, log, lo, hi, x) <==> exists q :: PlannedIn(e, log, lo, hi, q) && x in q
  {
    hide Records, LinesOf, BuildOps, AskedFor, AllParse;
    var lines := LinesOf(e, Records(log, lo, hi));
    var ops := BuildOps(lines);
    BuildCarries(lines, x);
    if Carried(ops, x) {
      var i :| 0 <= i < |ops| && x in ops[i].items;
      assert Includes(ops, ops[i].items);
    }
  }

  /** The batches ask for exactly the items of their requests. */
  lemma {:induction false} AskedInRequest(e: Env, log: Bytes, bounds: seq<nat>, x: Item)
    requires Asked(e, log, bounds, x)
    ensures exists q :: Planned(e, log, bounds, q) && x in q
  {
    hide GoodBatch, InBatch, PlannedIn;
    var j :| 0 <= j < |bounds| - 1 && InBatchAt(e, log, bounds, j, x);
    BatchItems(e, log, bounds[j], bounds[j + 1], x);
    var q :| PlannedIn(e, log, bounds[j], bounds[j + 1], q) && x in q;
    assert PlannedAt(e, log, bounds, j, q);
  }

  lemma {:induction false} RequestAsked(e: Env, log: Bytes, bounds: seq<nat>, q: Request, x: Item)
    requires Planned(e, log, bounds, q) && x in q
    ensures Asked(e, log, bounds, x)
  {
    hide GoodBatch, InBatch, PlannedIn;
    var j :| 0 <= j < |bounds| - 1 && PlannedAt(e, log, bounds, j, q);
    BatchItems(e, log, bounds[j], bounds[j + 1], x);
    assert InBatchAt(e, log, bounds, j, x);
  }

  // ---- one key, one item ----

  /** An item with a key comes from the record the key was computed from. */
  lemma {:induction false} ItemRecord(e: Env, recs: seq<Record>, x: Item) returns (k: nat)
    requires AllParse(e, recs) && AskedFor(LinesOf(e, recs), x) && !x.ProvenanceItem?
    ensures k < |recs| && x.id == IdOf(e, recs[k]) && Contributes(LinesOf(e, recs), k, x)
  {
    hide TheEvent, EventsWith, MarginOf, Seed;
    var lines := LinesOf(e, recs);
    k :| 0 <= k < |lines| && Contributes(lines, k, x);
    assert lines[k].id == IdOf(e, recs[k]);
  }

  lemma {:induction false} SameRecordSameItem(lines: seq<Line>, k: nat, x: Item, y: Item)
    requires k < |lines| && Contributes(lines, k, x) && Contributes(lines, k, y)
    requires SameKey(x, y)
    ensures x == y
  {
    hide TheEvent, EventsWith, MarginOf;
  }

  /** Where a record starts says in which batch it is and at which place. */
  lemma {:induction false} OnePlace(e: Env, log: Bytes, bounds: seq<nat>, i: nat, k: nat, j: nat, m: nat)
    requires GoodBounds(e, log, bounds) && i < |bounds| - 1 && j < |bounds| - 1
    requires BatchAt(e, log, bounds, i) && BatchAt(e, log, bounds, j)
    requires k < |Records(log, bounds[i], bounds[i + 1])| && m < |Records(log, bounds[j], bounds[j + 1])|
    requires Records(log, bounds[i], bounds[i + 1])[k].start == Records(log, bounds[j], bounds[j + 1])[m].start
    ensures i == j && k == m
  {
    hide Records, AllParse;
    RecordsInOrder(log, bounds[i], bounds[i + 1]);
    RecordsInOrder(log, bounds[j], bounds[j + 1]);
    var a, b := Records(log, bounds[i], bounds[i + 1]), Records(log, bounds[j], bounds[j + 1]);
    assert StartsIn(a[k], bounds[i], bounds[i + 1]) && StartsIn(b[m], bounds[j], bounds[j + 1]);
    if i < j {
      BoundsIncrease(e, log, bounds, i + 1, j);
    } else if j < i {
      BoundsIncrease(e, log, bounds, j + 1, i);
    }
  }

  /** An ingest_id stands for one payload, however often and over however many runs it is sent. */
  lemma {:induction false} KeyDeterminesItem(e: Env, log: Bytes, bounds: seq<nat>, x: Item, y: Item)
    requires InjectiveHash(e) && GoodBounds(e, log, bounds)
    requires Asked(e, log, bounds, x) && Asked(e, log, bounds, y) && SameKey(x, y)
    ensures x == y
  {
    hide Records, AskedFor, Contributes, IdOf;
    var i :| 0 <= i < |bounds| - 1 && InBatchAt(e, log, bounds, i, x);
    var j :| 0 <= j < |bounds| - 1 && InBatchAt(e, log, bounds, j, y);
    var a, b := Records(log, bounds[i], bounds[i + 1]), Records(log, bounds[j], bounds[j + 1]);
    var k := ItemRecord(e, a, x);
    var m := ItemRecord(e, b, y);
    IdInjective(e, a[k], b[m]);
    OnePlace(e, log, bounds, i, k, j, m);
    SameRecordSameItem(LinesOf(e, a), k, x, y);
  }

  // ---- what a request does to the server ----

  lemma {:induction false} LastRow(q: Request)
    requires q != []
    ensures q == q[..|q| - 1] + [q[|q| - 1]]
    ensures forall x :: x in q <==> x in q[..|q| - 1] || x == q[|q| - 1]
  {
  }

  /** What has landed stays, and a request's rows land: a key that is known already at some item. */
  lemma {:induction false} ArriveLands(sv: Server, q: Request)
    ensures forall y :: Landed(sv, y) ==> Landed(ArriveRows(sv, q), y)
    ensures forall x :: x in q ==> if x.ProvenanceItem? then Landed(ArriveRows(sv, q), x) else Claimed(ArriveRows(sv, q).effects, x)
  {
    if q != [] {
      var front, x := q[..|q| - 1], q[|q| - 1];
      ArriveLands(sv, front);
      LastRow(q);
      RowLands(ArriveRows(sv, front), x);
    }
  }

  lemma {:induction false} RowLands(sv: Server, x: Item)
    ensures var t := ArriveRow(sv, x);
            && (forall y :: Landed(sv, y) ==> Landed(t, y))
            && (forall y :: Claimed(sv.effects, y) ==> Claimed(t.effects, y))
            && (if x.ProvenanceItem? then Landed(t, x) else Claimed(t.effects, x))
  {
    var t := ArriveRow(sv, x);
    if !x.ProvenanceItem? && !Claimed(sv.effects, x) {
      assert SameKey(t.effects[|sv.effects|], x);
    }
    forall y | Claimed(sv.effects, y) ensures Claimed(t.effects, y) {
      var i :| 0 <= i < |sv.effects| && SameKey(sv.effects[i], y);
      assert SameKey(t.effects[i], y);
    }
  }

  /** The table of provenance rows after a request: its last row under a key, or what was there. */
  lemma {:induction false} ArriveWrites(sv: Server, q: Request)
    ensures var t := ArriveRows(sv, q).provenance;
            && (forall key :: key in t <==> key in sv.provenance || Writes(q, key).Some?)
            && (forall key :: key in t ==> t[key] == if Writes(q, key).Some? then Writes(q, key).value else sv.provenance[key])
  {
    if q != [] {
      ArriveWrites(sv, q[..|q| - 1]);
    }
  }

  lemma {:induction false} WritesItem(q: Request, key: Row)
    ensures Writes(q, key).Some? ==> Writes(q, key).value in q && Writes(q, key).value.ProvenanceItem?
                                     && ConflictKey(Writes(q, key).value.row) == key
    ensures forall x :: x in q && x.ProvenanceItem? && ConflictKey(x.row) == key ==> Writes(q, key).Some?
  {
    if q != [] {
      LastRow(q);
      WritesItem(q[..|q| - 1], key);
    }
  }

  lemma {:induction false} FrontRepeats(q: Request, n: nat)
    requires n <= |q| && Repeats(q[..n])
    ensures Repeats(q)
  {
    var i, j :| 0 <= i < j < n && SameColumns(q[..n][i], q[..n][j]);
    assert SameColumns(q[i], q[j]);
  }

  /** Without repeated columns every row of a request is the one it leaves under its key. */
  lemma {:induction false} WritesOnlyRow(q: Request, x: Item)
    requires !Repeats(q) && x in q && x.ProvenanceItem?
    ensures Writes(q, ConflictKey(x.row)) == Some(x)
  {
    var last := |q| - 1;
    LastRow(q);
    if q[last] != x {
      var i :| 0 <= i < last && q[i] == x;
      assert !SameColumns(q[i], q[last]);
      if Repeats(q[..last]) {
        FrontRepeats(q, last);
      }
      WritesOnlyRow(q[..last], x);
    }
  }

  lemma {:induction false} RowKeepsEffects(sv: Server, sent: set<Request>, x: Item)
    requires EffectsOk(sv.effects, sent) && Sent(sent, x)
    ensures EffectsOk(ArriveRow(sv, x).effects, sent)
  {
    hide Sent;
    var t := ArriveRow(sv, x).effects;
    if t != sv.effects {
      forall i, j | 0 <= i < j < |t| ensures !SameKey(t[i], t[j]) {
        assert j == |sv.effects| ==> t[i] == sv.effects[i] && t[j] == x;
      }
    }
  }

  lemma {:induction false} RowsKeepEffects(sv: Server, sent: set<Request>, q: Request)
    requires EffectsOk(sv.effects, sent) && forall x :: x in q ==> Sent(sent, x)
    ensures EffectsOk(ArriveRows(sv, q).effects, sent)
  {
    hide EffectsOk, Sent, ArriveRow;
    if q != [] {
      LastRow(q);
      RowsKeepEffects(sv, sent, q[..|q| - 1]);
      RowKeepsEffects(ArriveRows(sv, q[..|q| - 1]), sent, q[|q| - 1]);
    }
  }

  lemma {:induction false} ArriveOk(e: Env, sv: Server, sent: set<Request>, q: Request)
    requires ServerOk(e, sv, sent) && q in sent
    ensures ServerOk(e, Arrive(e, sv, q), sent)
  {
    hide ArriveRows, Writes, Repeats, SameKey;
    if !Rejects(e, q) {
      assert EffectsOk(sv.effects, sent);
      assert forall x :: x in q ==> Sent(sent, x);
      RowsKeepEffects(sv, sent, q);
      ArriveWrites(sv, q);
      var t := ArriveRows(sv, q).provenance;
      forall key | key in t ensures Written(e, sent, key, t[key]) {
        if Writes(q, key).None? {
          assert Written(e, sent, key, sv.provenance[key]);
        } else {
          assert q in sent && Writes(q, key) == Some(t[key]);
        }
      }
    }
  }

  // ---- every step keeps the invariant ----

  lemma {:induction false} BoundsGood(e: Env, s: State)
    requires Inv(e, s)
    ensures GoodBounds(e, s.log, Bounds(s.cuts, s.offset, s.outbox))
    ensures forall q :: Planned(e, s.log, s.cuts, q) ==> Planned(e, s.log, Bounds(s.cuts, s.offset, s.outbox), q)
  {
    hide GoodBatch, PlannedIn, GoodBounds, Planned, PcOk, ServerOk, SentOk, CommittedSettled, DoneSettled, DoneUpTo;
    if s.outbox.Some? && s.outbox.value.start == s.offset {
      assert GoodOutbox(e, s.log, s.outbox.value);
      BoundsExtend(e, s.log, s.cuts, s.outbox.value.end);
    }
  }

  lemma {:induction false} GoodOutboxStable(e: Env, log: Bytes, more: Bytes, ob: Outbox)
    requires GoodOutbox(e, log, ob)
    ensures GoodOutbox(e, log + more, ob)
  {
    hide GoodBatch, SameWork;
    BatchStable(e, log, more, ob.start, ob.end);
  }

  lemma {:induction false} AppendKeeps(e: Env, s: State, more: Bytes)
    requires Inv(e, s)
    ensures Inv(e, Next(e, s, Append(more)))
  {
    hide GoodBounds, Planned, GoodOutbox, ServerOk, Settled, DoneUpTo, Bounds, DoneSettled;
    BoundsStable(e, s.log, more, s.cuts);
    BoundsGood(e, s);
    BoundsStable(e, s.log, more, Bounds(s.cuts, s.offset, s.outbox));
    if s.outbox.Some? {
      GoodOutboxStable(e, s.log, more, s.outbox.value);
    }
    if s.pc.Writing? {
      GoodOutboxStable(e, s.log, more, s.pc.ob);
    }
  }

  /** A rerun that finds an outbox it does not refuse resumes it: the log only grew, so the digest fits. */
  lemma {:induction false} ResumeOpens(e: Env, s: State)
    requires Inv(e, s) && s.outbox.Some? && s.outbox.value.start == s.offset
    ensures Opened(e, s) == Working(s.outbox.value, 0)
  {
    hide GoodBounds, Planned, SentOk, ServerOk, DoneSettled, SameWork, PcOk, CommittedSettled;
    assert GoodOutbox(e, s.log, s.outbox.value);
  }

  /** A new outbox holds exactly the operations of the bytes up to the last newline. */
  lemma {:induction false} BuiltOutbox(e: Env, s: State)
    requires s.outbox.None? && Boundary(s.log, s.offset) && Opened(e, s).Writing?
    ensures GoodOutbox(e, s.log, Opened(e, s).ob) && Opened(e, s).ob.start == s.offset
    ensures DoneSettled(e, s.server, s.sent, Opened(e, s).ob)
  {
    hide Records, LinesOf, BuildOps;
    var ob := Opened(e, s).ob;
    var recs := Records(s.log, s.offset, ob.end);
    assert ob.ops == BuildOps(LinesOf(e, recs));
    BuildIsFresh(LinesOf(e, recs));
    assert forall i :: 0 <= i < |ob.ops| ==> FreshOp(ob.ops[i]);
    forall i | 0 <= i < |ob.ops| ensures ob.ops[i].(done := false) == ob.ops[i] {
      assert FreshOp(ob.ops[i]);
    }
    NoRecords(e, s.log, s.offset);
  }

  lemma {:induction false} NoRecords(e: Env, log: Bytes, p: nat)
    requires p <= |log|
    ensures Records(log, p, p) == [] && LinesOf(e, []) == []
  {
  }

  lemma {:induction false} OffsetBoundary(e: Env, s: State)
    requires Inv(e, s)
    ensures Boundary(s.log, s.offset)
  {
    hide FileOk, PcOk, ServerOk, SentOk, CommittedSettled;
    assert |s.cuts| > 1 ==> BatchAt(e, s.log, s.cuts, |s.cuts| - 2);
  }

  lemma {:induction false} StartKeeps(e: Env, s: State)
    requires Inv(e, s)
    ensures Inv(e, s.(pc := Opened(e, s)))
  {
    hide Planned, GoodOutbox, ServerOk, Settled, DoneSettled, ReadSpec, SentOk, CommittedSettled, GoodBounds;
    if s.outbox.None? && Opened(e, s).Writing? {
      OffsetBoundary(e, s);
      BuiltOutbox(e, s);
    }
  }

  lemma {:induction false} WriteOutboxKeeps(e: Env, s: State)
    requires Inv(e, s) && Enabled(s, WriteOutbox)
    ensures Inv(e, Next(e, s, WriteOutbox))
  {
    hide GoodOutbox, ServerOk, Settled, DoneSettled, CommittedSettled, GoodBounds, GoodBatch, PlannedIn, Planned;
    var ob := s.pc.ob;
    assert GoodBatch(e, s.log, ob.start, ob.end) by { OutboxBatch(e, s.log, ob); }
    BoundsExtend(e, s.log, s.cuts, ob.end);
  }

  lemma {:induction false} OutboxBatch(e: Env, log: Bytes, ob: Outbox)
    requires GoodOutbox(e, log, ob)
    ensures GoodBatch(e, log, ob.start, ob.end)
    ensures SameWork(ob.ops, BuildOps(LinesOf(e, Records(log, ob.start, ob.end))))
  {
  }

  /** The outbox's requests are exactly those its batch asks for. */
  lemma {:induction false} OutboxCarries(e: Env, log: Bytes, ob: Outbox, q: Request)
    requires GoodOutbox(e, log, ob)
    ensures Includes(ob.ops, q) <==> PlannedIn(e, log, ob.start, ob.end, q)
  {
    hide Records, LinesOf, BuildOps;
    var planned := BuildOps(LinesOf(e, Records(log, ob.start, ob.end)));
    forall i | 0 <= i < |planned| ensures ob.ops[i].items == planned[i].items {
      assert ob.ops[i].(done := false) == planned[i];
    }
  }

  /** A request of the outbox on disk is planned. */
  lemma {:induction false} OutboxPlanned(e: Env, s: State, q: Request)
    requires Inv(e, s) && s.outbox.Some? && s.outbox.value.start == s.offset && Includes(s.outbox.value.ops, q)
    ensures Planned(e, s.log, Bounds(s.cuts, s.offset, s.outbox), q)
  {
    hide GoodOutbox, DoneSettled, GoodBounds, Planned, CommittedSettled, ServerOk, PcOk, SentOk, PlannedIn, GoodBatch, Includes;
    var ob := s.outbox.value;
    OutboxBatch(e, s.log, ob);
    OutboxCarries(e, s.log, ob, q);
    BoundsExtend(e, s.log, s.cuts, ob.end);
  }

  lemma {:induction false} SentGrows(e: Env, sv: Server, sent: set<Request>, q: Request)
    ensures ServerOk(e, sv, sent) ==> ServerOk(e, sv, sent + {q})
    ensures forall p :: Settled(e, sv, sent, p) ==> Settled(e, sv, sent + {q}, p)
  {
    var more := sent + {q};
    if ServerOk(e, sv, sent) {
      hide SameKey, Writes;
      forall x | Sent(sent, x) ensures Sent(more, x) {
        var p :| p in sent && x in p;
        assert p in more;
      }
      forall key | key in sv.provenance ensures Written(e, more, key, sv.provenance[key]) {
        assert Written(e, sent, key, sv.provenance[key]);
        var p :| p in sent && !Rejects(e, p) && Writes(p, key) == Some(sv.provenance[key]);
        assert p in more;
      }
    }
  }

  lemma {:induction false} SendKeeps(e: Env, s: State)
    requires Inv(e, s) && Enabled(s, Send)
    ensures Inv(e, Next(e, s, Send))
  {
    hide GoodOutbox, Settled, GoodBounds, ServerOk, Planned, DoneUpTo;
    var q := s.pc.ob.ops[s.pc.i].items;
    assert Includes(s.pc.ob.ops, q);
    OutboxPlanned(e, s, q);
    SentGrows(e, s.server, s.sent, q);
  }

  /** An item that the server has under its key, of those asked for, is this very item. */
  lemma {:induction false} AcceptedLanded(e: Env, log: Bytes, bounds: seq<nat>, sv: Server, sent: set<Request>, x: Item)
    requires InjectiveHash(e) && GoodBounds(e, log, bounds) && ServerOk(e, sv, sent) && SentOk(e, log, bounds, sent)
    requires Asked(e, log, bounds, x) && Claimed(sv.effects, x)
    ensures Landed(sv, x)
  {
    hide GoodBounds, Asked, InjectiveHash, Planned;
    var i :| 0 <= i < |sv.effects| && SameKey(sv.effects[i], x);
    var y := sv.effects[i];
    assert Sent(sent, y);
    var q :| q in sent && y in q;
    RequestAsked(e, log, bounds, q, y);
    KeyDeterminesItem(e, log, bounds, y, x);
  }

  /** A delivered request that is not refused is settled. */
  lemma {:induction false} DeliveredSettled(e: Env, s: State, q: Request)
    requires InjectiveHash(e) && Inv(e, s) && q in s.sent && !Rejects(e, q)
    ensures Settled(e, Arrive(e, s.server, q), s.sent, q)
  {
    hide GoodBounds, Planned, InjectiveHash, FileOk, PcOk, CommittedSettled, ServerOk, Rejects, ArriveRows, Landed, Claimed, Asked, Bounds;
    var bounds := Bounds(s.cuts, s.offset, s.outbox);
    var t := Arrive(e, s.server, q);
    BoundsGood(e, s);
    ArriveOk(e, s.server, s.sent, q);
    ArriveLands(s.server, q);
    forall x | x in q ensures Landed(t, x) {
      RequestAsked(e, s.log, bounds, q, x);
      if !x.ProvenanceItem? {
        AcceptedLanded(e, s.log, bounds, t, s.sent, x);
      }
    }
  }

  lemma {:induction false} SettledGrows(e: Env, sv: Server, sent: set<Request>, q: Request)
    ensures forall p :: Settled(e, sv, sent, p) ==> Settled(e, Arrive(e, sv, q), sent, p)
    ensures forall ob :: DoneSettled(e, sv, sent, ob) ==> DoneSettled(e, Arrive(e, sv, q), sent, ob)
  {
    hide Landed, Rejects, ArriveRows;
    ArriveLands(sv, q);
  }

  lemma {:induction false} DeliverKeeps(e: Env, s: State, q: Request)
    requires InjectiveHash(e) && Inv(e, s) && q in s.sent
    ensures Inv(e, Next(e, s, Deliver(q)))
  {
    hide GoodOutbox, ServerOk, Settled, DoneSettled, GoodBounds, SentOk, Planned, Arrive, InjectiveHash, Rejects;
    SettledGrows(e, s.server, s.sent, q);
    ArriveOk(e, s.server, s.sent, q);
    if !Rejects(e, q) {
      DeliveredSettled(e, s, q);
    }
  }

  /** Marking an operation whose request was answered keeps the rest. */
  lemma {:induction false} AckKeeps(e: Env, s: State)
    requires Inv(e, s) && Enabled(s, Ack)
    ensures Inv(e, Next(e, s, Ack))
  {
    hide GoodOutbox, DoneSettled, GoodBounds, Planned, CommittedSettled, ServerOk, Settled, SentOk, Bounds;
  }

  lemma {:induction false} MarkedOk(e: Env, log: Bytes, sv: Server, sent: set<Request>, ob: Outbox, i: nat)
    requires GoodOutbox(e, log, ob) && DoneSettled(e, sv, sent, ob) && i < |ob.ops|
    requires Settled(e, sv, sent, MarkDone(ob, i).ops[i].items)
    ensures GoodOutbox(e, log, MarkDone(ob, i)) && DoneSettled(e, sv, sent, MarkDone(ob, i))
  {
    hide GoodBatch, BuildOps, LinesOf, Records, Settled;
  }

  lemma {:induction false} SaveKeeps(e: Env, s: State)
    requires Inv(e, s) && Enabled(s, Save)
    ensures Inv(e, Next(e, s, Save))
  {
    hide GoodOutbox, DoneSettled, GoodBounds, Planned, CommittedSettled, ServerOk, Settled, SentOk;
    MarkedOk(e, s.log, s.server, s.sent, s.outbox.value, s.pc.i);
  }

  /** The batch of a finished outbox joins the committed ones. */
  lemma {:induction false} CommitBatch(e: Env, s: State, ob: Outbox)
    requires GoodBounds(e, s.log, s.cuts) && s.cuts[|s.cuts| - 1] == ob.start
    requires CommittedSettled(e, s.log, s.cuts, s.server, s.sent)
    requires GoodOutbox(e, s.log, ob) && DoneSettled(e, s.server, s.sent, ob) && DoneUpTo(ob, |ob.ops|)
    ensures GoodBounds(e, s.log, s.cuts + [ob.end]) && CommittedSettled(e, s.log, s.cuts + [ob.end], s.server, s.sent)
  {
    OutboxBatch(e, s.log, ob);
    BoundsExtend(e, s.log, s.cuts, ob.end);
    hide GoodOutbox, GoodBounds, Planned, GoodBatch, PlannedIn, Settled;
    forall q | Planned(e, s.log, s.cuts + [ob.end], q) ensures Settled(e, s.server, s.sent, q) {
      if PlannedIn(e, s.log, ob.start, ob.end, q) {
        OutboxCarries(e, s.log, ob, q);
        var i :| 0 <= i < |ob.ops| && ob.ops[i].items == q;
        assert ob.ops[i].done;
      }
    }
  }

  lemma {:induction false} WriteOffsetKeeps(e: Env, s: State)
    requires Inv(e, s) && Enabled(s, WriteOffset)
    ensures Inv(e, Next(e, s, WriteOffset))
  {
    hide GoodOutbox, GoodBounds, Planned, ServerOk, CommittedSettled, SentOk, DoneSettled, Settled;
    var ob := s.pc.ob;
    assert ob.start < ob.end by { BatchNonEmpty(e, s.log, ob); }
    CommitBatch(e, s, ob);
  }

  lemma {:induction false} BatchNonEmpty(e: Env, log: Bytes, ob: Outbox)
    requires GoodOutbox(e, log, ob)
    ensures ob.start < ob.end
  {
  }

  lemma {:induction false} UnlinkKeeps(e: Env, s: State)
    requires Inv(e, s) && Enabled(s, Unlink)
    ensures Inv(e, Next(e, s, Unlink))
  {
    hide GoodOutbox, GoodBounds, Planned, ServerOk, DoneSettled, SentOk, CommittedSettled;
    BatchNonEmpty(e, s.log, s.pc.ob);
  }

  lemma {:induction false} StepKeeps(e: Env, s: State, a: Action)
    requires InjectiveHash(e) && Inv(e, s) && Enabled(s, a)
    ensures Inv(e, Next(e, s, a))
  {
    hide GoodOutbox, GoodBounds, Planned, ServerOk, DoneSettled, SentOk, CommittedSettled, InjectiveHash, Settled, Opened, Arrive;
    match a {
      case Append(more) => AppendKeeps(e, s, more);
      case Start => StartKeeps(e, s);
      case WriteOutbox => WriteOutboxKeeps(e, s);
      case Send => SendKeeps(e, s);
      case Ack => AckKeeps(e, s);
      case Save => SaveKeeps(e, s);
      case WriteOffset => WriteOffsetKeeps(e, s);
      case Unlink => UnlinkKeeps(e, s);
      case Deliver(q) => DeliverKeeps(e, s, q);
      case _ =>
    }
  }

  lemma {:induction false} ReachableInv(e: Env, s: State, n: nat)
    requires InjectiveHash(e) && ReachableIn(e, s, n)
    ensures Inv(e, s)
    decreases n
  {
    hide InjectiveHash;
    if n > 0 {
      hide Inv, Enabled, Next;
      var p: State, a: Action :| ReachableIn(e, p, n - 1) && Enabled(p, a) && s == Next(e, p, a);
      ReachableInv(e, p, n - 1);
      StepKeeps(e, p, a);
    }
  }
}
