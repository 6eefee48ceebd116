/** Which row stands in the provenance table: rows with the same nine columns overwrite each other. */
module OutboxProvenance {
  import opened Common
  import opened OutboxLog
  import opened OutboxOps
  import opened Outbox
  import opened OutboxProof
  import opened OutboxSafety
  import opened OutboxProgress
  import opened OutboxLines

  /** Some request of the batches leaves x under this key. */
  ghost predicate LeftBy(e: Env, log: Bytes, bounds: seq<nat>, key: Row, x: Item) {
    exists q :: Planned(e, log, bounds, q) && Writes(q, key) == Some(x)
  }

  /** t follows from s by requests arriving, late or repeated, and nothing else. */
  ghost predicate ByArrivals(e: Env, s: State, t: State, n: nat)
    decreases n
  {
    if n == 0 then s == t
    else exists p, q :: ByArrivals(e, s, p, n - 1) && q in p.sent && t == Next(e, p, Deliver(q))
  }

  /** x is the row under its key. */
  predicate Stands(s: State, x: Item)
    requires x.ProvenanceItem?
  {
    ConflictKey(x.row) in s.server.provenance && s.server.provenance[ConflictKey(x.row)] == x
  }

  /** x stands, whatever arrives. */
  ghost predicate StaysStanding(e: Env, s: State, x: Item)
    requires x.ProvenanceItem?
  {
    forall t, m :: ByArrivals(e, s, t, m) ==> Stands(t, x)
  }

  lemma {:induction false} ArrivalsChangeTheServer(e: Env, s: State, t: State, m: nat)
    requires InjectiveHash(e) && Inv(e, s) && ByArrivals(e, s, t, m)
    ensures Inv(e, t) && t.log == s.log && t.cuts == s.cuts && t.offset == s.offset && t.outbox == s.outbox && t.sent == s.sent
    decreases m
  {
    hide Inv, InjectiveHash, Next;
    if m > 0 {
      var p, q :| ByArrivals(e, s, p, m - 1) && q in p.sent && t == Next(e, p, Deliver(q));
      ArrivalsChangeTheServer(e, s, p, m - 1);
      DeliverKeeps(e, p, q);
      ArrivalChangesTheServer(e, p, q);
    }
  }

  lemma {:induction false} ArrivalChangesTheServer(e: Env, s: State, q: Request)
    requires q in s.sent
    ensures var t := Next(e, s, Deliver(q));
            t.log == s.log && t.cuts == s.cuts && t.offset == s.offset && t.outbox == s.outbox && t.sent == s.sent
  {
    hide Arrive, Rejects, Awaits;
  }

  /** With nothing else to leave under its key, a committed row stands. */
  lemma {:induction false} OnlyRowStands(e: Env, s: State, x: Item)
    requires Inv(e, s) && x.ProvenanceItem? && Asked(e, s.log, s.cuts, x)
    requires forall y :: LeftBy(e, s.log, BoundsOf(s), ConflictKey(x.row), y) ==> y == x
    ensures Stands(s, x)
  {
    hide Planned, Asked, GoodBounds, FileOk, PcOk, Rejects, Writes, Bounds;
    AskedInRequest(e, s.log, s.cuts, x);
    var q :| Planned(e, s.log, s.cuts, q) && x in q;
    var key := ConflictKey(x.row);
    assert Settled(e, s.server, s.sent, q);
    assert Landed(s.server, x);
    var y := s.server.provenance[key];
    assert Written(e, s.sent, key, y);
    var p :| p in s.sent && !Rejects(e, p) && Writes(p, key) == Some(y);
    assert Planned(e, s.log, BoundsOf(s), p);
    assert LeftBy(e, s.log, BoundsOf(s), key, y);
  }

  /** What a committed request leaves under a key it can leave there again. */
  lemma {:induction false} LateArrival(e: Env, s: State, key: Row, y: Item) returns (t: State)
    requires Inv(e, s) && LeftBy(e, s.log, s.cuts, key, y)
    ensures ByArrivals(e, s, t, 1) && key in t.server.provenance && t.server.provenance[key] == y
  {
    hide Planned, GoodBounds, FileOk, PcOk, ServerOk, SentOk, Writes, Landed, Repeats;
    var q :| Planned(e, s.log, s.cuts, q) && Writes(q, key) == Some(y);
    assert Settled(e, s.server, s.sent, q);
    t := Next(e, s, Deliver(q));
    assert ByArrivals(e, s, s, 0);
    ArriveWrites(s.server, q);
  }

  /**
   Between two runs, a committed row stands whatever arrives late or again if and only if no
   request of a committed batch leaves another row under its nine columns.
   */
  lemma {:induction false} OwnRowStandsIff(e: Env, s: State, n: nat, x: Item)
    requires InjectiveHash(e) && ReachableIn(e, s, n) && Frontier(s) == s.offset
    requires x.ProvenanceItem? && Asked(e, s.log, s.cuts, x)
    ensures StaysStanding(e, s, x) <==> forall y :: LeftBy(e, s.log, s.cuts, ConflictKey(x.row), y) ==> y == x
  {
    hide Inv, InjectiveHash, ReachableIn, Asked, LeftBy, ConflictKey;
    ReachableInv(e, s, n);
    var key := ConflictKey(x.row);
    assert BoundsOf(s) == s.cuts by { NothingPending(e, s); }
    if forall y :: LeftBy(e, s.log, s.cuts, key, y) ==> y == x {
      forall t, m | ByArrivals(e, s, t, m) ensures Stands(t, x) {
        ArrivalsChangeTheServer(e, s, t, m);
        OnlyRowStands(e, t, x);
      }
    } else {
      var y :| LeftBy(e, s.log, s.cuts, key, y) && y != x;
      var t := LateArrival(e, s, key, y);
      assert !Stands(t, x);
    }
  }

  lemma {:induction false} NothingPending(e: Env, s: State)
    requires Inv(e, s) && Frontier(s) == s.offset
    ensures BoundsOf(s) == s.cuts
  {
    if s.outbox.Some? {
      OutboxNonEmpty(e, s);
    }
  }

  /** What a request leaves is asked for, and on a database that refuses repeated rows every committed row is left. */
  lemma {:induction false} LeftIffAsked(e: Env, s: State, y: Item)
    requires e.strict && Inv(e, s) && y.ProvenanceItem?
    ensures LeftBy(e, s.log, s.cuts, ConflictKey(y.row), y) <==> Asked(e, s.log, s.cuts, y)
  {
    hide Planned, Asked, GoodBounds, FileOk, PcOk, ServerOk, SentOk, Writes, Landed, Repeats, ConflictKey;
    if LeftBy(e, s.log, s.cuts, ConflictKey(y.row), y) {
      var q :| Planned(e, s.log, s.cuts, q) && Writes(q, ConflictKey(y.row)) == Some(y);
      WritesItem(q, ConflictKey(y.row));
      RequestAsked(e, s.log, s.cuts, q, y);
    }
    if Asked(e, s.log, s.cuts, y) {
      AskedInRequest(e, s.log, s.cuts, y);
      var q :| Planned(e, s.log, s.cuts, q) && y in q;
      assert Settled(e, s.server, s.sent, q);
      WritesOnlyRow(q, y);
    }
  }

  /** y is another row with x's columns that a committed record asks for. */
  ghost predicate Rival(e: Env, s: State, x: Item, y: Item) {
    SameColumns(x, y) && y != x && Asked(e, s.log, s.cuts, y)
  }

  /**
   So on a database that refuses repeated rows the own row of a committed record is safe between
   runs if and only if no other committed record asks for a different row with the same columns.
   */
  lemma {:induction false} OwnRowStandsIffAlone(e: Env, s: State, n: nat, r: Record, x: Item)
    requires InjectiveHash(e) && e.strict && ReachableIn(e, s, n) && Frontier(s) == s.offset
    requires x.ProvenanceItem? && Contributed(e, s.log, s.cuts, r, x)
    ensures StaysStanding(e, s, x) <==> !exists y :: Rival(e, s, x, y)
  {
    hide Inv, InjectiveHash, ReachableIn, Asked, LeftBy, ConflictKey, StaysStanding, Contributed;
    ReachableInv(e, s, n);
    ContributedAsked(e, s.log, s.cuts, r, x);
    OwnRowStandsIff(e, s, n, x);
    var key := ConflictKey(x.row);
    forall y | LeftBy(e, s.log, s.cuts, key, y) ensures y.ProvenanceItem? && ConflictKey(y.row) == key {
      LeftHasKey(e, s.log, s.cuts, key, y);
    }
    forall y: Item | y.ProvenanceItem?
      ensures LeftBy(e, s.log, s.cuts, ConflictKey(y.row), y) <==> Asked(e, s.log, s.cuts, y)
    {
      LeftIffAsked(e, s, y);
    }
    if y :| LeftBy(e, s.log, s.cuts, key, y) && y != x {
      assert Rival(e, s, x, y);
    }
    if y :| Rival(e, s, x, y) {
      assert LeftBy(e, s.log, s.cuts, ConflictKey(y.row), y);
    }
  }

  lemma {:induction false} LeftHasKey(e: Env, log: Bytes, bounds: seq<nat>, key: Row, y: Item)
    requires LeftBy(e, log, bounds, key, y)
    ensures y.ProvenanceItem? && ConflictKey(y.row) == key
  {
    hide Planned, Writes;
    var q :| Planned(e, log, bounds, q) && Writes(q, key) == Some(y);
    WritesItem(q, key);
  }

  lemma {:induction false} ContributedAsked(e: Env, log: Bytes, bounds: seq<nat>, r: Record, x: Item)
    requires Contributed(e, log, bounds, r, x)
    ensures Asked(e, log, bounds, x)
  {
    hide Records, Contributes, AllParse;
    var j :| 0 <= j < |bounds| - 1 && ContributedAt(e, log, bounds, j, r, x);
    var recs := Records(log, bounds[j], bounds[j + 1]);
    var k: nat :| k < |recs| && recs[k] == r && Contributes(LinesOf(e, recs), k, x);
    assert |LinesOf(e, recs)| == |recs|;
    assert InBatchAt(e, log, bounds, j, x);
  }

  /**
   Two lines that parse to traced attributions with the same columns and differ elsewhere, each
   pushed by a run of its own: both are committed, and the first one's row is gone.
   */
  lemma {:induction false} RowCanBeLost(e: Env, raw: Bytes, raw': Bytes) returns (s: State, n: nat, r: Record)
    requires InjectiveHash(e) && e.strict && PlainLine(raw) && PlainLine(raw')
    requires e.parse(raw).Some? && e.parse(raw').Some? && Traced(e.parse(raw).value) && Traced(e.parse(raw').value)
    requires e.parse(raw) != e.parse(raw') && ConflictKey(e.parse(raw).value) == ConflictKey(e.parse(raw').value)
    ensures ReachableIn(e, s, n) && AtRest(s) && r in Records(s.log, 0, s.offset) && e.parse(r.raw) == e.parse(raw)
    ensures ConflictKey(e.parse(raw).value) in s.server.provenance
    ensures var x := s.server.provenance[ConflictKey(e.parse(raw).value)]; x.ProvenanceItem? && x.row == e.parse(raw').value
  {
    hide Inv, InjectiveHash, PlainLine, Records, Traced, Contributed, Asked, ConflictKey, LeftBy;
    var s0 := InitState();
    assert ReachableIn(e, s0, 0);
    hide ReachableIn;
    r := Record(0, raw);
    var s1, n1 := PushLine(e, s0, 0, raw);
    var s2, n2 := PushLine(e, s1, n1, raw');
    var r' := Record(|s1.log|, raw');
    ReachableInv(e, s2, n2);
    var x := OwnRow(e, s2, n2, r');
    LeftIffAsked(e, s2, x);
    s := LateArrival(e, s2, ConflictKey(x.row), x);
    OneArrival(e, s2, n2, s);
    n := n2 + 1;
  }

  lemma {:induction false} OneArrival(e: Env, s: State, n: nat, t: State)
    requires ReachableIn(e, s, n) && ByArrivals(e, s, t, 1)
    ensures ReachableIn(e, t, n + 1) && t.log == s.log && t.offset == s.offset && t.pc == s.pc && t.outbox == s.outbox
  {
    hide ReachableIn, Arrive, Rejects;
    var p, q :| ByArrivals(e, s, p, 0) && q in p.sent && t == Next(e, p, Deliver(q));
    StepReaches(e, s, n, Deliver(q));
  }

  /** Such lines, hash and parser exist, and so does a line whose two copies block an outbox. */
  lemma {:induction false} SomeRowIsLost() returns (e: Env, s: State, n: nat, r: Record, blocked: State)
    ensures InjectiveHash(e) && ReachableIn(e, s, n) && AtRest(s) && r in Records(s.log, 0, s.offset)
    ensures e.parse(r.raw).Some? && Traced(e.parse(r.raw).value)
    ensures var key := ConflictKey(e.parse(r.raw).value);
            key in s.server.provenance && !Contributed(e, s.log, s.cuts, r, s.server.provenance[key])
    ensures ReachableIn(e, blocked, 3) && Blocked(e, blocked)
  {
    var raw, raw': Bytes := [97], [98];
    assert PlainLine(raw) && PlainLine(raw') by { assert !Space(raw[0]) && !Space(raw'[0]); }
    e := InjectiveHashExists([], (b: Bytes) => Some(AttributionRow(Key("m", "c", 0, 0), Target("m", "c", "q", 0), "f", Some(1), Some(2), b)), true);
    assert e.parse(raw).value.rest != e.parse(raw').value.rest;
    assert Traced(e.parse(raw).value) && Traced(e.parse(raw').value);
    hide InjectiveHash, PlainLine, Traced, Contributed, ReachableIn, Records;
    s, n, r := RowCanBeLost(e, raw, raw');
    forall x: Item | Contributed(e, s.log, s.cuts, r, x) && x.ProvenanceItem? ensures x.row == e.parse(raw).value {
      ContributedIsTraced(e, s.log, s.cuts, r, x);
    }
    blocked := TwoCopiesBlock(e, raw);
  }
}
