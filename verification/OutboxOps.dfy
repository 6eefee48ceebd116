/** The operations a batch of parsed records asks for, and the loops that collect them. */
module OutboxOps {
  import opened Common
  import opened OutboxLog

  /** One row or call as it is sent to the server. */
  datatype Item =
    | EventItem(id: Id, row: Row)
    | IncrementItem(id: Id, target: Target, margin: Option<real>)
    | ProvenanceItem(row: Row, margin: Option<real>, event: Option<Row>)

  datatype Kind = Events | Increment | Provenance
  datatype Op = Op(kind: Kind, items: seq<Item>, done: bool)

  // ---- what one record contributes ----

  /** The event rows with this key, in order. */
  function EventsWith(lines: seq<Line>, n: nat, key: Key): seq<Row>
    requires n <= |lines|
  {
    if n == 0 then []
    else
      var row := lines[n - 1].row;
      EventsWith(lines, n - 1, key) + (if row.EventRow? && row.key == key then [row] else [])
  }

  /** The event an attribution refers to: the only one of the batch with its key. */
  function TheEvent(lines: seq<Line>, key: Key): Option<Row> {
    var found := EventsWith(lines, |lines|, key);
    if |found| == 1 then Some(found[0]) else None
  }

  function MarginOf(event: Option<Row>): Option<real> {
    if event.Some? && event.value.EventRow? then event.value.margin else None
  }

  predicate Traced(row: Row) {
    row.AttributionRow? && row.manifest != "" && row.orig.Some? && row.corrected.Some?
  }

  /** The nine columns provenance rows are merged by. */
  function ConflictKey(row: Row): Row {
    if row.AttributionRow? then row.(rest := []) else row
  }

  function EventOf(lines: seq<Line>, k: nat): seq<Item>
    requires k < |lines|
  {
    if lines[k].row.EventRow? then [EventItem(lines[k].id, lines[k].row)] else []
  }

  function IncrementOf(lines: seq<Line>, k: nat): seq<Item>
    requires k < |lines|
  {
    var row := lines[k].row;
    if row.AttributionRow? then [IncrementItem(lines[k].id, row.target, MarginOf(TheEvent(lines, row.key)))] else []
  }

  function ProvenanceOf(lines: seq<Line>, k: nat): seq<Item>
    requires k < |lines|
  {
    var row := lines[k].row;
    if Traced(row) then
      var event := TheEvent(lines, row.key);
      [ProvenanceItem(row, MarginOf(event), event)]
    else []
  }

  function ItemsOf(kind: Kind, lines: seq<Line>, k: nat): seq<Item>
    requires k < |lines|
  {
    match kind
    case Events => EventOf(lines, k)
    case Increment => IncrementOf(lines, k)
    case Provenance => ProvenanceOf(lines, k)
  }

  /** What the first n records contribute, in order. */
  function Collected(kind: Kind, lines: seq<Line>, n: nat): seq<Item>
    requires n <= |lines|
  {
    if n == 0 then [] else Collected(kind, lines, n - 1) + ItemsOf(kind, lines, n - 1)
  }

  // ---- the operations ----

  function Chunks(kind: Kind, items: seq<Item>): seq<Op> {
    if items == [] then []
    else if |items| <= BATCH then [Op(kind, items, false)]
    else [Op(kind, items[..BATCH], false)] + Chunks(kind, items[BATCH..])
  }

  function Singles(items: seq<Item>): seq<Op> {
    seq(|items|, k requires 0 <= k < |items| => Op(Increment, [items[k]], false))
  }

  function BuildOps(lines: seq<Line>): seq<Op> {
    Chunks(Events, Collected(Events, lines, |lines|))
    + Singles(Collected(Increment, lines, |lines|))
    + Chunks(Provenance, Collected(Provenance, lines, |lines|))
  }

  /** Some operation carries x. */
  predicate Carried(ops: seq<Op>, x: Item) {
    exists i :: 0 <= i < |ops| && x in ops[i].items
  }

  /** Some record of the batch contributes x. */
  predicate Contributes(lines: seq<Line>, k: nat, x: Item)
    requires k < |lines|
  {
    x in EventOf(lines, k) || x in IncrementOf(lines, k) || x in ProvenanceOf(lines, k)
  }

  predicate AskedFor(lines: seq<Line>, x: Item) {
    exists k :: 0 <= k < |lines| && Contributes(lines, k, x)
  }

  lemma {:induction false} ChunksCarry(kind: Kind, items: seq<Item>, x: Item)
    ensures Carried(Chunks(kind, items), x) <==> x in items
  {
    var ops := Chunks(kind, items);
    if items == [] {
    } else if |items| <= BATCH {
      assert ops[0].items == items;
    } else {
      ChunksCarry(kind, items[BATCH..], x);
      var rest := Chunks(kind, items[BATCH..]);
      assert ops == [Op(kind, items[..BATCH], false)] + rest;
      assert items == items[..BATCH] + items[BATCH..];
      CarriedConcat([Op(kind, items[..BATCH], false)], rest, x);
      CarriedOne(Op(kind, items[..BATCH], false), x);
    }
  }

  lemma {:induction false} CarriedOne(op: Op, x: Item)
    ensures Carried([op], x) <==> x in op.items
  {
    assert [op][0] == op;
  }

  lemma {:induction false} CarriedConcat(a: seq<Op>, b: seq<Op>, x: Item)
    ensures Carried(a + b, x) <==> Carried(a, x) || Carried(b, x)
  {
    if Carried(a, x) {
      var i :| 0 <= i < |a| && x in a[i].items;
      assert (a + b)[i] == a[i];
    }
    if Carried(b, x) {
      var i :| 0 <= i < |b| && x in b[i].items;
      assert (a + b)[|a| + i] == b[i];
    }
  }

  lemma {:induction false} SinglesCarry(items: seq<Item>, x: Item)
    ensures Carried(Singles(items), x) <==> x in items
  {
    var ops := Singles(items);
    if x in items {
      var k :| 0 <= k < |items| && items[k] == x;
      assert x in ops[k].items;
    }
  }

  lemma {:induction false} CollectedFrom(kind: Kind, lines: seq<Line>, n: nat, x: Item)
    requires n <= |lines|
    ensures x in Collected(kind, lines, n) <==> exists k :: 0 <= k < n && x in ItemsOf(kind, lines, k)
  {
    hide ItemsOf;
    if n > 0 {
      CollectedFrom(kind, lines, n - 1, x);
      assert x in ItemsOf(kind, lines, n - 1) ==> exists k :: 0 <= k < n && x in ItemsOf(kind, lines, k);
    }
  }

  /** The operations carry exactly what the records ask for. */
  lemma {:induction false} BuildCarries(lines: seq<Line>, x: Item)
    ensures Carried(BuildOps(lines), x) <==> AskedFor(lines, x)
  {
    var n := |lines|;
    var a, b, c := Collected(Events, lines, n), Collected(Increment, lines, n), Collected(Provenance, lines, n);
    CarriedConcat(Chunks(Events, a) + Singles(b), Chunks(Provenance, c), x);
    CarriedConcat(Chunks(Events, a), Singles(b), x);
    ChunksCarry(Events, a, x);
    SinglesCarry(b, x);
    ChunksCarry(Provenance, c, x);
    CollectedFrom(Events, lines, n, x);
    CollectedFrom(Increment, lines, n, x);
    CollectedFrom(Provenance, lines, n, x);
    CarriedIffAsked(lines, x);
  }

  lemma {:induction false} CarriedIffAsked(lines: seq<Line>, x: Item)
    ensures AskedFor(lines, x)
       <==> || (exists k :: 0 <= k < |lines| && x in ItemsOf(Events, lines, k))
            || (exists k :: 0 <= k < |lines| && x in ItemsOf(Increment, lines, k))
            || (exists k :: 0 <= k < |lines| && x in ItemsOf(Provenance, lines, k))
  {
    hide EventOf, IncrementOf, ProvenanceOf;
    forall k | 0 <= k < |lines|
      ensures Contributes(lines, k, x) <==> x in ItemsOf(Events, lines, k) || x in ItemsOf(Increment, lines, k)
                                            || x in ItemsOf(Provenance, lines, k)
    {
    }
  }

  predicate FreshOp(op: Op) {
    !op.done && 0 < |op.items| <= BATCH && (op.kind.Increment? ==> |op.items| == 1)
  }

  /** Nothing is done yet, no batch is empty or over 20 rows, and every increment is a call of its own. */
  lemma {:induction false} BuildIsFresh(lines: seq<Line>)
    ensures forall i :: 0 <= i < |BuildOps(lines)| ==> FreshOp(BuildOps(lines)[i])
  {
    ChunksFresh(Events, Collected(Events, lines, |lines|));
    ChunksFresh(Provenance, Collected(Provenance, lines, |lines|));
  }

  lemma {:induction false} ChunksFresh(kind: Kind, items: seq<Item>)
    requires !kind.Increment?
    ensures forall i :: 0 <= i < |Chunks(kind, items)| ==> FreshOp(Chunks(kind, items)[i])
  {
    if |items| > BATCH {
      ChunksFresh(kind, items[BATCH..]);
    }
  }

  // ---- the margin of an attribution ----

  /**
   The event is looked up in the attribution's own batch, so the margin sent depends on where
   the log was cut: here the event stands in another batch, before or after the attribution's.
   */
  lemma {:induction false} MarginDependsOnTheCut()
    ensures exists event: Line, attribution: Line, m: real ::
              && event.row.EventRow? && attribution.row.AttributionRow?
              && IncrementOf([event, attribution], 1) == [IncrementItem(attribution.id, attribution.row.target, Some(m))]
              && IncrementOf([attribution, event], 0) == [IncrementItem(attribution.id, attribution.row.target, Some(m))]
              && IncrementOf([attribution], 0) == [IncrementItem(attribution.id, attribution.row.target, None)]
  {
    var key := Key("m", "c", 0, 8);
    var event := Line(1, EventRow(key, Some(0.5), []));
    var attribution := Line(2, AttributionRow(key, Target("m", "c", "r", 4), "", None, None, []));
    assert EventsWith([event, attribution], 1, key) == [event.row] == EventsWith([event, attribution], 2, key);
    assert EventsWith([attribution, event], 1, key) == [] && EventsWith([attribution, event], 2, key) == [event.row];
    assert EventsWith([attribution], 1, key) == [];
    assert IncrementOf([event, attribution], 1) == [IncrementItem(2, attribution.row.target, Some(0.5))];
    assert IncrementOf([attribution, event], 0) == [IncrementItem(2, attribution.row.target, Some(0.5))];
    assert IncrementOf([attribution], 0) == [IncrementItem(2, attribution.row.target, None)];
  }

  /** Every record before the cut that is an event with the attribution's key is lost to it, and nothing else is. */
  lemma {:induction false} EventsWithSplit(a: seq<Line>, b: seq<Line>, n: nat, key: Key)
    requires n <= |b|
    ensures EventsWith(a + b, |a| + n, key) == EventsWith(a, |a|, key) + EventsWith(b, n, key)
  {
    if n == 0 {
      EventsWithPrefix(a, b, |a|, key);
    } else {
      EventsWithSplit(a, b, n - 1, key);
    }
  }

  lemma {:induction false} EventsWithPrefix(a: seq<Line>, b: seq<Line>, n: nat, key: Key)
    requires n <= |a|
    ensures EventsWith(a + b, n, key) == EventsWith(a, n, key)
  {
    if n > 0 {
      EventsWithPrefix(a, b, n - 1, key);
    }
  }

  /** Records a, b and c one after the other: the events of b with a key, and those outside it. */
  function Inner(b: seq<Line>, key: Key): seq<Row> {
    EventsWith(b, |b|, key)
  }

  function Outer(a: seq<Line>, c: seq<Line>, key: Key): seq<Row> {
    EventsWith(a, |a|, key) + EventsWith(c, |c|, key)
  }

  lemma {:induction false} EventsOfThree(a: seq<Line>, b: seq<Line>, c: seq<Line>, key: Key)
    ensures EventsWith(a + b + c, |a + b + c|, key) == EventsWith(a, |a|, key) + Inner(b, key) + EventsWith(c, |c|, key)
  {
    EventsWithSplit(a + b, c, |c|, key);
    EventsWithSplit(a, b, |b|, key);
    assert |a + b| == |a| + |b| && |a + b + c| == |a + b| + |c|;
  }

  /** Cutting a before and c after b off leaves the event found in b unchanged in exactly these cases. */
  predicate EventUnmoved(outer: seq<Row>, inner: seq<Row>) {
    outer == [] || |inner| > 1 || (|outer| > 1 && |inner| == 0)
  }

  lemma {:induction false} CutsKeepTheEventIff(a: seq<Line>, b: seq<Line>, c: seq<Line>, key: Key)
    ensures TheEvent(a + b + c, key) == TheEvent(b, key) <==> EventUnmoved(Outer(a, c, key), Inner(b, key))
  {
    EventsOfThree(a, b, c, key);
    if Outer(a, c, key) == [] {
      assert EventsWith(a + b + c, |a + b + c|, key) == Inner(b, key);
    }
  }

  /** ... and the margin also when the one event that is lost or found has none. */
  predicate MarginUnmoved(outer: seq<Row>, inner: seq<Row>) {
    || EventUnmoved(outer, inner)
    || (|inner| == 1 && MarginOf(Some(inner[0])).None?)
    || (|inner| == 0 && |outer| == 1 && MarginOf(Some(outer[0])).None?)
  }

  lemma {:induction false} CutsKeepTheMarginIff(a: seq<Line>, b: seq<Line>, c: seq<Line>, key: Key)
    ensures MarginOf(TheEvent(a + b + c, key)) == MarginOf(TheEvent(b, key)) <==> MarginUnmoved(Outer(a, c, key), Inner(b, key))
  {
    hide MarginOf;
    CutsKeepTheEventIff(a, b, c, key);
    EventsOfThree(a, b, c, key);
    var outer, inner := Outer(a, c, key), Inner(b, key);
    var all := EventsWith(a + b + c, |a + b + c|, key);
    NoMargin();
    if |inner| == 0 && |outer| == 1 {
      assert all == outer;
    }
  }

  lemma {:induction false} NoMargin()
    ensures MarginOf(None) == None
  {
  }

  /**
   What an attribution in b is sent as does not depend on the cuts around b if and only if its
   margin does not; its provenance row carries the event itself.
   */
  lemma {:induction false} CutsKeepTheItemsIff(a: seq<Line>, b: seq<Line>, c: seq<Line>, k: nat)
    requires k < |b| && b[k].row.AttributionRow?
    ensures |a| + k < |a + b + c|
    ensures var key := b[k].row.key;
            && (IncrementOf(a + b + c, |a| + k) == IncrementOf(b, k) <==> MarginUnmoved(Outer(a, c, key), Inner(b, key)))
            && (ProvenanceOf(a + b + c, |a| + k) == ProvenanceOf(b, k)
                <==> !Traced(b[k].row) || EventUnmoved(Outer(a, c, key), Inner(b, key)))
  {
    hide MarginOf, TheEvent, MarginUnmoved, EventUnmoved, Inner, Outer;
    var row := b[k].row;
    CutsKeepTheEventIff(a, b, c, row.key);
    CutsKeepTheMarginIff(a, b, c, row.key);
    assert (a + b + c)[|a| + k] == b[k];
    var whole, own := TheEvent(a + b + c, row.key), TheEvent(b, row.key);
    assert IncrementOf(a + b + c, |a| + k)[0].margin == MarginOf(whole) && IncrementOf(b, k)[0].margin == MarginOf(own);
    if Traced(row) {
      assert ProvenanceOf(a + b + c, |a| + k)[0].event == whole && ProvenanceOf(b, k)[0].event == own;
    }
  }

  // ---- the loops ----

  predicate Indexed(lines: seq<Line>, n: nat, byKey: map<Key, Row>, ambiguous: set<Key>, key: Key)
    requires n <= |lines|
  {
    var found := EventsWith(lines, n, key);
    && (key in byKey <==> |found| > 0)
    && (|found| > 0 ==> byKey[key] == found[0])
    && (key in ambiguous <==> |found| > 1)
  }

  method IndexEvents(lines: seq<Line>) returns (byKey: map<Key, Row>, ambiguous: set<Key>)
    ensures forall key :: Indexed(lines, |lines|, byKey, ambiguous, key)
  {
    byKey, ambiguous := map[], {};
    for i := 0 to |lines|
      invariant forall key :: Indexed(lines, i, byKey, ambiguous, key)
    {
      var row := lines[i].row;
      ghost var byKey0, ambiguous0 := byKey, ambiguous;
      if row.EventRow? {
        assert Indexed(lines, i, byKey, ambiguous, row.key);
        if row.key in byKey {
          ambiguous := ambiguous + {row.key};
        } else {
          byKey := byKey[row.key := row];
        }
      }
      ghost var n := i + 1;
      forall key ensures Indexed(lines, n, byKey, ambiguous, key) {
        assert Indexed(lines, i, byKey0, ambiguous0, key);
      }
    }
  }

  method ChunkInto(kind: Kind, items: seq<Item>, ops: seq<Op>) returns (r: seq<Op>)
    ensures r == ops + Chunks(kind, items)
  {
    r := ops;
    var i: nat := 0;
    while i < |items|
      invariant i <= |items| || i < |items| + BATCH
      invariant r + Chunks(kind, if i <= |items| then items[i..] else []) == ops + Chunks(kind, items)
    {
      var end := if i + BATCH <= |items| then i + BATCH else |items|;   // a slice stops at the end of the list
      ghost var left := items[i..];
      if |left| > BATCH {
        assert left[..BATCH] == items[i..end] && left[BATCH..] == items[end..];
      } else {
        assert left == items[i..end];
      }
      r := r + [Op(kind, items[i..end], false)];
      i := i + BATCH;
    }
  }

  method LookUp(byKey: map<Key, Row>, ambiguous: set<Key>, key: Key, ghost lines: seq<Line>) returns (event: Option<Row>)
    requires Indexed(lines, |lines|, byKey, ambiguous, key)
    ensures event == TheEvent(lines, key)
  {
    event := if key in ambiguous then None else if key in byKey then Some(byKey[key]) else None;
  }

  /** The second pass: the three lists, and how many events and attributions there were. */
  method Collect(lines: seq<Line>) returns (events: seq<Item>, attribs: seq<Item>, provenance: seq<Item>, nEvents: nat, nAttribs: nat)
    ensures events == Collected(Events, lines, |lines|) && nEvents == |events|
    ensures attribs == Collected(Increment, lines, |lines|) && nAttribs == |attribs|
    ensures provenance == Collected(Provenance, lines, |lines|)
  {
    hide TheEvent, EventsWith, Indexed, MarginOf;
    var byKey, ambiguous := IndexEvents(lines);
    events, attribs, provenance, nEvents, nAttribs := [], [], [], 0, 0;
    for i := 0 to |lines|
      invariant events == Collected(Events, lines, i) && nEvents == |events|
      invariant attribs == Collected(Increment, lines, i) && nAttribs == |attribs|
      invariant provenance == Collected(Provenance, lines, i)
    {
      var row := lines[i].row;
      if row.EventRow? {
        events := events + [EventItem(lines[i].id, row)];
        nEvents := nEvents + 1;
      } else if row.AttributionRow? {
        assert Indexed(lines, |lines|, byKey, ambiguous, row.key);
        var event := LookUp(byKey, ambiguous, row.key, lines);
        attribs := attribs + [IncrementItem(lines[i].id, row.target, MarginOf(event))];
        if row.manifest != "" && row.orig.Some? && row.corrected.Some? {
          provenance := provenance + [ProvenanceItem(row, MarginOf(event), event)];
        }
        nAttribs := nAttribs + 1;
      }
    }
  }

  method BuildOperations(lines: seq<Line>) returns (ops: seq<Op>, nEvents: nat, nAttribs: nat, nProvenance: nat)
    ensures ops == BuildOps(lines)
    ensures nEvents == |Collected(Events, lines, |lines|)|
    ensures nAttribs == |Collected(Increment, lines, |lines|)|
    ensures nProvenance == |Collected(Provenance, lines, |lines|)|
  {
    hide Chunks, Collected;
    var events, attribs, provenance;
    events, attribs, provenance, nEvents, nAttribs := Collect(lines);
    ops := ChunkInto(Events, events, []);
    ghost var first := ops;
    for i := 0 to |attribs|
      invariant ops == first + Singles(attribs)[..i]
    {
      ops := ops + [Op(Increment, [attribs[i]], false)];
    }
    assert Singles(attribs)[..|attribs|] == Singles(attribs);
    ops := ChunkInto(Provenance, provenance, ops);
    nProvenance := |provenance|;
  }
}
