/** What is sent for a batch, record by record and request by request, and when an outbox is resumed. */
module OutboxMeaning {
  import opened Common
  import opened OutboxLog
  import opened OutboxOps
  import opened Outbox

  // ---- the event of an attribution ----

  predicate IsEvent(lines: seq<Line>, k: nat, key: Key) {
    k < |lines| && lines[k].row.EventRow? && lines[k].row.key == key
  }

  /** Record k is the only event of the first n records with this key. */
  ghost predicate OnlyEvent(lines: seq<Line>, n: nat, key: Key, k: nat) {
    k < n && IsEvent(lines, k, key) && forall j :: 0 <= j < n && IsEvent(lines, j, key) ==> j == k
  }

  lemma {:induction false} NoEvents(lines: seq<Line>, n: nat, key: Key)
    requires n <= |lines|
    ensures EventsWith(lines, n, key) == [] <==> forall j :: 0 <= j < n ==> !IsEvent(lines, j, key)
  {
    if n > 0 {
      NoEvents(lines, n - 1, key);
      var row := lines[n - 1].row;
      assert IsEvent(lines, n - 1, key) <==> row.EventRow? && row.key == key;
    }
  }

  lemma {:induction false} OneOfThem(lines: seq<Line>, n: nat, key: Key, k: nat)
    requires n <= |lines| && OnlyEvent(lines, n, key, k)
    ensures EventsWith(lines, n, key) == [lines[k].row]
  {
    if k < n - 1 {
      assert !IsEvent(lines, n - 1, key);
      OneOfThem(lines, n - 1, key, k);
    } else {
      NoEvents(lines, n - 1, key);
    }
  }

  lemma {:induction false} TheOneEvent(lines: seq<Line>, n: nat, key: Key) returns (k: nat)
    requires n <= |lines| && |EventsWith(lines, n, key)| == 1
    ensures OnlyEvent(lines, n, key, k) && EventsWith(lines, n, key) == [lines[k].row]
  {
    if IsEvent(lines, n - 1, key) {
      k := n - 1;
      assert EventsWith(lines, n - 1, key) == [];
      NoEvents(lines, n - 1, key);
    } else {
      k := TheOneEvent(lines, n - 1, key);
    }
  }

  /** An event is found for a key if and only if it is the only one of the batch that has the key. */
  lemma {:induction false} TheEventIff(lines: seq<Line>, key: Key, row: Row)
    ensures TheEvent(lines, key) == Some(row) <==> exists k: nat :: OnlyEvent(lines, |lines|, key, k) && lines[k].row == row
  {
    if TheEvent(lines, key) == Some(row) {
      var k := TheOneEvent(lines, |lines|, key);
    }
    if k: nat :| OnlyEvent(lines, |lines|, key, k) && lines[k].row == row {
      OneOfThem(lines, |lines|, key, k);
    }
  }

  /**
   What record k is sent as. An event: itself, under its id. An attribution: an increment with
   the margin of its event, and a provenance row when a manifest and both tokens are there.
   Anything else: nothing.
   */
  lemma {:induction false} RecordIsSentAs(lines: seq<Line>, k: nat, x: Item)
    requires k < |lines|
    ensures Contributes(lines, k, x) <==>
      match lines[k].row
      case EventRow(_, _, _) => x == EventItem(lines[k].id, lines[k].row)
      case AttributionRow(key, target, manifest, orig, corrected, _) =>
        var event := TheEvent(lines, key);
        var margin := if event.Some? && event.value.EventRow? then event.value.margin else None;
        || x == IncrementItem(lines[k].id, target, margin)
        || (manifest != "" && orig.Some? && corrected.Some? && x == ProvenanceItem(lines[k].row, margin, event))
      case OtherRow => false
  {
    hide TheEvent;
  }

  /** Rows overwrite each other if and only if all nine columns agree. */
  lemma {:induction false} NineColumns(a: Row, b: Row)
    requires a.AttributionRow? && b.AttributionRow?
    ensures ConflictKey(a) == ConflictKey(b) <==>
      && a.target.model == b.target.model && a.target.corpus == b.target.corpus
      && a.target.role == b.target.role && a.target.layer == b.target.layer
      && a.manifest == b.manifest && a.key.req == b.key.req && a.key.pos == b.key.pos
      && a.orig == b.orig && a.corrected == b.corrected
      && a.key.model == b.key.model && a.key.corpus == b.key.corpus
  {
  }

  // ---- requests ----

  function Flatten(ops: seq<Op>): seq<Item> {
    if ops == [] then [] else ops[0].items + Flatten(ops[1..])
  }

  lemma {:induction false} FlattenFirst(op: Op, ops: seq<Op>)
    ensures Flatten([op] + ops) == op.items + Flatten(ops)
  {
    assert ([op] + ops)[1..] == ops;
  }

  lemma {:induction false} FlattenConcat(a: seq<Op>, b: seq<Op>)
    ensures Flatten(a + b) == Flatten(a) + Flatten(b)
    decreases |a|
  {
    if a == [] {
      assert a + b == b;
    } else {
      var op, rest := a[0], a[1..];
      FlattenConcat(rest, b);
      hide Flatten;
      assert a == [op] + rest && a + b == [op] + (rest + b);
      FlattenFirst(op, rest);
      FlattenFirst(op, rest + b);
      Regroup(op.items, Flatten(rest), Flatten(b));
    }
  }

  lemma {:induction false} Regroup(x: seq<Item>, y: seq<Item>, z: seq<Item>)
    ensures x + (y + z) == (x + y) + z
  {
  }

  /** All items in order, twenty to a request and the rest in the last one. */
  lemma {:induction false} ChunksAre(kind: Kind, items: seq<Item>)
    ensures var ops := Chunks(kind, items);
            && Flatten(ops) == items
            && (forall i :: 0 <= i < |ops| ==> ops[i].kind == kind && !ops[i].done)
            && (forall i :: 0 <= i < |ops| - 1 ==> |ops[i].items| == 20)
            && (ops != [] ==> 1 <= |ops[|ops| - 1].items| <= 20)
    decreases |items|
  {
    var ops := Chunks(kind, items);
    if items == [] {
    } else if |items| <= 20 {
      assert ops == [Op(kind, items, false)];
      assert ops[1..] == [] && Flatten([]) == [];
    } else {
      ChunksAre(kind, items[20..]);
      assert ops == [Op(kind, items[..20], false)] + Chunks(kind, items[20..]);
      assert ops[1..] == Chunks(kind, items[20..]);
      assert items == items[..20] + items[20..];
    }
  }

  lemma {:induction false} SinglesAre(items: seq<Item>)
    ensures Flatten(Singles(items)) == items
    ensures forall i :: 0 <= i < |Singles(items)| ==> Singles(items)[i] == Op(Increment, [items[i]], false)
    decreases |items|
  {
    if items != [] {
      SinglesAre(items[1..]);
      assert Singles(items)[1..] == Singles(items[1..]);
      assert items == [items[0]] + items[1..];
    }
  }

  function Turn(kind: Kind): nat {
    match kind case Events => 0 case Increment => 1 case Provenance => 2
  }

  /** All events, then all increments, then all provenance rows, each in the order of the records. */
  lemma {:induction false} RequestsInOrder(lines: seq<Line>)
    ensures Flatten(BuildOps(lines))
         == Collected(Events, lines, |lines|) + Collected(Increment, lines, |lines|) + Collected(Provenance, lines, |lines|)
    ensures forall i, j :: 0 <= i < j < |BuildOps(lines)| ==> Turn(BuildOps(lines)[i].kind) <= Turn(BuildOps(lines)[j].kind)
  {
    hide Collected, Chunks, Singles, Flatten;
    var n := |lines|;
    var a, b, c := Collected(Events, lines, n), Collected(Increment, lines, n), Collected(Provenance, lines, n);
    ChunksAre(Events, a);
    SinglesAre(b);
    ChunksAre(Provenance, c);
    FlattenConcat(Chunks(Events, a) + Singles(b), Chunks(Provenance, c));
    FlattenConcat(Chunks(Events, a), Singles(b));
  }

  lemma {:induction false} EarlierFirst(kind: Kind, lines: seq<Line>, k: nat, n: nat)
    requires k < n <= |lines|
    ensures Collected(kind, lines, k) + ItemsOf(kind, lines, k) <= Collected(kind, lines, n)
    decreases n
  {
    hide ItemsOf;
    if k < n - 1 {
      EarlierFirst(kind, lines, k, n - 1);
    }
  }

  // ---- the guard of a resumed outbox ----

  /**
   Whatever happened to the log, even bytes lost or changed, an outbox built from `was` is resumed
   if and only if it starts at the checkpoint and the log still holds the bytes it was built from.
   */
  lemma {:induction false} ResumesIffSameBytes(e: Env, s: State, ob: Outbox, was: Bytes)
    requires InjectiveHash(e) && s.outbox == Some(ob) && ob.start < ob.end <= |was| && ob.digest == e.hash(was[ob.start..ob.end])
    ensures Opened(e, s).Working? <==> ob.start == s.offset && ob.end <= |s.log| && s.log[ob.start..ob.end] == was[ob.start..ob.end]
    ensures Opened(e, s).Working? || Opened(e, s).Idle?
  {
    if ob.start == s.offset {
      var hi := if ob.end <= |s.log| then ob.end else |s.log|;
      if s.offset <= hi && e.hash(s.log[s.offset..hi]) == ob.digest {
        assert s.log[s.offset..hi] == was[ob.start..ob.end];
        assert hi - s.offset == ob.end - ob.start;
      }
    }
  }
}
