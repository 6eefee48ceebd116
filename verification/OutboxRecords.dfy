/**
 Which bytes of the log become records, without the rules that find them: a record is a maximal
 stretch without line breaks that holds something other than white space.
 */
module OutboxRecords {
  import opened Common
  import opened OutboxLog
  import opened OutboxOps
  import opened Outbox
  import opened OutboxProof
  import opened OutboxSafety

  /** Line feed or carriage return: what bytes.splitlines breaks at. */
  predicate Break(b: Byte) {
    b == 10 || b == 13
  }

  /** Tab, line feed, vertical tab, form feed, carriage return or space: what bytes.strip removes. */
  predicate White(b: Byte) {
    b == 9 || b == 10 || b == 11 || b == 12 || b == 13 || b == 32
  }

  /** log[start..end] is a maximal stretch of log[lo..hi] without a line break. */
  predicate Stretch(log: Bytes, lo: nat, hi: nat, start: nat, end: nat) {
    && lo <= start <= end <= hi <= |log|
    && (forall k :: start <= k < end ==> !Break(log[k]))
    && (start == lo || Break(log[start - 1])) && (end == hi || Break(log[end]))
  }

  /** r is such a stretch, byte for byte, and holds a byte that is not white. */
  predicate RecordOf(log: Bytes, lo: nat, hi: nat, r: Record) {
    && Stretch(log, lo, hi, r.start, r.start + |r.raw|) && r.raw == log[r.start..r.start + |r.raw|]
    && exists k :: 0 <= k < |r.raw| && !White(r.raw[k])
  }

  /** The first line: its text, and where the next one starts. */
  lemma {:induction false} FirstLine(log: Bytes, lo: nat, i: nat, hi: nat) returns (e: nat)
    requires lo <= i < hi <= |log| && forall k :: lo <= k < i ==> !Break(log[k])
    ensures i <= e <= LineEnd(log, i, hi)
    ensures Stretch(log, lo, hi, lo, e)
    ensures forall k :: e <= k < LineEnd(log, i, hi) ==> Break(log[k])
    ensures LineEnd(log, i, hi) < hi ==> Break(log[LineEnd(log, i, hi) - 1])
    decreases hi - i
  {
    if log[i] == LF || log[i] == CR {
      e := i;
    } else if i + 1 == hi {
      e := hi;
    } else {
      e := FirstLine(log, lo, i + 1, hi);
    }
  }

  lemma {:induction false} Trimmed(s: Bytes, e: nat)
    requires e <= |s| && (forall k :: 0 <= k < e ==> !Break(s[k])) && forall k :: e <= k < |s| ==> Break(s[k])
    ensures WithoutNewlines(s) == s[..e]
    decreases |s|
  {
    if e < |s| {
      var t := s[..|s| - 1];
      Trimmed(t, e);
      assert t[..e] == s[..e];
    }
  }

  lemma {:induction false} BlankIsWhite(s: Bytes)
    ensures Blank(s) <==> forall k :: 0 <= k < |s| ==> White(s[k])
  {
    assert forall k :: 0 <= k < |s| ==> (Space(s[k]) <==> White(s[k]));
  }

  /** The records are exactly these stretches. */
  lemma {:induction false} RecordIff(log: Bytes, lo: nat, hi: nat, r: Record)
    requires lo <= hi <= |log|
    ensures r in Records(log, lo, hi) <==> RecordOf(log, lo, hi, r)
    decreases hi - lo
  {
    if lo < hi {
      var n := LineEnd(log, lo, hi);
      var e := FirstLine(log, lo, lo, hi);
      var line := log[lo..n];
      Trimmed(line, e - lo);
      var raw := WithoutNewlines(line);
      assert raw == log[lo..e];
      BlankIsWhite(raw);
      RecordIff(log, n, hi, r);
      RecordsShift(log, lo, hi);
      hide Records, WithoutNewlines, LineEnd, Blank;
      if r.start == lo {
        FirstStretch(log, lo, hi, e, r);
        RecordsInOrder(log, n, hi);
        assert r in Records(log, n, hi) ==> StartsIn(r, n, hi);
        if r.raw == raw {
          assert RecordOf(log, lo, hi, r) <==> !Blank(raw);
        }
        assert r in Records(log, lo, hi) <==> r == Record(lo, raw) && !Blank(raw);
      } else {
        LaterStretch(log, lo, hi, e, n, r);
      }
    }
  }

  lemma {:induction false} SameEnd(log: Bytes, lo: nat, hi: nat, start: nat, end: nat, end': nat)
    requires Stretch(log, lo, hi, start, end) && Stretch(log, lo, hi, start, end')
    ensures end == end'
  {
  }

  /** A stretch that starts at lo is the first line. */
  lemma {:induction false} FirstStretch(log: Bytes, lo: nat, hi: nat, e: nat, r: Record)
    requires Stretch(log, lo, hi, lo, e) && r.start == lo
    ensures RecordOf(log, lo, hi, r) ==> r.raw == log[lo..e]
    ensures r.raw == log[lo..e] ==> Stretch(log, lo, hi, lo, lo + |r.raw|)
  {
    if RecordOf(log, lo, hi, r) {
      SameEnd(log, lo, hi, lo, e, lo + |r.raw|);
    }
  }

  /** A record that starts later lies behind the first line. */
  lemma {:induction false} LaterStretch(log: Bytes, lo: nat, hi: nat, e: nat, n: nat, r: Record)
    requires Stretch(log, lo, hi, lo, e) && lo < n <= hi && e <= n && r.start != lo
    requires (forall k :: e <= k < n ==> Break(log[k])) && (n < hi ==> Break(log[n - 1]))
    ensures RecordOf(log, lo, hi, r) <==> RecordOf(log, n, hi, r)
  {
    if RecordOf(log, lo, hi, r) {
      assert Break(log[r.start - 1]) && !Break(log[r.start]);
      assert r.start > e;
    }
  }

  // ---- nothing but white space is dropped ----

  predicate Contains(r: Record, i: nat) {
    r.start <= i < r.start + |r.raw|
  }

  lemma {:induction false} StretchAround(log: Bytes, lo: nat, hi: nat, i: nat) returns (start: nat, end: nat)
    requires lo <= i < hi <= |log| && !Break(log[i])
    ensures start <= i < end && Stretch(log, lo, hi, start, end)
  {
    start, end := i, i + 1;
    while start > lo && !Break(log[start - 1])
      invariant lo <= start <= i && forall k :: start <= k <= i ==> !Break(log[k])
    {
      start := start - 1;
    }
    while end < hi && !Break(log[end])
      invariant i < end <= hi && forall k :: start <= k < end ==> !Break(log[k])
    {
      end := end + 1;
    }
  }

  /** Every byte that is not white lies in exactly one record, at its own place. */
  lemma {:induction false} ByteIsKept(log: Bytes, lo: nat, hi: nat, i: nat) returns (r: Record)
    requires lo <= i < hi <= |log| && !White(log[i])
    ensures r in Records(log, lo, hi) && Contains(r, i)
    ensures r.start + |r.raw| <= |log| && r.raw == log[r.start..r.start + |r.raw|]
    ensures forall q :: q in Records(log, lo, hi) && Contains(q, i) ==> q == r
  {
    var start, end := StretchAround(log, lo, hi, i);
    r := Record(start, log[start..end]);
    assert !White(r.raw[i - start]);
    RecordIff(log, lo, hi, r);
    forall q | q in Records(log, lo, hi) && Contains(q, i) ensures q == r {
      RecordIff(log, lo, hi, q);
      OneStretch(log, lo, hi, i, start, end, q.start, q.start + |q.raw|);
    }
  }

  lemma {:induction false} OneStretch(log: Bytes, lo: nat, hi: nat, i: nat, start: nat, end: nat, start': nat, end': nat)
    requires Stretch(log, lo, hi, start, end) && Stretch(log, lo, hi, start', end')
    requires start <= i < end && start' <= i < end'
    ensures start == start' && end == end'
  {
  }

  /**
   No byte below the checkpoint is dropped unless it is white: it lies in a record that parsed, and
   what that record asks for has taken effect exactly once.
   */
  lemma {:induction false} NothingIsDropped(e: Env, s: State, n: nat, i: nat) returns (r: Record)
    requires InjectiveHash(e) && ReachableIn(e, s, n) && i < s.offset <= |s.log| && !White(s.log[i])
    ensures r in Records(s.log, 0, s.offset) && Contains(r, i) && r.start + |r.raw| <= s.offset
    ensures r.raw == s.log[r.start..r.start + |r.raw|] && e.parse(r.raw).Some?
    ensures e.parse(r.raw).value.OtherRow? || TakenOnce(e, s, r)
    ensures Traced(e.parse(r.raw).value) ==> ConflictKey(e.parse(r.raw).value) in s.server.provenance
  {
    hide InjectiveHash, ReachableIn, TakenOnce, Traced, ConflictKey, Records;
    r := ByteIsKept(s.log, 0, s.offset, i);
    RecordIff(s.log, 0, s.offset, r);
    CommittedExactlyOnce(e, s, n, r);
  }

  // ---- the seed of a key ----

  /** The number a decimal text stands for. */
  function Number(d: Bytes): int {
    if d == [] then 0 else 10 * Number(d[..|d| - 1]) + (d[|d| - 1] as int - 48)
  }

  /** str(cursor): the digits read back as the offset, without leading zeros. */
  lemma {:induction false} DecimalReads(n: nat)
    ensures Number(Decimal(n)) == n
    ensures n > 0 ==> Decimal(n)[0] != 48
    ensures n == 0 ==> Decimal(n) == [48]
  {
    var d := Decimal(n);
    if n >= 10 {
      DecimalReads(n / 10);
      assert d[..|d| - 1] == Decimal(n / 10);
      assert d[0] == Decimal(n / 10)[0];
    } else {
      assert d[..0] == [];
    }
  }

  /** The seed is the path, a colon, the offset and a colon, with the record's own bytes at the end. */
  lemma {:induction false} SeedParts(path: Bytes, r: Record)
    ensures var s, d := Seed(path, r), Decimal(r.start);
            && |s| == |path| + 1 + |d| + 1 + |r.raw|
            && s[..|path|] == path && s[|path|] == 58 && s[|path| + 1..|path| + 1 + |d|] == d
            && s[|path| + 1 + |d|] == 58 && s[|path| + 2 + |d|..] == r.raw
  {
  }

  // ---- what has taken effect, item by item ----

  /** The id the server knows a record by. */
  function KeyOf(e: Env, r: Record): Id {
    e.hash(e.path + [58] + Decimal(r.start) + [58] + r.raw)
  }

  /** An event below the checkpoint stands in the table exactly once, as it was logged. */
  lemma {:induction false} EventStandsOnce(e: Env, s: State, n: nat, r: Record) returns (i: nat)
    requires InjectiveHash(e) && ReachableIn(e, s, n)
    requires s.offset <= |s.log| && r in Records(s.log, 0, s.offset) && e.parse(r.raw).Some? && e.parse(r.raw).value.EventRow?
    ensures i < |s.server.effects| && s.server.effects[i] == EventItem(KeyOf(e, r), e.parse(r.raw).value)
    ensures forall j :: 0 <= j < |s.server.effects| && s.server.effects[j].EventItem? && s.server.effects[j].id == KeyOf(e, r) ==> j == i
  {
    hide InjectiveHash, ReachableIn, Records, Contributed;
    CommittedExactlyOnce(e, s, n, r);
    i :| 0 <= i < |s.server.effects| && TakenAt(e, s, r, i);
    forall j | 0 <= j < |s.server.effects| && s.server.effects[j].EventItem? && s.server.effects[j].id == KeyOf(e, r) ensures j == i {
      assert HasKeyOf(e, s.server.effects[j], r);
    }
  }

  /**
   An attribution below the checkpoint has been counted exactly once, for its own target, and with the
   margin of the one event of its batch that has its key.
   */
  lemma {:induction false} AttributionCountsOnce(e: Env, s: State, n: nat, r: Record) returns (i: nat, b: nat)
    requires InjectiveHash(e) && ReachableIn(e, s, n)
    requires s.offset <= |s.log| && r in Records(s.log, 0, s.offset) && e.parse(r.raw).Some? && e.parse(r.raw).value.AttributionRow?
    ensures b + 1 < |s.cuts| && BatchAt(e, s.log, s.cuts, b) && r in Records(s.log, s.cuts[b], s.cuts[b + 1])
    ensures var row, lines := e.parse(r.raw).value, LinesOf(e, Records(s.log, s.cuts[b], s.cuts[b + 1]));
            && i < |s.server.effects|
            && s.server.effects[i] == IncrementItem(KeyOf(e, r), row.target, MarginOf(TheEvent(lines, row.key)))
    ensures forall j :: 0 <= j < |s.server.effects| && s.server.effects[j].IncrementItem? && s.server.effects[j].id == KeyOf(e, r) ==> j == i
  {
    hide InjectiveHash, ReachableIn, Records, TheEvent, MarginOf, AllParse;
    CommittedExactlyOnce(e, s, n, r);
    var k :| 0 <= k < |s.server.effects| && TakenAt(e, s, r, k);
    i := k;
    var x := s.server.effects[i];
    var j :| 0 <= j < |s.cuts| - 1 && ContributedAt(e, s.log, s.cuts, j, r, x);
    b := j;
    var recs := Records(s.log, s.cuts[b], s.cuts[b + 1]);
    var m: nat :| m < |recs| && recs[m] == r && Contributes(LinesOf(e, recs), m, x);
    forall c | 0 <= c < |s.server.effects| && s.server.effects[c].IncrementItem? && s.server.effects[c].id == KeyOf(e, r) ensures c == i {
      assert HasKeyOf(e, s.server.effects[c], r);
    }
  }

  // ---- reading and starting ----

  /**
   The three outcomes of the reader: a log below the checkpoint, a record that does not parse, or
   the records of everything up to the last line feed, with their ids.
   */
  lemma {:induction false} ReadingIs(e: Env, log: Bytes, offset: nat)
    ensures ReadSpec(e, log, offset).Shrunk? <==> |log| < offset
    ensures offset <= |log| ==>
      exists end: nat ::
        && offset <= end <= |log| && (end > offset ==> log[end - 1] == 10) && (forall k :: end <= k < |log| ==> log[k] != 10)
        && var recs := Records(log, offset, end);
        if forall i :: 0 <= i < |recs| ==> e.parse(recs[i].raw).Some?
        then
          && ReadSpec(e, log, offset).Rows? && ReadSpec(e, log, offset).end == end
          && ReadSpec(e, log, offset).complete == log[offset..end] && |ReadSpec(e, log, offset).rows| == |recs|
          && forall i :: 0 <= i < |recs| ==> ReadSpec(e, log, offset).rows[i] == Line(KeyOf(e, recs[i]), e.parse(recs[i].raw).value)
        else ReadSpec(e, log, offset).BadRecord?
  {
    hide Records;
    if offset <= |log| {
      var end := LastCut(log, offset, |log|);
      assert offset <= end <= |log|;
    }
  }

  /** Without an outbox a run begins work if and only if the reader finds records, and its outbox is made of just these. */
  lemma {:induction false} StartIs(e: Env, s: State)
    requires s.outbox.None?
    ensures var reading := ReadSpec(e, s.log, s.offset);
            && (Opened(e, s) == Idle <==> !reading.Rows? || reading.rows == [])
            && (reading.Rows? && reading.rows != [] ==>
                  Opened(e, s) == Writing(Outbox(s.offset, reading.end, e.hash(reading.complete), BuildOps(reading.rows))))
  {
    hide ReadSpec, BuildOps;
  }
}
