/**
 From the bytes of an append-only log to the operations one push has to perform: cutting the
 new bytes at the last newline, splitting them into records, giving every record an
 idempotency key, and grouping what the records ask for into batches.
 */
module OutboxLog {
  import opened Common

  const LF: Byte := 10
  const CR: Byte := 13
  const COLON: Byte := 58
  const BATCH := 20

  type Id = nat

  datatype Key = Key(model: string, corpus: string, req: int, pos: int)
  datatype Target = Target(model: string, corpus: string, role: string, layer: int)

  /** A parsed record; `rest` stands for the fields that are only carried along. */
  datatype Row =
    | EventRow(key: Key, margin: Option<real>, rest: Bytes)
    | AttributionRow(key: Key, target: Target, manifest: string, orig: Option<int>, corrected: Option<int>, rest: Bytes)
    | OtherRow

  /**
   The file's absolute path, SHA-256, and the JSON parser; None is any exception a record can
   raise while it is read or turned into operations. `strict`: the database refuses an upsert that
   names one row twice, as PostgreSQL does.
   */
  datatype Env = Env(path: Bytes, hash: Bytes -> Id, parse: Bytes -> Option<Row>, strict: bool)

  ghost predicate InjectiveHash(e: Env) {
    forall a, b :: e.hash(a) == e.hash(b) ==> a == b
  }

  datatype Record = Record(start: nat, raw: Bytes)
  datatype Line = Line(id: Id, row: Row)

  // ---- lines ----

  /** The end of the line that starts at i, terminator included: LF, CR LF, a lone CR, or the end of the data. */
  function LineEnd(log: Bytes, i: nat, hi: nat): (r: nat)
    requires i < hi <= |log|
    ensures i < r <= hi
    decreases hi - i
  {
    if log[i] == LF then i + 1
    else if log[i] == CR then if i + 1 < hi && log[i + 1] == LF then i + 2 else i + 1
    else if i + 1 == hi then hi
    else LineEnd(log, i + 1, hi)
  }

  function WithoutNewlines(s: Bytes): Bytes {
    if |s| > 0 && (s[|s| - 1] == LF || s[|s| - 1] == CR) then WithoutNewlines(s[..|s| - 1]) else s
  }

  predicate Space(b: Byte) {
    b == 32 || 9 <= b <= 13
  }

  predicate Blank(s: Bytes) {
    forall k :: 0 <= k < |s| ==> Space(s[k])
  }

  /** The non-blank records of log[lo..hi], with absolute start offsets. */
  function Records(log: Bytes, lo: nat, hi: nat): seq<Record>
    requires lo <= hi <= |log|
    decreases hi - lo
  {
    if lo == hi then []
    else
      var n := LineEnd(log, lo, hi);
      var raw := WithoutNewlines(log[lo..n]);
      (if Blank(raw) then [] else [Record(lo, raw)]) + Records(log, n, hi)
  }

  /** A place where a line ends: the start of the log or just after a newline. */
  predicate Boundary(log: Bytes, p: nat) {
    p <= |log| && (p > 0 ==> log[p - 1] == LF)
  }

  lemma {:induction false} LineEndStable(log: Bytes, more: Bytes, i: nat, hi: nat)
    requires i < hi <= |log|
    ensures LineEnd(log + more, i, hi) == LineEnd(log, i, hi)
    decreases hi - i
  {
    if log[i] == LF || log[i] == CR || i + 1 == hi {
    } else {
      LineEndStable(log, more, i + 1, hi);
    }
  }

  /** Appending to the log changes no record that was already complete. */
  lemma {:induction false} RecordsStable(log: Bytes, more: Bytes, lo: nat, hi: nat)
    requires lo <= hi <= |log|
    ensures Records(log + more, lo, hi) == Records(log, lo, hi)
    decreases hi - lo
  {
    if lo == hi {
    } else {
      LineEndStable(log, more, lo, hi);
      var n := LineEnd(log, lo, hi);
      assert (log + more)[lo..n] == log[lo..n];
      RecordsStable(log, more, n, hi);
    }
  }

  lemma {:induction false} LineEndsAtBoundary(log: Bytes, i: nat, mid: nat, hi: nat)
    requires i < mid <= hi <= |log|
    requires Boundary(log, mid)
    ensures LineEnd(log, i, hi) == LineEnd(log, i, mid)
    decreases mid - i
  {
    if log[i] == LF || log[i] == CR {
    } else {
      LineEndsAtBoundary(log, i + 1, mid, hi);
    }
  }

  /** Wherever the log is cut after a newline, the records, their offsets and their bytes are the same. */
  lemma {:induction false} CutsDoNotMatter(log: Bytes, lo: nat, mid: nat, hi: nat)
    requires lo <= mid <= hi <= |log|
    requires Boundary(log, mid)
    ensures Records(log, lo, hi) == Records(log, lo, mid) + Records(log, mid, hi)
    decreases mid - lo
  {
    if lo == mid {
    } else {
      LineEndsAtBoundary(log, lo, mid, hi);
      CutsDoNotMatter(log, LineEnd(log, lo, mid), mid, hi);
    }
  }

  predicate StartsIn(r: Record, lo: nat, hi: nat) {
    lo <= r.start < hi
  }

  /** Records start inside their range, in increasing order. */
  lemma {:induction false} RecordsInOrder(log: Bytes, lo: nat, hi: nat)
    requires lo <= hi <= |log|
    ensures forall k :: 0 <= k < |Records(log, lo, hi)| ==> StartsIn(Records(log, lo, hi)[k], lo, hi)
    ensures forall j, k :: 0 <= j < k < |Records(log, lo, hi)|
              ==> Records(log, lo, hi)[j].start < Records(log, lo, hi)[k].start
    decreases hi - lo
  {
    if lo == hi {
    } else {
      var n := LineEnd(log, lo, hi);
      RecordsInOrder(log, n, hi);
      var rest := Records(log, n, hi);
      forall k | 0 <= k < |rest| ensures StartsIn(rest[k], n, hi) {
      }
    }
  }

  // ---- idempotency keys ----

  function Decimal(n: nat): (d: Bytes)
    ensures |d| > 0
    ensures forall k :: 0 <= k < |d| ==> 48 <= d[k] < 58
  {
    if n < 10 then [48 + n] else Decimal(n / 10) + [48 + n % 10]
  }

  function Seed(path: Bytes, r: Record): Bytes {
    path + [COLON] + Decimal(r.start) + [COLON] + r.raw
  }

  function IdOf(e: Env, r: Record): Id {
    e.hash(Seed(e.path, r))
  }

  lemma {:induction false} DecimalInjective(a: nat, b: nat)
    requires Decimal(a) == Decimal(b)
    ensures a == b
  {
    var d, f := Decimal(a), Decimal(b);
    if a < 10 && b < 10 {
      assert d[0] == f[0];
    } else if a >= 10 && b >= 10 {
      assert d[|d| - 1] == f[|f| - 1];
      assert d[..|d| - 1] == Decimal(a / 10) && f[..|f| - 1] == Decimal(b / 10);
      DecimalInjective(a / 10, b / 10);
    }
  }

  /** The decimal offset holds no colon, so path, offset and bytes can be read back from the seed. */
  lemma {:induction false} SeedInjective(path: Bytes, r: Record, q: Record)
    requires Seed(path, r) == Seed(path, q)
    ensures r == q
  {
    var a, b := Decimal(r.start), Decimal(q.start);
    var s := Seed(path, r)[|path| + 1..];
    assert s == a + [COLON] + r.raw;
    assert s == b + [COLON] + q.raw;
    assert s[|a|] == COLON && s[|b|] == COLON;
    assert forall k :: 0 <= k < |a| ==> s[k] == a[k] != COLON;
    assert forall k :: 0 <= k < |b| ==> s[k] == b[k] != COLON;
    assert s[..|a|] == a && s[..|b|] == b;
    DecimalInjective(r.start, q.start);
    assert s[|a| + 1..] == r.raw && s[|b| + 1..] == q.raw;
  }

  /** Different records have different keys. */
  lemma {:induction false} IdInjective(e: Env, r: Record, q: Record)
    requires InjectiveHash(e)
    requires IdOf(e, r) == IdOf(e, q)
    ensures r == q
  {
    assert Seed(e.path, r) == Seed(e.path, q);
    SeedInjective(e.path, r, q);
  }

  /** A collision-free hash: the bytes as digits 1 to 256 of a number to the base 257. */
  function Digits(b: Bytes): Id {
    if b == [] then 0 else 257 * Digits(b[1..]) + b[0] + 1
  }

  lemma {:induction false} DigitsInjective(a: Bytes, b: Bytes)
    requires Digits(a) == Digits(b)
    ensures a == b
  {
    if a != [] && b != [] {
      DivMod(Digits(a), 257, Digits(a[1..]), a[0] as int + 1);
      DivMod(Digits(b), 257, Digits(b[1..]), b[0] as int + 1);
      DigitsInjective(a[1..], b[1..]);
      assert a == [a[0]] + a[1..] && b == [b[0]] + b[1..];
    }
  }

  /** An injective hash exists whatever the path and the parser, so results about one are not empty. */
  lemma {:induction false} InjectiveHashExists(path: Bytes, parse: Bytes -> Option<Row>, strict: bool) returns (e: Env)
    ensures InjectiveHash(e) && e.path == path && e.parse == parse && e.strict == strict
  {
    e := Env(path, Digits, parse, strict);
    forall a, b | e.hash(a) == e.hash(b) ensures a == b {
      DigitsInjective(a, b);
    }
  }

  // ---- reading the new part of the log ----

  predicate AllParse(e: Env, recs: seq<Record>) {
    forall k :: 0 <= k < |recs| ==> e.parse(recs[k].raw).Some?
  }

  function LineOf(e: Env, r: Record): Line
    requires e.parse(r.raw).Some?
  {
    Line(IdOf(e, r), e.parse(r.raw).value)
  }

  function LinesOf(e: Env, recs: seq<Record>): seq<Line>
    requires AllParse(e, recs)
  {
    seq(|recs|, k requires 0 <= k < |recs| => LineOf(e, recs[k]))
  }

  datatype Reading = Shrunk | BadRecord | Rows(rows: seq<Line>, end: nat, complete: Bytes)

  /** Just after the last newline of the log, or `offset` when none follows it. */
  function LastCut(log: Bytes, offset: nat, hi: nat): (c: nat)
    requires offset <= hi <= |log|
    ensures offset <= c <= hi
    ensures c > offset ==> log[c - 1] == LF
    ensures forall k :: c <= k < hi ==> log[k] != LF
  {
    if hi == offset then offset
    else if log[hi - 1] == LF then hi
    else LastCut(log, offset, hi - 1)
  }

  function ReadSpec(e: Env, log: Bytes, offset: nat): Reading {
    if |log| < offset then Shrunk
    else
      var cut := LastCut(log, offset, |log|);
      var recs := Records(log, offset, cut);
      if !AllParse(e, recs) then BadRecord
      else Rows(LinesOf(e, recs), cut, log[offset..cut])
  }

  lemma {:induction false} RecordsShift(log: Bytes, lo: nat, hi: nat)
    requires lo < hi <= |log|
    ensures var n := LineEnd(log, lo, hi);
            var raw := WithoutNewlines(log[lo..n]);
            Records(log, lo, hi) == (if Blank(raw) then [] else [Record(lo, raw)]) + Records(log, n, hi)
  {
  }

  lemma {:induction false} NoRecordsAt(log: Bytes, p: nat)
    requires p <= |log|
    ensures Records(log, p, p) == []
  {
  }

  lemma {:induction false} NoLines(e: Env)
    ensures AllParse(e, []) && LinesOf(e, []) == []
  {
  }

  lemma {:induction false} LinesGrow(e: Env, seen: seq<Record>, r: Record)
    requires AllParse(e, seen) && e.parse(r.raw).Some?
    ensures AllParse(e, seen + [r]) && LinesOf(e, seen + [r]) == LinesOf(e, seen) + [LineOf(e, r)]
  {
  }

  lemma {:induction false} BadRecordFound(e: Env, whole: seq<Record>, seen: seq<Record>, r: Record, rest: seq<Record>)
    requires whole == seen + ([r] + rest) && e.parse(r.raw).None?
    ensures !AllParse(e, whole)
  {
    assert whole[|seen|] == r;
  }

  /** data.rfind(LF) + 1, from the end backwards. */
  method CutAtNewline(log: Bytes, offset: nat) returns (cut: nat)
    requires offset <= |log|
    ensures cut == LastCut(log, offset, |log|)
  {
    cut := |log|;
    while cut > offset && log[cut - 1] != LF
      invariant offset <= cut <= |log|
      invariant LastCut(log, offset, |log|) == LastCut(log, offset, cut)
    {
      cut := cut - 1;
    }
  }

  /** The records of log[offset..cut], parsed; None at the first one that does not parse. */
  method ReadLines(e: Env, log: Bytes, offset: nat, cut: nat) returns (r: Option<seq<Line>>)
    requires offset <= cut <= |log|
    ensures var recs := Records(log, offset, cut);
            r == if AllParse(e, recs) then Some(LinesOf(e, recs)) else None
  {
    hide LineEnd, WithoutNewlines, Blank, Seed, Records, AllParse, LinesOf;
    NoLines(e);
    var rows: seq<Line> := [];
    var cursor := offset;
    ghost var seen: seq<Record> := [];
    ghost var whole := Records(log, offset, cut);
    while cursor < cut
      invariant offset <= cursor <= cut
      invariant whole == seen + Records(log, cursor, cut)
      invariant AllParse(e, seen) && rows == LinesOf(e, seen)
    {
      RecordsShift(log, cursor, cut);
      var next := LineEnd(log, cursor, cut);
      var raw := WithoutNewlines(log[cursor..next]);
      if !Blank(raw) {
        ghost var r, rest := Record(cursor, raw), Records(log, next, cut);
        match e.parse(raw) {
          case None =>
            BadRecordFound(e, whole, seen, r, rest);
            return None;
          case Some(row) =>
            LinesGrow(e, seen, r);
            rows := rows + [Line(e.hash(Seed(e.path, Record(cursor, raw))), row)];
            assert whole == (seen + [r]) + rest;
            seen := seen + [r];
        }
      }
      cursor := next;
    }
    NoRecordsAt(log, cut);
    assert whole == seen;
    r := Some(rows);
  }

  method ReadCompleteRecords(e: Env, log: Bytes, offset: nat) returns (r: Reading)
    ensures r == ReadSpec(e, log, offset)
  {
    hide Records, LinesOf, AllParse;
    if |log| < offset {
      return Shrunk;
    }
    var cut := CutAtNewline(log, offset);
    var rows := ReadLines(e, log, offset, cut);
    r := match rows case None => BadRecord case Some(lines) => Rows(lines, cut, log[offset..cut]);
  }
}
