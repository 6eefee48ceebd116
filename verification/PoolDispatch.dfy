/**
 The nine entry points that share one job record. A field an entry point does not set keeps
 whatever an earlier call left there, so what the workers do depends on the calls before.
 `View` is what q4_run_range would read; each entry point is proved to make it what its own
 arguments mean, after any sequence of earlier calls. The one exception is the batched g64
 call handed the g256 width: it reads the subcode an earlier call left behind, and calls a null
 pointer when there was no such call.
 */
module PoolDispatch {
  import opened Common

  const BITS_G256SF := 246
  const BATCH_MAX := 64

  /** Buffers are named by handles; the scratch buffers belong to the pool. */
  type Handle = nat
  const XQ_SCRATCH: Handle := 1
  const XQ_SPLIT: Handle := 2
  const ASCALE_SCRATCH: Handle := 3
  const NULL: Handle := 0

  datatype Job = Job(packed: Handle, scales: Handle, x: Handle, bias: Handle, y: Handle,
                     out: nat, inDim: nat, ng: nat, bits: int, m: nat, rowBytes: nat,
                     fused: bool, sdot: bool, sdotb: bool, xq: Handle, ascale: Handle, subcode: Handle,
                     g256: bool)   // g256: the two g256 kernel pointers are set

  /** Weights, bias, output and shape: what every kernel reads. */
  datatype Operands = Operands(packed: Handle, scales: Handle, bias: Handle, y: Handle, out: nat, inDim: nat)

  /** A kernel together with the fields it reads. */
  datatype Work =
    | Plain(o: Operands, ng: nat, rowBytes: nat, eightBit: bool, x: Handle, m: nat)     // unpack a row, one dot product per column
    | Fused(o: Operands, ng: nat, rowBytes: nat, x: Handle)
    | SdotRow(o: Operands, ng: nat, rowBytes: nat, eightBit: bool, xq: Handle, ascale: Handle)
    | SdotTile(o: Operands, ng: nat, rowBytes: nat, eightBit: bool, xq: Handle, ascale: Handle, m: nat)
    | NullCall(o: Operands)                                                            // a g256 kernel pointer that is still zero
    | G256Row(o: Operands, ng: nat, rowBytes: nat, subcode: Handle, xq: Handle, ascale: Handle)
    | G256Tile(o: Operands, ng: nat, rowBytes: nat, subcode: Handle, xq: Handle, ascale: Handle, m: nat)

  /** The branch q4_run_range takes, with the fields it reads there. */
  function View(j: Job): Work {
    var o := Operands(j.packed, j.scales, j.bias, j.y, j.out, j.inDim);
    if j.sdot then
      if j.bits == BITS_G256SF then
        if !j.g256 && j.out > 0 then NullCall(o)   // without rows nothing is called
        else if j.sdotb then G256Tile(o, j.ng, j.rowBytes, j.subcode, j.xq, j.ascale, j.m)
        else G256Row(o, j.ng, j.rowBytes, j.subcode, j.xq, j.ascale)
      else if j.sdotb then SdotTile(o, j.ng, j.rowBytes, j.bits == 8, j.xq, j.ascale, j.m)
      else SdotRow(o, j.ng, j.rowBytes, j.bits == 8, j.xq, j.ascale)
    else if j.fused then Fused(o, j.ng, j.rowBytes, j.x)
    else Plain(o, j.ng, j.rowBytes, j.bits == 8, j.x, j.m)
  }

  function WithOperands(j: Job, o: Operands, x: Handle): Job {
    j.(packed := o.packed, scales := o.scales, x := x, bias := o.bias, y := o.y, out := o.out, inDim := o.inDim)
  }

  datatype Call =
    | GemvQ4(o: Operands, x: Handle)
    | GemvQ4Fused(o: Operands, x: Handle)
    | GemvQ4Sdot(o: Operands, x: Handle)
    | GemvQ8Sdot(o: Operands, x: Handle)
    | GemvQ8(o: Operands, x: Handle)
    | Gemm(o: Operands, bits: int, x: Handle, m: nat)
    | GemmSdot(o: Operands, bits: int, xq: Handle, ascale: Handle, m: nat)
    | GemvG256(o: Operands, subcode: Handle, x: Handle)
    | GemmG256(o: Operands, subcode: Handle, xq: Handle, ascale: Handle, m: nat)

  function BytesPerRow(bits: int, inDim: nat): nat {
    if bits == 8 then inDim else inDim / 2
  }

  /** What a call asks for, from its own arguments alone; None is a FATAL argument check. */
  function Meaning(c: Call, maxIn: nat): Option<Work> {
    var o := c.o;
    var g64, g256, four := o.inDim / 64, o.inDim / 256, BytesPerRow(4, o.inDim);
    if o.inDim > maxIn then None
    else
      match c
      case GemvQ4(_, x) => Some(Plain(o, g64, four, false, x, 1))
      case GemvQ4Fused(_, x) => Some(Fused(o, g64, four, x))
      case GemvQ4Sdot(_, x) => Some(SdotRow(o, g64, four, false, XQ_SPLIT, ASCALE_SCRATCH))
      case GemvQ8Sdot(_, x) => Some(SdotRow(o, g64, o.inDim, true, XQ_SCRATCH, ASCALE_SCRATCH))
      case GemvQ8(_, x) => Some(Plain(o, g64, o.inDim, true, x, 1))
      case Gemm(_, bits, x, m) => Some(Plain(o, g64, BytesPerRow(bits, o.inDim), bits == 8, x, m))
      case GemmSdot(_, bits, xq, ascale, m) =>
        if m < 1 || m > BATCH_MAX then None
        else Some(SdotTile(o, g64, BytesPerRow(bits, o.inDim), bits == 8, xq, ascale, m))
      case GemvG256(_, subcode, x) =>
        if o.inDim % 256 != 0 then None else Some(G256Row(o, g256, four, subcode, XQ_SPLIT, ASCALE_SCRATCH))
      case GemmG256(_, subcode, xq, ascale, m) =>
        if o.inDim % 256 != 0 || m < 1 || m > BATCH_MAX then None
        else Some(G256Tile(o, g256, four, subcode, xq, ascale, m))
  }

  /** The batched g64 call with the width that is reserved for g256 weights. */
  predicate SentinelWidth(c: Call) {
    c.GemmSdot? && c.bits == BITS_G256SF
  }

  /** What a call runs when `last` is the subcode of the last g256 call that went through the record, if any. */
  function Performed(c: Call, last: Option<Handle>, maxIn: nat): Option<Work> {
    if SentinelWidth(c) && Meaning(c, maxIn).Some? then
      if last.None? && c.o.out > 0 then Some(NullCall(c.o))
      else Some(G256Tile(c.o, c.o.inDim / 64, c.o.inDim / 2, if last.Some? then last.value else NULL, c.xq, c.ascale, c.m))
    else Meaning(c, maxIn)
  }

  /** A call runs what its arguments mean, whatever came before, if and only if it is refused or its width is not the reserved one. */
  lemma {:induction false} MeantIff(c: Call, maxIn: nat)
    ensures (forall last :: Performed(c, last, maxIn) == Meaning(c, maxIn)) <==> !SentinelWidth(c) || Meaning(c, maxIn).None?
    ensures (forall l1, l2 :: Performed(c, l1, maxIn) == Performed(c, l2, maxIn)) <==> !SentinelWidth(c) || Meaning(c, maxIn).None?
  {
    if SentinelWidth(c) && Meaning(c, maxIn).Some? {
      assert Performed(c, Some(1), maxIn).value.subcode != Performed(c, Some(2), maxIn).value.subcode;
      assert Performed(c, Some(1), maxIn).value.G256Tile? && Meaning(c, maxIn).value.SdotTile?;
    }
  }

  /** It calls a null pointer if and only if it is that call, is not refused, has a row to compute, and no g256 call went before. */
  lemma {:induction false} NullCallIff(c: Call, last: Option<Handle>, maxIn: nat)
    ensures (Performed(c, last, maxIn).Some? && Performed(c, last, maxIn).value.NullCall?)
      <==> SentinelWidth(c) && c.o.inDim <= maxIn && 1 <= c.m <= BATCH_MAX && c.o.out > 0 && last.None?
  {
  }

  /** Installs the g256 kernels and its subcode in the record. */
  predicate Installs(c: Call, nthreads: nat) {
    c.GemmG256? || (c.GemvG256? && nthreads != 1)
  }

  /** The subcode the record holds after these calls: that of the last g256 call that went through the record. */
  function LastSubcode(calls: seq<Call>, nthreads: nat): Option<Handle> {
    if calls == [] then None
    else
      var c := calls[|calls| - 1];
      if Installs(c, nthreads) then Some(c.subcode) else LastSubcode(calls[..|calls| - 1], nthreads)
  }

  lemma {:induction false} LastSubcodeNext(calls: seq<Call>, i: nat, nthreads: nat)
    requires i < |calls|
    ensures LastSubcode(calls[..i + 1], nthreads)
      == if Installs(calls[i], nthreads) then Some(calls[i].subcode) else LastSubcode(calls[..i], nthreads)
  {
    assert calls[..i + 1][..i] == calls[..i];
  }

  /** What is refused does not depend on the record, nor does what any but the sentinel call runs. */
  lemma {:induction false} PerformedMeans(c: Call, last: Option<Handle>, maxIn: nat)
    ensures Performed(c, last, maxIn).None? <==> Meaning(c, maxIn).None?
    ensures Meaning(c, maxIn).Some? ==> (Performed(c, last, maxIn) == Meaning(c, maxIn) <==> !SentinelWidth(c))
  {
  }

  class Q4Pool {
    const nthreads: nat
    const maxIn: nat
    var job: Job

    constructor (nthreads: nat, maxIn: nat)
      ensures Clean() && this.maxIn == maxIn && this.nthreads == nthreads && Last() == None
    {
      this.nthreads, this.maxIn := nthreads, maxIn;
      job := Job(NULL, NULL, NULL, NULL, NULL, 0, 0, 0, 0, 0, 0, false, false, false, NULL, NULL, NULL, false);
    }

    /** Between calls both sdot flags are clear, and the subcode is set with the kernels; nothing else is promised. */
    predicate Clean()
      reads this
    {
      !job.sdot && !job.sdotb && (!job.g256 ==> job.subcode == NULL)
    }

    function Last(): Option<Handle>
      reads this
    {
      if job.g256 then Some(job.subcode) else None
    }

    /** All threads run q4_run_range on the job record. */
    method GoAndWait() returns (w: Work)
      ensures w == View(job)
    {
      w := View(job);
    }

    method CallGemvQ4(o: Operands, x: Handle) returns (r: Option<Work>)
      requires Clean()
      modifies `job
      ensures Clean() && r == Meaning(GemvQ4(o, x), maxIn) && Last() == old(Last())
    {
      if o.inDim > maxIn { return None; }
      if nthreads == 1 { return Some(Plain(o, o.inDim / 64, o.inDim / 2, false, x, 1)); }
      job := WithOperands(job, o, x);
      job := job.(ng := o.inDim / 64, bits := 4, m := 1, rowBytes := o.inDim / 2, fused := false, sdot := false);
      var w := GoAndWait();
      r := Some(w);
    }

    method CallGemvQ4Fused(o: Operands, x: Handle) returns (r: Option<Work>)
      requires Clean()
      modifies `job
      ensures Clean() && r == Meaning(GemvQ4Fused(o, x), maxIn) && Last() == old(Last())
    {
      if o.inDim > maxIn { return None; }
      if nthreads == 1 { return Some(Fused(o, o.inDim / 64, o.inDim / 2, x)); }
      job := WithOperands(job, o, x);
      job := job.(ng := o.inDim / 64, bits := 4, m := 1, rowBytes := o.inDim / 2, fused := true);
      var w := GoAndWait();
      r := Some(w);
    }

    method CallGemvQ4Sdot(o: Operands, x: Handle) returns (r: Option<Work>)
      requires Clean()
      modifies `job
      ensures Clean() && r == Meaning(GemvQ4Sdot(o, x), maxIn) && Last() == old(Last())
    {
      if o.inDim > maxIn { return None; }
      if nthreads == 1 { return Some(SdotRow(o, o.inDim / 64, o.inDim / 2, false, XQ_SPLIT, ASCALE_SCRATCH)); }
      job := WithOperands(job, o, x);
      job := job.(ng := o.inDim / 64, bits := 4, m := 1, rowBytes := o.inDim / 2, fused := false);
      job := job.(sdot := true, xq := XQ_SPLIT, ascale := ASCALE_SCRATCH);
      var w := GoAndWait();
      assert w == SdotRow(o, o.inDim / 64, o.inDim / 2, false, XQ_SPLIT, ASCALE_SCRATCH);
      job := job.(sdot := false);
      r := Some(w);
    }

    method CallGemvQ8Sdot(o: Operands, x: Handle) returns (r: Option<Work>)
      requires Clean()
      modifies `job
      ensures Clean() && r == Meaning(GemvQ8Sdot(o, x), maxIn) && Last() == old(Last())
    {
      if o.inDim > maxIn { return None; }
      if nthreads == 1 { return Some(SdotRow(o, o.inDim / 64, o.inDim, true, XQ_SCRATCH, ASCALE_SCRATCH)); }
      job := WithOperands(job, o, x);
      job := job.(ng := o.inDim / 64, bits := 8, m := 1, rowBytes := o.inDim, fused := false);
      job := job.(sdot := true, xq := XQ_SCRATCH, ascale := ASCALE_SCRATCH);
      var w := GoAndWait();
      assert w == SdotRow(o, o.inDim / 64, o.inDim, true, XQ_SCRATCH, ASCALE_SCRATCH);
      job := job.(sdot := false);
      r := Some(w);
    }

    method CallGemvQ8(o: Operands, x: Handle) returns (r: Option<Work>)
      requires Clean()
      modifies `job
      ensures Clean() && r == Meaning(GemvQ8(o, x), maxIn) && Last() == old(Last())
    {
      if o.inDim > maxIn { return None; }
      if nthreads == 1 { return Some(Plain(o, o.inDim / 64, o.inDim, true, x, 1)); }
      job := WithOperands(job, o, x);
      job := job.(ng := o.inDim / 64, bits := 8, m := 1, rowBytes := o.inDim, fused := false);
      var w := GoAndWait();
      r := Some(w);
    }

    method CallGemm(o: Operands, width: int, x: Handle, cols: nat) returns (r: Option<Work>)
      requires Clean()
      modifies `job
      ensures Clean() && r == Meaning(Gemm(o, width, x, cols), maxIn) && Last() == old(Last())
    {
      if o.inDim > maxIn { return None; }
      job := WithOperands(job, o, x);
      job := job.(ng := o.inDim / 64, bits := width, m := cols, rowBytes := if width == 8 then o.inDim else o.inDim / 2, fused := false);
      var w := GoAndWait();   // with one thread: q4_run_range(p, 0) on the same record
      r := Some(w);
    }

    method CallGemmSdot(o: Operands, width: int, xq: Handle, ascale: Handle, cols: nat) returns (r: Option<Work>)
      requires Clean()
      modifies `job
      ensures Clean() && Last() == old(Last())
      ensures r == Performed(GemmSdot(o, width, xq, ascale, cols), old(Last()), maxIn)
    {
      if o.inDim > maxIn { return None; }
      if cols < 1 || cols > BATCH_MAX { return None; }
      job := WithOperands(job, o, NULL);
      job := job.(ng := o.inDim / 64, bits := width, m := cols, rowBytes := if width == 8 then o.inDim else o.inDim / 2, fused := false);
      job := job.(sdot := true, sdotb := true, xq := xq, ascale := ascale);
      var w := GoAndWait();
      assert Some(w) == Performed(GemmSdot(o, width, xq, ascale, cols), Last(), maxIn);
      job := job.(sdot := false, sdotb := false);
      r := Some(w);
    }

    method CallGemvG256(o: Operands, subcode: Handle, x: Handle) returns (r: Option<Work>)
      requires Clean()
      modifies `job
      ensures Clean() && r == Meaning(GemvG256(o, subcode, x), maxIn)
      ensures r.Some? ==> Last() == if nthreads == 1 then old(Last()) else Some(subcode)
    {
      if o.inDim > maxIn { return None; }
      if o.inDim % 256 != 0 { return None; }
      if nthreads == 1 { return Some(G256Row(o, o.inDim / 256, o.inDim / 2, subcode, XQ_SPLIT, ASCALE_SCRATCH)); }
      job := WithOperands(job, o, x);
      job := job.(subcode := subcode, g256 := true);
      job := job.(ng := o.inDim / 256, bits := BITS_G256SF, m := 1, rowBytes := o.inDim / 2, fused := false);
      job := job.(sdot := true, sdotb := false, xq := XQ_SPLIT, ascale := ASCALE_SCRATCH);
      var w := GoAndWait();
      assert w == G256Row(o, o.inDim / 256, o.inDim / 2, subcode, XQ_SPLIT, ASCALE_SCRATCH);
      job := job.(sdot := false);
      r := Some(w);
    }

    method CallGemmG256(o: Operands, subcode: Handle, xq: Handle, ascale: Handle, cols: nat) returns (r: Option<Work>)
      requires Clean()
      modifies `job
      ensures Clean() && r == Meaning(GemmG256(o, subcode, xq, ascale, cols), maxIn)
      ensures r.Some? ==> Last() == Some(subcode)
    {
      if o.inDim > maxIn { return None; }
      if o.inDim % 256 != 0 { return None; }
      if cols < 1 || cols > BATCH_MAX { return None; }
      job := WithOperands(job, o, NULL);
      job := job.(subcode := subcode, g256 := true);
      job := job.(ng := o.inDim / 256, bits := BITS_G256SF, m := cols, rowBytes := o.inDim / 2, fused := false);
      job := job.(sdot := true, sdotb := true, xq := xq, ascale := ascale);
      var w := GoAndWait();
      assert w == G256Tile(o, o.inDim / 256, o.inDim / 2, subcode, xq, ascale, cols);
      job := job.(sdot := false, sdotb := false);
      r := Some(w);
    }

    method Perform(c: Call) returns (r: Option<Work>)
      requires Clean()
      modifies `job
      ensures Clean() && r == Performed(c, old(Last()), maxIn)
      ensures r.Some? ==> Last() == if Installs(c, nthreads) then Some(c.subcode) else old(Last())
    {
      match c {
        case GemvQ4(o, x) => r := CallGemvQ4(o, x);
        case GemvQ4Fused(o, x) => r := CallGemvQ4Fused(o, x);
        case GemvQ4Sdot(o, x) => r := CallGemvQ4Sdot(o, x);
        case GemvQ8Sdot(o, x) => r := CallGemvQ8Sdot(o, x);
        case GemvQ8(o, x) => r := CallGemvQ8(o, x);
        case Gemm(o, b, x, cols) => r := CallGemm(o, b, x, cols);
        case GemmSdot(o, b, q, a, cols) => r := CallGemmSdot(o, b, q, a, cols);
        case GemvG256(o, s, x) => r := CallGemvG256(o, s, x);
        case GemmG256(o, s, q, a, cols) => r := CallGemmG256(o, s, q, a, cols);
      }
    }
  }

  /**
   Any sequence of calls on a fresh pool, up to the first FATAL check or null call. Each one runs
   what its own arguments mean, except that a sentinel-width call reads the subcode of the last
   g256 call, or calls a null pointer when there was none.
   */
  method PerformAll(nthreads: nat, maxIn: nat, calls: seq<Call>) returns (works: seq<Work>)
    ensures |works| <= |calls|
    ensures forall i :: 0 <= i < |works| ==> Some(works[i]) == Performed(calls[i], LastSubcode(calls[..i], nthreads), maxIn)
    ensures forall i :: 0 <= i < |works| ==> (Some(works[i]) == Meaning(calls[i], maxIn) <==> !SentinelWidth(calls[i]))
    ensures forall i :: 0 <= i < |works| - 1 ==> !works[i].NullCall?
    ensures |works| < |calls| ==> (|works| > 0 && works[|works| - 1].NullCall?) || Meaning(calls[|works|], maxIn).None?
  {
    hide Performed, Meaning, LastSubcode, Installs, SentinelWidth;
    var p := new Q4Pool(nthreads, maxIn);
    works := [];
    assert LastSubcode(calls[..0], nthreads) == None by { NoCalls(nthreads); assert calls[..0] == []; }
    for i := 0 to |calls|
      invariant p.Clean() && |works| == i && fresh(p) && p.Last() == LastSubcode(calls[..i], nthreads)
      invariant p.nthreads == nthreads && p.maxIn == maxIn
      invariant forall k :: 0 <= k < i ==> Some(works[k]) == Performed(calls[k], LastSubcode(calls[..k], nthreads), maxIn)
      invariant forall k :: 0 <= k < i ==> (Some(works[k]) == Meaning(calls[k], maxIn) <==> !SentinelWidth(calls[k]))
      invariant forall k :: 0 <= k < i ==> !works[k].NullCall?
    {
      PerformedMeans(calls[i], p.Last(), maxIn);
      LastSubcodeNext(calls, i, nthreads);
      var r := p.Perform(calls[i]);
      if r.None? {
        return;
      }
      works := works + [r.value];
      if r.value.NullCall? {
        return;
      }
    }
  }

  lemma {:induction false} NoCalls(nthreads: nat)
    ensures LastSubcode([], nthreads) == None
  {
  }

  /** The bits of a weight in the kernel a work item names. */
  function WeightBits(w: Work): nat {
    if w.G256Row? || w.G256Tile? || w.Fused? then 4
    else if w.Plain? || w.SdotRow? || w.SdotTile? then if w.eightBit then 8 else 4
    else 0
  }

  /**
   What a call means is a kernel that fits its operands: a row of weights fills row_bytes, the scales are
   one to 64 elements, or to 256 for the g256 kernels, and 8-bit weights are read where the call says so.
   */
  lemma {:induction false} MeaningFits(c: Call, maxIn: nat)
    requires Meaning(c, maxIn).Some? && c.o.inDim % 64 == 0
    ensures var w := Meaning(c, maxIn).value;
            && !w.NullCall? && w.o == c.o && c.o.inDim <= maxIn
            && 8 * w.rowBytes == c.o.inDim * WeightBits(w)
            && w.ng * (if w.G256Row? || w.G256Tile? then 256 else 64) == c.o.inDim
            && (WeightBits(w) == 8 <==> c.GemvQ8? || c.GemvQ8Sdot? || ((c.Gemm? || c.GemmSdot?) && c.bits == 8))
  {
  }

  /** Each call's kernel and activations: floats for the plain and fused ones, the pool's quantized scratch for one column, split only for 4-bit weights, and the caller's columns otherwise. */
  lemma {:induction false} MeaningReads(c: Call, maxIn: nat)
    requires Meaning(c, maxIn).Some?
    ensures var w := Meaning(c, maxIn).value;
            match c
            case GemvQ4(_, x) => w.Plain? && w.x == x && w.m == 1
            case GemvQ4Fused(_, x) => w.Fused? && w.x == x
            case GemvQ4Sdot(_, _) => w.SdotRow? && w.xq == 2 && w.ascale == 3
            case GemvQ8Sdot(_, _) => w.SdotRow? && w.xq == 1 && w.ascale == 3
            case GemvQ8(_, x) => w.Plain? && w.x == x && w.m == 1
            case Gemm(_, _, x, m) => w.Plain? && w.x == x && w.m == m
            case GemmSdot(_, _, xq, a, m) => w.SdotTile? && w.xq == xq && w.ascale == a && w.m == m && 1 <= m <= 64
            case GemvG256(_, sub, _) => w.G256Row? && w.subcode == sub && w.xq == 2 && w.ascale == 3 && c.o.inDim % 256 == 0
            case GemmG256(_, sub, xq, a, m) => w.G256Tile? && w.subcode == sub && w.xq == xq && w.ascale == a && w.m == m && 1 <= m <= 64
  {
  }

  /** A call is refused if and only if its rows are too long, they are not whole groups of 256 where these are needed, or it has no column or more than 64. */
  lemma {:induction false} RefusedIff(c: Call, maxIn: nat)
    ensures Meaning(c, maxIn).None? <==>
      || c.o.inDim > maxIn
      || ((c.GemvG256? || c.GemmG256?) && c.o.inDim % 256 != 0)
      || ((c.GemmSdot? || c.GemmG256?) && (c.m < 1 || c.m > 64))
  {
  }

  /** The reserved width. */
  lemma {:induction false} SentinelIs(c: Call)
    ensures SentinelWidth(c) <==> c.GemmSdot? && c.bits == 246
  {
  }
}
