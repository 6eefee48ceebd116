/**
 Continuous batching over a ragged key/value cache: a step carries columns of many requests at
 different positions, writes each column's entry at its own (slot, pos), and lets the column
 attend over its slot's window under a mask. Attention and feed-forward are uninterpreted.
 */
module RaggedCache {
  import opened Common

  const MAX_COLUMNS := 64

  /**
   `kv(l, x, p)` is the key/value entry of hidden row x at position p in layer l; `block` is the
   rest of the layer, given the entries the column may see.
   */
  datatype Model<!H, !E> = Model(layers: nat, slots: nat, maxpos: nat,
                                 kv: (nat, H, nat) -> E, block: (nat, H, nat, seq<E>) -> H)

  datatype Column = Column(slot: nat, pos: nat)

  // ---- one request on its own ----

  /** The hidden row of position p below layer l, for a request with inputs h and a growing history. */
  function Hidden<H, E>(m: Model<H, E>, h: seq<H>, l: nat, p: nat): H
    requires p < |h|
    decreases l, 0
  {
    if l == 0 then h[p] else m.block(l - 1, Hidden(m, h, l - 1, p), p, History(m, h, l - 1, p + 1))
  }

  /** The entries of the first n positions in layer l. */
  function History<H, E>(m: Model<H, E>, h: seq<H>, l: nat, n: nat): seq<E>
    requires n <= |h|
    decreases l, 1
  {
    seq(n, j requires 0 <= j < n => m.kv(l, Hidden(m, h, l, j), j))
  }

  /** What happens at a position depends on the inputs up to it and on nothing later. */
  lemma {:induction false} HiddenOfPrefix<H, E>(m: Model<H, E>, h: seq<H>, g: seq<H>, l: nat, p: nat)
    requires p < |h| && p < |g| && h[..p + 1] == g[..p + 1]
    ensures Hidden(m, h, l, p) == Hidden(m, g, l, p)
    decreases l
  {
    if l == 0 {
      assert h[p] == h[..p + 1][p] && g[p] == g[..p + 1][p];
    } else {
      HiddenOfPrefix(m, h, g, l - 1, p);
      var k := l - 1;
      forall j | 0 <= j < p + 1 ensures Hidden(m, h, k, j) == Hidden(m, g, k, j) {
        assert h[..j + 1] == h[..p + 1][..j + 1] && g[..j + 1] == g[..p + 1][..j + 1];
        HiddenOfPrefix(m, h, g, k, j);
      }
      assert History(m, h, l - 1, p + 1) == History(m, g, l - 1, p + 1);
    }
  }

  // ---- the cache ----

  predicate Shape<E>(layer: seq<seq<E>>, slots: nat, maxpos: nat) {
    |layer| == slots && forall s :: 0 <= s < slots ==> |layer[s]| == maxpos
  }

  predicate InCache(cols: seq<Column>, slots: nat, maxpos: nat) {
    forall i :: 0 <= i < |cols| ==> cols[i].slot < slots && cols[i].pos < maxpos
  }

  predicate Distinct(cols: seq<Column>) {
    forall i, j :: 0 <= i < j < |cols| ==> cols[i] != cols[j]
  }

  /** mx::scatter of n entries, each to its own (slot, pos). */
  function Scatter<E>(layer: seq<seq<E>>, cols: seq<Column>, es: seq<E>, slots: nat, maxpos: nat, n: nat): (r: seq<seq<E>>)
    requires Shape(layer, slots, maxpos) && InCache(cols, slots, maxpos) && n <= |cols| == |es|
    ensures Shape(r, slots, maxpos)
  {
    if n == 0 then layer
    else
      var prev := Scatter(layer, cols, es, slots, maxpos, n - 1);
      var c := cols[n - 1];
      prev[c.slot := prev[c.slot][c.pos := es[n - 1]]]
  }

  lemma {:induction false} ScatterWrites<E>(layer: seq<seq<E>>, cols: seq<Column>, es: seq<E>, slots: nat, maxpos: nat, n: nat, i: nat)
    requires Shape(layer, slots, maxpos) && InCache(cols, slots, maxpos) && i < n <= |cols| == |es| && Distinct(cols)
    ensures Scatter(layer, cols, es, slots, maxpos, n)[cols[i].slot][cols[i].pos] == es[i]
  {
    if i < n - 1 {
      ScatterWrites(layer, cols, es, slots, maxpos, n - 1, i);
      assert cols[i] != cols[n - 1];
    }
  }

  lemma {:induction false} ScatterKeeps<E>(layer: seq<seq<E>>, cols: seq<Column>, es: seq<E>, slots: nat, maxpos: nat, n: nat, s: nat, p: nat)
    requires Shape(layer, slots, maxpos) && InCache(cols, slots, maxpos) && n <= |cols| == |es|
    requires s < slots && p < maxpos && Column(s, p) !in cols
    ensures Scatter(layer, cols, es, slots, maxpos, n)[s][p] == layer[s][p]
  {
    if n > 0 {
      ScatterKeeps(layer, cols, es, slots, maxpos, n - 1, s, p);
      assert cols[n - 1] in cols;
    }
  }

  /** Row m of the mask lets through the positions up to spos[m]. */
  function Mask(pos: nat, maxpos: nat): seq<bool> {
    seq(maxpos, j requires 0 <= j < maxpos => j <= pos)
  }

  /** The entries of a window that the mask lets through, in order. */
  function Unmasked<E>(window: seq<E>, mask: seq<bool>): seq<E>
    requires |window| == |mask|
  {
    if window == [] then []
    else Unmasked(window[..|window| - 1], mask[..|mask| - 1]) + (if mask[|mask| - 1] then [window[|window| - 1]] else [])
  }

  lemma {:induction false} UnmaskedIsPrefix<E>(window: seq<E>, mask: seq<bool>, pos: nat)
    requires |window| == |mask| && forall j :: 0 <= j < |mask| ==> (mask[j] <==> j <= pos)
    ensures Unmasked(window, mask) == if pos + 1 <= |window| then window[..pos + 1] else window
  {
    if window != [] {
      var w, k := window[..|window| - 1], mask[..|mask| - 1];
      UnmaskedIsPrefix(w, k, pos);
      if pos + 1 < |window| {
        assert w[..pos + 1] == window[..pos + 1];
      } else {
        assert window == w + [window[|w|]];
      }
    }
  }

  // ---- the calling discipline ----

  /**
   The step turns the requests' inputs `hist` (one request per slot) into `hist'`: it carries
   exactly one column for every position that is new, several for one slot if need be, and a
   position without a column is carried over together with everything before it. A slot that
   starts over at position 0 is a new request.
   */
  ghost predicate StepOk<H>(hist: seq<seq<H>>, hist': seq<seq<H>>, cols: seq<Column>, xs: seq<H>, slots: nat, maxpos: nat) {
    && |hist| == slots && |hist'| == slots && 1 <= |cols| == |xs| <= MAX_COLUMNS && Distinct(cols)
    && (forall s :: 0 <= s < slots ==> |hist'[s]| <= maxpos)
    && (forall i :: 0 <= i < |cols| ==> Carries(hist', cols[i], xs[i]))
    && (forall s, p :: 0 <= s < slots && 0 <= p < |hist'[s]| && Column(s, p) !in cols ==> CarriedOver(hist[s], hist'[s], p))
  }

  predicate Carries<H(==)>(hist': seq<seq<H>>, c: Column, x: H) {
    c.slot < |hist'| && c.pos < |hist'[c.slot]| && hist'[c.slot][c.pos] == x
  }

  predicate CarriedOver<H(==)>(h: seq<H>, h': seq<H>, p: nat) {
    p < |h| && p < |h'| && h'[..p + 1] == h[..p + 1]
  }

  /** The column that uses a slot, when at most one does. */
  function ColumnFor(cols: seq<Column>, s: nat): Option<nat> {
    if cols == [] then None
    else if cols[|cols| - 1].slot == s then Some(|cols| - 1)
    else ColumnFor(cols[..|cols| - 1], s)
  }

  lemma {:induction false} ColumnForFinds(cols: seq<Column>, s: nat)
    ensures match ColumnFor(cols, s)
            case Some(i) => i < |cols| && cols[i].slot == s
            case None => forall i :: 0 <= i < |cols| ==> cols[i].slot != s
  {
    if cols != [] {
      ColumnForFinds(cols[..|cols| - 1], s);
    }
  }

  /** The inputs after a decode step: a column at position 0 starts a new request, any other extends its own. */
  function Advanced<H>(hist: seq<seq<H>>, cols: seq<Column>, xs: seq<H>): seq<seq<H>>
    requires |cols| == |xs|
  {
    seq(|hist|, s requires 0 <= s < |hist| => NextInputs(hist[s], cols, xs, s))
  }

  function NextInputs<H>(h: seq<H>, cols: seq<Column>, xs: seq<H>, s: nat): seq<H>
    requires |cols| == |xs|
  {
    ColumnForFinds(cols, s);
    match ColumnFor(cols, s)
    case None => h
    case Some(i) => if cols[i].pos == 0 then [xs[i]] else h + [xs[i]]
  }

  /** A request starts at position 0 and advances by one; slots within a step are distinct. */
  predicate DecodeStep<H>(hist: seq<seq<H>>, cols: seq<Column>) {
    && (forall i, j :: 0 <= i < j < |cols| ==> cols[i].slot != cols[j].slot)
    && (forall i :: 0 <= i < |cols| ==> cols[i].slot < |hist| && (cols[i].pos == 0 || cols[i].pos == |hist[cols[i].slot]|))
  }

  lemma {:induction false} DecodeStepOk<H>(hist: seq<seq<H>>, cols: seq<Column>, xs: seq<H>, maxpos: nat)
    requires 1 <= |cols| == |xs| <= MAX_COLUMNS && DecodeStep(hist, cols) && InCache(cols, |hist|, maxpos)
    requires forall s :: 0 <= s < |hist| ==> |hist[s]| <= maxpos
    ensures StepOk(hist, Advanced(hist, cols, xs), cols, xs, |hist|, maxpos)
  {
    hide ColumnFor;
    var next := Advanced(hist, cols, xs);
    forall s | 0 <= s < |hist| ensures |next[s]| <= maxpos {
      ColumnForFinds(cols, s);
    }
    forall i | 0 <= i < |cols| ensures Carries(next, cols[i], xs[i]) {
      ColumnForFinds(cols, cols[i].slot);
    }
    forall s, p | 0 <= s < |hist| && 0 <= p < |next[s]| && Column(s, p) !in cols ensures CarriedOver(hist[s], next[s], p) {
      ColumnForFinds(cols, s);
      if ColumnFor(cols, s).Some? {
        assert cols[ColumnFor(cols, s).value] in cols;
        assert next[s][..p + 1] == hist[s][..p + 1];
      }
    }
  }

  /** Layer l of the cache holds what the slots' own requests wrote. */
  ghost predicate LayerHolds<H, E>(m: Model<H, E>, layer: seq<seq<E>>, hist: seq<seq<H>>, l: nat) {
    && Shape(layer, m.slots, m.maxpos) && |hist| == m.slots
    && forall s, p :: 0 <= s < m.slots && 0 <= p < |hist[s]| ==> EntryHolds(m, layer, hist, l, s, p)
  }

  predicate EntryHolds<H(==), E(==)>(m: Model<H, E>, layer: seq<seq<E>>, hist: seq<seq<H>>, l: nat, s: nat, p: nat)
    requires s < |layer| && s < |hist| && p < |hist[s]|
  {
    p < |layer[s]| && layer[s][p] == m.kv(l, Hidden(m, hist[s], l, p), p)
  }

  function EntriesOf<H, E>(m: Model<H, E>, l: nat, cols: seq<Column>, xs: seq<H>): seq<E>
    requires |xs| == |cols|
  {
    seq(|cols|, i requires 0 <= i < |cols| => m.kv(l, xs[i], cols[i].pos))
  }

  /** The new hidden rows, each from its own slot's unmasked window. */
  function RowsOf<H, E>(m: Model<H, E>, l: nat, cols: seq<Column>, xs: seq<H>, layer: seq<seq<E>>): seq<H>
    requires |xs| == |cols| && Shape(layer, m.slots, m.maxpos) && InCache(cols, m.slots, m.maxpos)
  {
    seq(|cols|, i requires 0 <= i < |cols| =>
      m.block(l, xs[i], cols[i].pos, Unmasked(layer[cols[i].slot], Mask(cols[i].pos, m.maxpos))))
  }

  /** Hidden rows of the step's columns, each as its request would compute it alone. */
  ghost predicate RowsAre<H, E>(m: Model<H, E>, hist: seq<seq<H>>, cols: seq<Column>, xs: seq<H>, l: nat) {
    |xs| == |cols| && forall i :: 0 <= i < |cols| ==> RowIs(m, hist, cols[i], xs[i], l)
  }

  predicate RowIs<H(==), E>(m: Model<H, E>, hist: seq<seq<H>>, c: Column, x: H, l: nat) {
    c.slot < |hist| && c.pos < |hist[c.slot]| && x == Hidden(m, hist[c.slot], l, c.pos)
  }

  // ---- one layer ----

  /** After the scatter the layer belongs to the new inputs: old entries stay, new ones are the requests' own. */
  lemma {:induction false} ScatterHolds<H, E>(m: Model<H, E>, layer: seq<seq<E>>, hist: seq<seq<H>>, hist': seq<seq<H>>, cols: seq<Column>, in0: seq<H>,
                           xs: seq<H>, l: nat)
    requires LayerHolds(m, layer, hist, l) && StepOk(hist, hist', cols, in0, m.slots, m.maxpos)
    requires InCache(cols, m.slots, m.maxpos) && RowsAre(m, hist', cols, xs, l)
    ensures LayerHolds(m, Scatter(layer, cols, EntriesOf(m, l, cols, xs), m.slots, m.maxpos, |cols|), hist', l)
  {
    hide Hidden, Scatter;
    var es := EntriesOf(m, l, cols, xs);
    var after := Scatter(layer, cols, es, m.slots, m.maxpos, |cols|);
    forall s, p | 0 <= s < m.slots && 0 <= p < |hist'[s]| ensures EntryHolds(m, after, hist', l, s, p) {
      if Column(s, p) in cols {
        var i :| 0 <= i < |cols| && cols[i] == Column(s, p);
        ScatterWrites(layer, cols, es, m.slots, m.maxpos, |cols|, i);
        assert RowIs(m, hist', cols[i], xs[i], l);
      } else {
        assert CarriedOver(hist[s], hist'[s], p);
        ScatterKeeps(layer, cols, es, m.slots, m.maxpos, |cols|, s, p);
        assert EntryHolds(m, layer, hist, l, s, p);
        HiddenOfPrefix(m, hist[s], hist'[s], l, p);
      }
    }
  }

  /** The window a column sees is its own request's history: nothing of another slot or an earlier occupant. */
  lemma {:induction false} WindowIsOwnHistory<H, E>(m: Model<H, E>, layer: seq<seq<E>>, hist: seq<seq<H>>, l: nat, c: Column)
    requires LayerHolds(m, layer, hist, l) && c.slot < m.slots && c.pos < |hist[c.slot]|
    ensures |layer[c.slot]| == m.maxpos
    ensures Unmasked(layer[c.slot], Mask(c.pos, m.maxpos)) == History(m, hist[c.slot], l, c.pos + 1)
  {
    hide Hidden;
    var window := layer[c.slot];
    UnmaskedIsPrefix(window, Mask(c.pos, m.maxpos), c.pos);
    assert EntryHolds(m, layer, hist, l, c.slot, c.pos);
    var want := History(m, hist[c.slot], l, c.pos + 1);
    forall j | 0 <= j < c.pos + 1 ensures window[..c.pos + 1][j] == want[j] {
      assert EntryHolds(m, layer, hist, l, c.slot, j);
    }
    assert window[..c.pos + 1] == want;
  }

  lemma {:induction false} LayerAdvances<H, E>(m: Model<H, E>, layer: seq<seq<E>>, hist: seq<seq<H>>, cols: seq<Column>, xs: seq<H>, l: nat)
    requires LayerHolds(m, layer, hist, l) && InCache(cols, m.slots, m.maxpos) && RowsAre(m, hist, cols, xs, l)
    ensures RowsAre(m, hist, cols, RowsOf(m, l, cols, xs, layer), l + 1)
  {
    hide Unmasked, Mask, History, EntryHolds;
    var ys := RowsOf(m, l, cols, xs, layer);
    forall i | 0 <= i < |cols| ensures RowIs(m, hist, cols[i], ys[i], l + 1) {
      assert RowIs(m, hist, cols[i], xs[i], l);
      WindowIsOwnHistory(m, layer, hist, l, cols[i]);
    }
  }

  // ---- the engine ----

  class Engine<H(0), E(0)> {
    const m: Model<H, E>
    var cache: seq<seq<seq<E>>>     // layer, slot, position: key and value together
    var x: seq<H>
    var columns: nat
    var layersDone: nat

    constructor (m: Model<H, E>, zero: E)
      ensures this.m == m && Shaped() && x == [] && columns == 0 && layersDone == 0
      ensures forall l, hist :: 0 <= l < m.layers && NoRequests(hist, m.slots) ==> LayerHolds(m, cache[l], hist, l)
    {
      this.m := m;
      cache := seq(m.layers, _ => seq(m.slots, _ => seq(m.maxpos, _ => zero)));
      x, columns, layersDone := [], 0, 0;
    }

    predicate Shaped()
      reads this
    {
      |cache| == m.layers && forall l :: 0 <= l < m.layers ==> Shape(cache[l], m.slots, m.maxpos)
    }

    /** One layer of one step; refused calls leave the cache alone. */
    method LayerStep(l: int, cols: seq<Column>, xIn: seq<H>) returns (ok: bool)
      requires Shaped() && |cols| == |xIn| && (forall i :: 0 <= i < |cols| ==> cols[i].slot < m.slots)
      requires columns == |x|
      modifies this
      ensures Shaped() && columns == |x|
      ensures ok <==> 1 <= |cols| <= MAX_COLUMNS && 0 <= l < m.layers && InCache(cols, m.slots, m.maxpos)
                      && (l == 0 || (l == old(layersDone) && old(columns) == |cols|))
      ensures !ok ==> cache == old(cache) && layersDone == old(layersDone) && x == old(x) && columns == old(columns)
      ensures ok ==>
                var xs := if l == 0 then xIn else old(x);
                && layersDone == l + 1 && columns == |cols| == |xs|
                && cache == old(cache)[l := Scatter(old(cache)[l], cols, EntriesOf(m, l, cols, xs), m.slots, m.maxpos, |cols|)]
                && x == RowsOf(m, l, cols, xs, cache[l])
    {
      hide Scatter, Unmasked;
      if |cols| < 1 || |cols| > MAX_COLUMNS || l < 0 || l >= m.layers { return false; }
      for i := 0 to |cols|
        invariant forall k :: 0 <= k < i ==> cols[k].slot < m.slots && cols[k].pos < m.maxpos
      {
        if cols[i].pos >= m.maxpos { return false; }
      }
      if l == 0 {
        x, columns, layersDone := xIn, |cols|, 0;
      }
      if columns != |cols| || layersDone != l { return false; }
      var es := EntriesOf(m, l, cols, x);
      cache := cache[l := Scatter(cache[l], cols, es, m.slots, m.maxpos, |cols|)];
      x := RowsOf(m, l, cols, x, cache[l]);
      layersDone := l + 1;
      ok := true;
    }

    /** All layers of one step, strictly in order. */
    method Forward(cols: seq<Column>, xIn: seq<H>, ghost hist: seq<seq<H>>, ghost hist': seq<seq<H>>) returns (rows: seq<H>)
      requires Shaped() && columns == |x| && m.layers > 0
      requires StepOk(hist, hist', cols, xIn, m.slots, m.maxpos)
      requires forall l :: 0 <= l < m.layers ==> LayerHolds(m, cache[l], hist, l)
      modifies this
      ensures Shaped() && columns == |x|
      ensures forall l :: 0 <= l < m.layers ==> LayerHolds(m, cache[l], hist', l)
      ensures RowsAre(m, hist', cols, rows, m.layers)
    {
      hide Scatter, LayerHolds, RowsAre, Hidden, RowsOf, StepOk, Shape;
      StepColumns(hist, hist', cols, xIn, m.slots, m.maxpos);
      InputRows(m, hist, hist', cols, xIn);
      for l := 0 to m.layers
        invariant Shaped() && columns == |x| && (l > 0 ==> layersDone == l && columns == |cols|)
        invariant forall k :: 0 <= k < l ==> LayerHolds(m, cache[k], hist', k)
        invariant forall k :: l <= k < m.layers ==> LayerHolds(m, cache[k], hist, k)
        invariant RowsAre(m, hist', cols, if l == 0 then xIn else x, l)
      {
        ghost var xs := if l == 0 then xIn else x;
        ghost var layer := cache[l];
        var ok := LayerStep(l, cols, xIn);
        assert ok;
        ScatterHolds(m, layer, hist, hist', cols, xIn, xs, l);
        LayerAdvances(m, cache[l], hist', cols, xs, l);
      }
      rows := x;
    }
  }

  predicate NoRequests<H>(hist: seq<seq<H>>, slots: nat) {
    |hist| == slots && forall s :: 0 <= s < slots ==> hist[s] == []
  }

  lemma {:induction false} StepColumns<H>(hist: seq<seq<H>>, hist': seq<seq<H>>, cols: seq<Column>, xs: seq<H>, slots: nat, maxpos: nat)
    requires StepOk(hist, hist', cols, xs, slots, maxpos)
    ensures 1 <= |cols| == |xs| <= MAX_COLUMNS && InCache(cols, slots, maxpos)
  {
    forall i | 0 <= i < |cols| ensures cols[i].slot < slots && cols[i].pos < maxpos {
      assert Carries(hist', cols[i], xs[i]);
    }
  }

  lemma {:induction false} InputRows<H, E>(m: Model<H, E>, hist: seq<seq<H>>, hist': seq<seq<H>>, cols: seq<Column>, xs: seq<H>)
    requires StepOk(hist, hist', cols, xs, m.slots, m.maxpos)
    ensures RowsAre(m, hist', cols, xs, 0)
  {
    forall i | 0 <= i < |cols| ensures RowIs(m, hist', cols[i], xs[i], 0) {
      assert Carries(hist', cols[i], xs[i]);
    }
  }

  // ---- whole runs ----

  datatype StepInput<H> = StepInput(cols: seq<Column>, xs: seq<H>)

  ghost predicate StepAt<H, E>(m: Model<H, E>, hists: seq<seq<seq<H>>>, steps: seq<StepInput<H>>, t: nat)
    requires t < |steps| && |hists| == |steps| + 1
  {
    StepOk(hists[t], hists[t + 1], steps[t].cols, steps[t].xs, m.slots, m.maxpos)
  }

  ghost predicate OutputAt<H, E>(m: Model<H, E>, hists: seq<seq<seq<H>>>, steps: seq<StepInput<H>>, outs: seq<seq<H>>, t: nat)
    requires t < |outs| <= |steps| && |hists| == |steps| + 1
  {
    RowsAre(m, hists[t + 1], steps[t].cols, outs[t], m.layers)
  }

  /**
   Over any run that keeps the discipline, from an empty cache, every row of every step is what
   its request computes alone with a growing history, whatever else shares the batch.
   */
  method Serve<H(0), E(0)>(m: Model<H, E>, zero: E, steps: seq<StepInput<H>>, ghost hists: seq<seq<seq<H>>>)
    returns (outs: seq<seq<H>>)
    requires m.layers > 0 && |hists| == |steps| + 1 && NoRequests(hists[0], m.slots)
    requires forall t :: 0 <= t < |steps| ==> StepAt(m, hists, steps, t)
    ensures |outs| == |steps|
    ensures forall t :: 0 <= t < |steps| ==> OutputAt(m, hists, steps, outs, t)
  {
    hide LayerHolds, StepOk, RowsAre;
    var engine := new Engine(m, zero);
    outs := [];
    for t := 0 to |steps|
      invariant fresh(engine) && engine.m == m && engine.Shaped() && engine.columns == |engine.x| && |outs| == t
      invariant forall l :: 0 <= l < m.layers ==> LayerHolds(m, engine.cache[l], hists[t], l)
      invariant forall k :: 0 <= k < t ==> OutputAt(m, hists, steps, outs, k)
    {
      assert StepAt(m, hists, steps, t);
      var rows := engine.Forward(steps[t].cols, steps[t].xs, hists[t], hists[t + 1]);
      ghost var before := outs;
      outs := outs + [rows];
      forall k | 0 <= k < t + 1 ensures OutputAt(m, hists, steps, outs, k) {
        if k < t {
          assert OutputAt(m, hists, steps, before, k);
        }
      }
    }
  }

  // ---- a model whose answers are known ----

  /** A row above a layer is the layer's block on the row below it, with the entries of all positions up to it, in order. */
  lemma {:induction false} RowAbove<H, E>(m: Model<H, E>, h: seq<H>, l: nat, p: nat)
    requires p < |h|
    ensures Hidden(m, h, 0, p) == h[p]
    ensures exists es: seq<E> :: |es| == p + 1 && (forall j :: 0 <= j <= p ==> es[j] == m.kv(l, Hidden(m, h, l, j), j))
                                 && Hidden(m, h, l + 1, p) == m.block(l, Hidden(m, h, l, p), p, es)
  {
    var es := History(m, h, l, p + 1);
    assert |es| == p + 1 && forall j :: 0 <= j <= p ==> es[j] == m.kv(l, Hidden(m, h, l, j), j);
  }

  function Total(xs: seq<int>): int {
    if xs == [] then 0 else Total(xs[..|xs| - 1]) + xs[|xs| - 1]
  }

  /** Entries are the rows themselves, and a layer answers with the sum of the entries it may see. */
  function Summing(layers: nat, slots: nat, maxpos: nat): Model<int, int> {
    Model(layers, slots, maxpos, (l: nat, x: int, p: nat) => x, (l: nat, x: int, p: nat, es: seq<int>) => Total(es))
  }

  /** One layer of it gives every position the sum of the inputs up to and including its own. */
  lemma {:induction false} SumsOfPrefixes(layers: nat, slots: nat, maxpos: nat, h: seq<int>, p: nat)
    requires p < |h|
    ensures Hidden(Summing(layers, slots, maxpos), h, 1, p) == Total(h[..p + 1])
  {
    var m := Summing(layers, slots, maxpos);
    var es := History(m, h, 0, p + 1);
    assert forall j :: 0 <= j <= p ==> es[j] == Hidden(m, h, 0, j) == h[j];
    assert es == h[..p + 1];
  }

  /** What Serve promises of row i of step t: the top row of its slot's own request at its position. */
  lemma {:induction false} OutputIs<H, E>(m: Model<H, E>, hists: seq<seq<seq<H>>>, steps: seq<StepInput<H>>, outs: seq<seq<H>>, t: nat, i: nat)
    requires t < |outs| <= |steps| && |hists| == |steps| + 1 && OutputAt(m, hists, steps, outs, t) && i < |steps[t].cols|
    ensures var c := steps[t].cols[i];
            && |outs[t]| == |steps[t].cols| && c.slot < |hists[t + 1]| && c.pos < |hists[t + 1][c.slot]|
            && outs[t][i] == Hidden(m, hists[t + 1][c.slot], m.layers, c.pos)
  {
    hide Hidden;
    assert RowIs(m, hists[t + 1], steps[t].cols[i], outs[t][i], m.layers);
  }

  /** A step carries one to 64 columns, each with its own cell, and gives the request in its slot that input at that position. */
  lemma {:induction false} StepCarries<H>(hist: seq<seq<H>>, hist': seq<seq<H>>, cols: seq<Column>, xs: seq<H>, slots: nat, maxpos: nat, i: nat)
    requires StepOk(hist, hist', cols, xs, slots, maxpos) && i < |cols|
    ensures 1 <= |cols| <= 64 && |xs| == |cols| && |hist'| == slots
    ensures cols[i].slot < slots && cols[i].pos < |hist'[cols[i].slot]| <= maxpos && hist'[cols[i].slot][cols[i].pos] == xs[i]
    ensures forall j :: 0 <= j < |cols| && j != i ==> cols[j] != cols[i]
    ensures forall s, p :: 0 <= s < slots && 0 <= p < |hist'[s]| && Column(s, p) !in cols ==>
              p < |hist[s]| && hist'[s][..p + 1] == hist[s][..p + 1]
  {
    assert Carries(hist', cols[i], xs[i]);
    forall s, p | 0 <= s < slots && 0 <= p < |hist'[s]| && Column(s, p) !in cols
      ensures p < |hist[s]| && hist'[s][..p + 1] == hist[s][..p + 1]
    {
      assert CarriedOver(hist[s], hist'[s], p);
    }
  }

  /** 64 columns of one decode step are allowed. */
  lemma {:induction false} FullDecodeStep<H>(hist: seq<seq<H>>, cols: seq<Column>, xs: seq<H>, maxpos: nat)
    requires |cols| == |xs| == 64 && DecodeStep(hist, cols) && InCache(cols, |hist|, maxpos)
    requires forall s :: 0 <= s < |hist| ==> |hist[s]| <= maxpos
    ensures StepOk(hist, Advanced(hist, cols, xs), cols, xs, |hist|, maxpos)
  {
    DecodeStepOk(hist, cols, xs, maxpos);
  }
}
