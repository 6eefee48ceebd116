/**
 The string-keyed hash table of the tokenizer: open addressing, linear probing,
 first value wins on a duplicate key. The hash function is a parameter, so every
 result below holds for FNV-1a and for any other hash.
 */
module StrIntMaps {
  import opened Common

  datatype Entry = Entry(key: Bytes, value: nat, used: bool)

  /** The slot reached after `step` probes from `home` in a table of `cap` slots. */
  function Slot(home: nat, step: nat, cap: nat): nat
    requires home < cap && step < cap
  {
    if home + step < cap then home + step else home + step - cap
  }

  /** Probes needed to go from slot `home` forward to slot `i`. */
  function Distance(home: nat, i: nat, cap: nat): (d: nat)
    requires home < cap && i < cap
    ensures d < cap && Slot(home, d, cap) == i
    ensures forall step :: 0 <= step < cap && Slot(home, step, cap) == i ==> step == d
  {
    if home <= i then i - home else cap - home + i
  }

  function Home(hash: Bytes -> nat, key: Bytes, cap: nat): (h: nat)
    requires cap > 0
    ensures h < cap
  {
    hash(key) % cap
  }

  /** Every slot from a stored key's home up to the slot that holds it is in use. */
  ghost predicate ProbeChains(hash: Bytes -> nat, t: seq<Entry>)
    requires |t| > 0
  {
    forall i, step :: 0 <= i < |t| && t[i].used && 0 <= step <= Distance(Home(hash, t[i].key, |t|), i, |t|) ==>
      t[Slot(Home(hash, t[i].key, |t|), step, |t|)].used
  }

  ghost predicate Represents(t: seq<Entry>, m: map<Bytes, nat>) {
    && (forall i :: 0 <= i < |t| && t[i].used ==> t[i].key in m && m[t[i].key] == t[i].value)
    && (forall k :: k in m ==> exists i :: 0 <= i < |t| && t[i].used && t[i].key == k)
    && (forall i, j :: 0 <= i < j < |t| && t[i].used && t[j].used ==> t[i].key != t[j].key)
  }

  /** The number of slots in use. */
  function UsedCount(t: seq<Entry>): (n: nat)
    ensures n <= |t|
  {
    if t == [] then 0 else UsedCount(t[..|t| - 1]) + (if t[|t| - 1].used then 1 else 0)
  }

  lemma {:induction false} EmptySlotExists(t: seq<Entry>)
    requires UsedCount(t) < |t|
    ensures exists i :: 0 <= i < |t| && !t[i].used
  {
    if t[|t| - 1].used {
      EmptySlotExists(t[..|t| - 1]);
      var i :| 0 <= i < |t| - 1 && !t[..|t| - 1][i].used;
      assert !t[i].used;
    }
  }

  lemma {:induction false} UsedCountFill(t: seq<Entry>, i: nat, e: Entry)
    requires i < |t| && !t[i].used && e.used
    ensures UsedCount(t[i := e]) == UsedCount(t) + 1
  {
    var u := t[i := e];
    if i < |t| - 1 {
      UsedCountFill(t[..|t| - 1], i, e);
      assert u[..|t| - 1] == t[..|t| - 1][i := e];
    } else {
      assert u[..|t| - 1] == t[..|t| - 1];
    }
  }

  lemma {:induction false} UsedCountEmpty(t: seq<Entry>)
    requires forall i :: 0 <= i < |t| ==> !t[i].used
    ensures UsedCount(t) == 0
  {
    if t != [] {
      UsedCountEmpty(t[..|t| - 1]);
    }
  }

  ghost predicate ProbedPast(t: seq<Entry>, key: Bytes, i: nat)
    requires i < |t|
  {
    t[i].used && t[i].key != key
  }

  /** A probe that has passed only other keys and stands on a free slot proves the key absent. */
  lemma {:induction false} FreeSlotMeansAbsent(hash: Bytes -> nat, t: seq<Entry>, m: map<Bytes, nat>, key: Bytes, steps: nat)
    requires |t| > 0 && steps < |t|
    requires ProbeChains(hash, t) && Represents(t, m)
    requires forall s :: 0 <= s < steps ==> ProbedPast(t, key, Slot(Home(hash, key, |t|), s, |t|))
    requires !t[Slot(Home(hash, key, |t|), steps, |t|)].used
    ensures key !in m
  {
  }

  /** Storing a key at the end of its probe chain keeps every probe chain whole. */
  lemma {:induction false} FillKeepsChains(hash: Bytes -> nat, t: seq<Entry>, key: Bytes, value: nat, steps: nat)
    requires |t| > 0 && steps < |t| && ProbeChains(hash, t)
    requires forall s :: 0 <= s < steps ==> ProbedPast(t, key, Slot(Home(hash, key, |t|), s, |t|))
    requires !t[Slot(Home(hash, key, |t|), steps, |t|)].used
    ensures ProbeChains(hash, t[Slot(Home(hash, key, |t|), steps, |t|) := Entry(key, value, true)])
  {
    var home := Home(hash, key, |t|);
    var at := Slot(home, steps, |t|);
    var u := t[at := Entry(key, value, true)];
    forall i, step | 0 <= i < |u| && u[i].used && 0 <= step <= Distance(Home(hash, u[i].key, |u|), i, |u|)
      ensures u[Slot(Home(hash, u[i].key, |u|), step, |u|)].used
    {
      if i == at {
        assert Distance(home, at, |t|) == steps;
        if step < steps {
          assert ProbedPast(t, key, Slot(home, step, |t|));
        }
      } else {
        assert t[i].used && t[Slot(Home(hash, t[i].key, |t|), step, |t|)].used;
      }
    }
  }

  lemma {:induction false} FillRepresents(t: seq<Entry>, m: map<Bytes, nat>, at: nat, key: Bytes, value: nat)
    requires at < |t| && !t[at].used && Represents(t, m) && key !in m
    ensures Represents(t[at := Entry(key, value, true)], m[key := value])
  {
    var u := t[at := Entry(key, value, true)];
    forall k {:trigger m[key := value][k]} | k in m[key := value]
      ensures exists i :: 0 <= i < |u| && u[i].used && u[i].key == k
    {
      if k == key {
        assert u[at].used && u[at].key == k;
      } else {
        var i :| 0 <= i < |t| && t[i].used && t[i].key == k;
        assert u[i].used && u[i].key == k;
      }
    }
  }

  /** What one insertion does to the table. */
  lemma {:induction false} Fill(hash: Bytes -> nat, t: seq<Entry>, m: map<Bytes, nat>, key: Bytes, value: nat, steps: nat)
    requires |t| > 0 && steps < |t| && ProbeChains(hash, t) && Represents(t, m)
    requires forall s :: 0 <= s < steps ==> ProbedPast(t, key, Slot(Home(hash, key, |t|), s, |t|))
    requires !t[Slot(Home(hash, key, |t|), steps, |t|)].used
    ensures key !in m
    ensures var u := t[Slot(Home(hash, key, |t|), steps, |t|) := Entry(key, value, true)];
      ProbeChains(hash, u) && Represents(u, m[key := value]) && UsedCount(u) == UsedCount(t) + 1
  {
    var at := Slot(Home(hash, key, |t|), steps, |t|);
    FreeSlotMeansAbsent(hash, t, m, key, steps);
    FillKeepsChains(hash, t, key, value, steps);
    FillRepresents(t, m, at, key, value);
    UsedCountFill(t, at, Entry(key, value, true));
  }

  lemma {:induction false} UsedIsPresent(t: seq<Entry>, m: map<Bytes, nat>, i: nat)
    requires Represents(t, m) && i < |t| && t[i].used
    ensures t[i].key in m && m[t[i].key] == t[i].value
  {
  }

  class StrIntMap {
    const hash: Bytes -> nat
    var entries: array<Entry>
    var count: nat
    ghost var Contents: map<Bytes, nat>

    ghost predicate Valid()
      reads this, entries
    {
      && entries.Length > 0
      && ProbeChains(hash, entries[..])
      && Represents(entries[..], Contents)
      && count == UsedCount(entries[..]) == |Contents|
      && count < entries.Length
    }

    constructor (hash: Bytes -> nat, expectedN: nat)
      ensures Valid() && fresh(entries)
      ensures Contents == map[] && this.hash == hash
      ensures 2 * expectedN < entries.Length
      ensures entries.Length == 16 || entries.Length <= 4 * expectedN
    {
      var cap := 16;
      while cap < expectedN * 2 + 1
        invariant cap == 16 || cap <= 4 * expectedN
      {
        cap := cap * 2;
      }
      this.hash := hash;
      entries := new Entry[cap](_ => Entry([], 0, false));
      count := 0;
      Contents := map[];
      new;
      UsedCountEmpty(entries[..]);
    }

    /** The probe loop of put and get: stops at the key, or at the free slot that ends its chain. */
    method Probe(key: Bytes) returns (idx: nat, ghost steps: nat)
      requires Valid()
      ensures steps < entries.Length && idx == Slot(Home(hash, key, entries.Length), steps, entries.Length) < entries.Length
      ensures entries[idx].used ==> entries[idx].key == key
      ensures forall s :: 0 <= s < steps ==> ProbedPast(entries[..], key, Slot(Home(hash, key, entries.Length), s, entries.Length))
    {
      hide ProbeChains, UsedCount, Represents;
      var cap := entries.Length;
      ghost var t := entries[..];
      ghost var home := Home(hash, key, cap);
      EmptySlotExists(t);
      ghost var free :| 0 <= free < cap && !t[free].used;
      idx := Home(hash, key, cap);
      steps := 0;
      while entries[idx].used
        invariant idx < cap && steps < cap && idx == Slot(home, steps, cap)
        invariant steps <= Distance(home, free, cap)
        invariant forall s :: 0 <= s < steps ==> ProbedPast(t, key, Slot(home, s, cap))
        decreases cap - steps
      {
        if entries[idx].key == key {
          return;
        }
        assert steps != Distance(home, free, cap);
        idx := if idx + 1 == cap then 0 else idx + 1;
        steps := steps + 1;
      }
    }

    method Put(key: Bytes, value: nat)
      requires Valid()
      requires count + 1 < entries.Length
      modifies this`count, this`Contents, entries
      ensures Valid()
      ensures Contents == if key in old(Contents) then old(Contents) else old(Contents)[key := value]
      ensures count <= old(count) + 1
    {
      hide ProbeChains, UsedCount, Represents, Slot, Home;
      ghost var t := entries[..];
      var idx;
      ghost var steps;
      idx, steps := Probe(key);
      if entries[idx].used {
        UsedIsPresent(t, Contents, idx);
        return;
      }
      Fill(hash, t, Contents, key, value, steps);
      entries[idx] := Entry(key, value, true);
      assert entries[..] == t[idx := Entry(key, value, true)];
      count := count + 1;
      Contents := Contents[key := value];
    }

    method Get(key: Bytes) returns (r: Option<nat>)
      requires Valid()
      ensures r == if key in Contents then Some(Contents[key]) else None
    {
      hide ProbeChains, UsedCount, Represents, Slot, Home;
      ghost var t := entries[..];
      var idx;
      ghost var steps;
      idx, steps := Probe(key);
      if entries[idx].used {
        UsedIsPresent(t, Contents, idx);
        return Some(entries[idx].value);
      }
      FreeSlotMeansAbsent(hash, t, Contents, key, steps);
      return None;
    }
  }

  function FirstIndex(strs: seq<Bytes>): map<Bytes, nat> {
    if strs == [] then map[]
    else
      var last := |strs| - 1;
      var m := FirstIndex(strs[..last]);
      if strs[last] in m then m else m[strs[last] := last]
  }

  lemma {:induction false} FirstIndexIsFirst(strs: seq<Bytes>)
    ensures forall k :: k in FirstIndex(strs) ==>
      var i := FirstIndex(strs)[k]; i < |strs| && strs[i] == k && k !in strs[..i]
    ensures forall i :: 0 <= i < |strs| ==> strs[i] in FirstIndex(strs)
  {
    if strs != [] {
      var last := |strs| - 1;
      FirstIndexIsFirst(strs[..last]);
      assert forall i :: 0 <= i < last ==> strs[..i] == strs[..last][..i];
      assert forall i :: 0 <= i < last ==> strs[i] == strs[..last][i];
    }
  }

  /** The table `bpe_vocab_load` builds from a GGUF string array. */
  method Load(hash: Bytes -> nat, strs: seq<Bytes>) returns (m: StrIntMap)
    ensures m.Valid() && fresh(m) && fresh(m.entries)
    ensures m.Contents == FirstIndex(strs)
  {
    m := new StrIntMap(hash, |strs|);
    for i := 0 to |strs|
      invariant m.Valid() && fresh(m) && fresh(m.entries)
      invariant m.Contents == FirstIndex(strs[..i])
      invariant m.count <= i && 2 * |strs| < m.entries.Length
    {
      assert strs[..i + 1][..i] == strs[..i];
      m.Put(strs[i], i);
    }
    assert strs[..|strs|] == strs;
  }

  // ---- the sizing loop in 32-bit arithmetic ----

  /** expected_n * 2u + 1u */
  function Wanted32(n: nat): nat {
    (2 * n + 1) % 0x1_0000_0000
  }

  /** The capacity after k turns of `cap <<= 1`. */
  function Cap32(k: nat): nat {
    if k == 0 then 16 else 2 * Cap32(k - 1) % 0x1_0000_0000
  }

  function TwoTo(k: nat): (r: nat)
    ensures r > 0
  {
    if k == 0 then 1 else 2 * TwoTo(k - 1)
  }

  lemma {:induction false} TwoToSum(a: nat, b: nat)
    ensures TwoTo(a + b) == TwoTo(a) * TwoTo(b)
  {
    if a > 0 {
      TwoToSum(a - 1, b);
      assert 2 * (TwoTo(a - 1) * TwoTo(b)) == TwoTo(a) * TwoTo(b);
    }
  }

  lemma {:induction false} TwoTo27()
    ensures TwoTo(27) == 0x800_0000 && TwoTo(0) == 1
  {
    assert TwoTo(0) == 1 && TwoTo(3) == 8;
    hide TwoTo;
    TwoToSum(3, 3);
    TwoToSum(6, 3);
    TwoToSum(9, 9);
    TwoToSum(18, 9);
  }

  lemma {:induction false} FactorBelow(c: nat, t: nat, product: nat)
    requires c * t == product && t > 0
    ensures c <= product
  {
  }

  lemma {:induction false} Doubling(c: nat, t: nat)
    requires c * (2 * t) == 0x8000_0000 && t > 0
    ensures 2 * c < 0x1_0000_0000 && (2 * c) * t == 0x8000_0000
  {
    assert (2 * c) * t == c * (2 * t);
    assert 2 * c <= (2 * c) * t;
  }

  /** The capacity doubles up to 2^31 ... */
  lemma {:induction false} CapDoubles(k: nat)
    requires k <= 27
    ensures Cap32(k) * TwoTo(27 - k) == 0x8000_0000
  {
    hide TwoTo;
    if k == 0 {
      TwoTo27();
    } else {
      CapDoubles(k - 1);
      assert TwoTo(28 - k) == 2 * TwoTo(27 - k) by { TwoToNext(27 - k); }
      Doubling(Cap32(k - 1), TwoTo(27 - k));
    }
  }

  lemma {:induction false} TwoToNext(k: nat)
    ensures TwoTo(k + 1) == 2 * TwoTo(k)
  {
  }

  lemma {:induction false} CapIsFull()
    ensures Cap32(27) == 0x8000_0000
  {
    hide Cap32, TwoTo;
    CapDoubles(27);
    TwoTo27();
  }

  /** ... and is 0 from then on. */
  lemma {:induction false} CapVanishes(k: nat)
    ensures Cap32(k) <= 0x8000_0000
    ensures k > 27 ==> Cap32(k) == 0
  {
    if k <= 27 {
      hide Cap32, TwoTo;
      CapDoubles(k);
      FactorBelow(Cap32(k), TwoTo(27 - k), 0x8000_0000);
    } else if k == 28 {
      hide Cap32;
      CapIsFull();
      CapNext(27);
    } else {
      hide TwoTo, Cap32;
      CapVanishes(k - 1);
      CapNext(k - 1);
    }
  }

  lemma {:induction false} CapNext(k: nat)
    ensures Cap32(k + 1) == 2 * Cap32(k) % 0x1_0000_0000
  {
  }

  /** The loop stops after exactly k turns. */
  ghost predicate StopsAfter(n: nat, k: nat) {
    Cap32(k) >= Wanted32(n) && forall j :: 0 <= j < k ==> Cap32(j) < Wanted32(n)
  }

  lemma {:induction false} FirstStop(n: nat, k: nat) returns (first: nat)
    requires Cap32(k) >= Wanted32(n)
    ensures first <= k && StopsAfter(n, first)
  {
    first := 0;
    while Cap32(first) < Wanted32(n)
      invariant first <= k && forall j :: 0 <= j < first ==> Cap32(j) < Wanted32(n)
      decreases k - first
    {
      first := first + 1;
    }
  }

  /** The sizing loop ends if and only if the wrapped target is at most 2^31; otherwise the capacity becomes 0 and stays 0. */
  lemma {:induction false} SizingEndsIff(n: nat)
    ensures (exists k :: StopsAfter(n, k)) <==> Wanted32(n) <= 0x8000_0000
  {
    hide Cap32, Wanted32;
    if k :| StopsAfter(n, k) {
      CapVanishes(k);
    }
    if Wanted32(n) <= 0x8000_0000 {
      CapIsFull();
      var first := FirstStop(n, 27);
    }
  }

  /** It ends with more than 2 n slots, as put and get need, if and only if n is below 2^30. */
  lemma {:induction false} SizingSufficesIff(n: nat)
    ensures (exists k :: StopsAfter(n, k) && Cap32(k) > 2 * n) <==> n < 0x4000_0000
  {
    hide Cap32;
    if k :| StopsAfter(n, k) && Cap32(k) > 2 * n {
      CapVanishes(k);
    }
    if n < 0x4000_0000 {
      CapIsFull();
      var first := FirstStop(n, 27);
      assert Cap32(first) > 2 * n;
    }
  }
}
