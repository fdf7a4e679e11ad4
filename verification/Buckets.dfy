/** Shared memory of the two-level hash table: an array of 8-slot buckets.

    A level (TL, BL or old_BL) is a window `Level(off, n)` of that array.  The
    multiset `All(m)` of the values stored in every occupied slot is the abstract
    content of the table; the lemmas here say how it changes when one bucket is
    rewritten. */
module Buckets {
  type Key(==, !new)
  type Payload(==, !new)

  datatype Option<T> = None | Some(value: T)

  /** A stored value; `key` is what KeyTraits::extract returns and KeyTraits::match compares. */
  datatype Value = Value(key: Key, data: Payload)

  /** `fp == 0` in the bucket's hash region is `Empty`. */
  datatype Slot = Empty | Full(fp: nat, val: Value)

  const SLOTS: nat := 8
  const VERSIONS: nat := 128
  const FP_LIMIT: nat := 0x100_0000_0000_0000

  /** The 64-byte hash region (D-bit, 7-bit version, fingerprints) with its values. */
  datatype Bucket = Bucket(locked: bool, ver: nat, slots: seq<Slot>)
  type Memory = seq<Bucket>

  /** The key hash and its two mixers; every result holds for any choice of the three. */
  datatype Hashing = Hashing(raw: Key -> nat, h1: Key -> nat, h2: Key -> nat)

  function MakeFp(hs: Hashing, k: Key): (fp: nat)
    ensures 0 < fp < FP_LIMIT
  {
    var fp := hs.raw(k) % FP_LIMIT;
    if fp == 0 then 1 else fp
  }

  datatype Level = Level(off: nat, n: nat)

  /** A layout snapshot: the live levels, with old_BL live only while `active`. */
  datatype Layout = Layout(tl: Level, bl: Level, ob: Level, active: bool)

  function FIdx(hs: Hashing, k: Key, n: nat): (i: nat)
    requires n >= 2
    ensures i < n / 2
  {
    hs.h1(k) % (n / 2)
  }

  function SIdx(hs: Hashing, k: Key, n: nat): (i: nat)
    requires n >= 2
    ensures n / 2 <= i < n
  {
    hs.h2(k) % (n / 2) + n / 2
  }

  ghost predicate InLevel(v: Level, a: int) {
    v.off <= a < v.off + v.n
  }

  /** Address `a` is the F- or S-candidate of `k` on level `v`. */
  ghost predicate Home(hs: Hashing, v: Level, k: Key, a: int) {
    v.n >= 2 && (a == v.off + FIdx(hs, k, v.n) || a == v.off + SIdx(hs, k, v.n))
  }

  /** Address `a` is a candidate bucket of `k` under the layout. */
  ghost predicate Candidate(hs: Hashing, lay: Layout, k: Key, a: int) {
    || Home(hs, lay.tl, k, a)
    || Home(hs, lay.bl, k, a)
    || (lay.active && Home(hs, lay.ob, k, a))
  }

  ghost predicate Disjoint(v: Level, w: Level) {
    v.off + v.n <= w.off || w.off + w.n <= v.off
  }

  ghost predicate LayoutOk(lay: Layout, size: nat) {
    && lay.tl.n >= 4 && lay.tl.off + lay.tl.n <= size
    && lay.bl.n >= 2 && lay.bl.off + lay.bl.n <= size
    && Disjoint(lay.tl, lay.bl)
    && (lay.active ==>
          && lay.ob.n >= 2 && lay.ob.off + lay.ob.n <= size
          && Disjoint(lay.ob, lay.tl) && Disjoint(lay.ob, lay.bl))
  }

  /** TL or BL: the levels new entries may be written to. */
  ghost predicate Hot(lay: Layout, a: int) {
    InLevel(lay.tl, a) || InLevel(lay.bl, a)
  }

  ghost predicate BucketOk(hs: Hashing, lay: Layout, a: int, b: Bucket) {
    && |b.slots| == SLOTS
    && b.ver < VERSIONS
    && forall s :: 0 <= s < SLOTS && b.slots[s].Full? ==>
         b.slots[s].fp == MakeFp(hs, b.slots[s].val.key) && Candidate(hs, lay, b.slots[s].val.key, a)
  }

  /** Every entry carries its key's fingerprint and sits in a candidate bucket of its own key. */
  ghost predicate Placed(hs: Hashing, lay: Layout, m: Memory) {
    forall a :: 0 <= a < |m| ==> BucketOk(hs, lay, a, m[a])
  }

  ghost predicate Unlocked(m: Memory) {
    forall a :: 0 <= a < |m| ==> !m[a].locked
  }

  ghost predicate SameSlots(m: Memory, m': Memory) {
    |m| == |m'| && forall a :: 0 <= a < |m| ==> m'[a].slots == m[a].slots
  }

  /** What a write path may do to memory it does not own: lock flags are as before,
      and a bucket that was locked, or lies outside TL and BL, is untouched. */
  ghost predicate Frame(lay: Layout, m: Memory, m': Memory) {
    && |m| == |m'|
    && forall a :: 0 <= a < |m| ==>
         m'[a].locked == m[a].locked && (m[a].locked || !Hot(lay, a) ==> m'[a] == m[a])
  }

  // ── the lock word ──

  function NextVer(v: nat): (r: nat)
    ensures r < VERSIONS
  {
    (v + 1) % VERSIONS
  }

  /** make_locked: D-bit set, version advanced. */
  function Lock(b: Bucket): Bucket {
    Bucket(true, NextVer(b.ver), b.slots)
  }

  /** The unlocking write: D-bit clear, version one past the pre-lock snapshot. */
  function Commit(pre: Bucket, slots: seq<Slot>): Bucket {
    Bucket(false, NextVer(pre.ver), slots)
  }

  /** The unlocking write as seen from the locked bucket: the version stays. */
  function Unlock(held: Bucket, slots: seq<Slot>): Bucket {
    Bucket(false, held.ver, slots)
  }

  // ── contents ──

  function One(s: Slot): multiset<Value> {
    if s.Full? then multiset{s.val} else multiset{}
  }

  function Items(slots: seq<Slot>): multiset<Value> {
    if slots == [] then multiset{} else Items(slots[..|slots| - 1]) + One(slots[|slots| - 1])
  }

  function All(m: Memory): multiset<Value> {
    if m == [] then multiset{} else All(m[..|m| - 1]) + Items(m[|m| - 1].slots)
  }

  lemma ItemsUnfold(slots: seq<Slot>)
    requires slots != []
    ensures Items(slots) == Items(slots[..|slots| - 1]) + One(slots[|slots| - 1])
  {}

  lemma AllUnfold(m: Memory)
    requires m != []
    ensures All(m) == All(m[..|m| - 1]) + Items(m[|m| - 1].slots)
  {}

  lemma NoItems()
    ensures Items([]) == multiset{} && All([]) == multiset{}
  {}

  lemma Swap(a: multiset<Value>, b: multiset<Value>, c: multiset<Value>)
    ensures (a + b) + c == (a + c) + b
  {}

  lemma Carry(a: multiset<Value>, b: multiset<Value>, c: multiset<Value>, d: multiset<Value>, z: multiset<Value>)
    requires a + b == c + d
    ensures (a + z) + b == (c + z) + d
  {
    Swap(a, z, b);
    Swap(c, z, d);
  }

  lemma {:induction false} ItemsSet(slots: seq<Slot>, s: nat, x: Slot)
    requires s < |slots|
    ensures Items(slots[s := x]) + One(slots[s]) == Items(slots) + One(x)
  {
    hide Items, One;
    var n, u := |slots| - 1, slots[s := x];
    ItemsUnfold(slots);
    ItemsUnfold(u);
    if s == n {
      assert u[..n] == slots[..n];
      Swap(Items(slots[..n]), One(x), One(slots[n]));
    } else {
      assert u[..n] == slots[..n][s := x] && u[n] == slots[n];
      ItemsSet(slots[..n], s, x);
      Carry(Items(u[..n]), One(slots[s]), Items(slots[..n]), One(x), One(slots[n]));
    }
  }

  lemma {:induction false} AllSet(m: Memory, a: nat, b: Bucket)
    requires a < |m|
    ensures All(m[a := b]) + Items(m[a].slots) == All(m) + Items(b.slots)
  {
    hide All, Items;
    var n, u := |m| - 1, m[a := b];
    AllUnfold(m);
    AllUnfold(u);
    if a == n {
      assert u[..n] == m[..n];
      Swap(All(m[..n]), Items(b.slots), Items(m[n].slots));
    } else {
      assert u[..n] == m[..n][a := b] && u[n] == m[n];
      AllSet(m[..n], a, b);
      Carry(All(u[..n]), Items(m[a].slots), All(m[..n]), Items(b.slots), Items(m[n].slots));
    }
  }

  lemma {:induction false} AllSame(m: Memory, m': Memory)
    requires SameSlots(m, m')
    ensures All(m) == All(m')
  {
    hide All, Items;
    if m != [] {
      AllUnfold(m);
      AllUnfold(m');
      AllSame(m[..|m| - 1], m'[..|m| - 1]);
    } else {
      assert m == m';
    }
  }

  /** Slot s holds v. */
  ghost predicate SlotHolds(slots: seq<Slot>, s: int, v: Value) {
    0 <= s < |slots| && slots[s].Full? && slots[s].val == v
  }

  ghost predicate Holds(m: Memory, a: int, s: int, v: Value) {
    0 <= a < |m| && SlotHolds(m[a].slots, s, v)
  }

  lemma {:induction false} ItemsMember(slots: seq<Slot>, v: Value)
    ensures v in Items(slots) <==> exists s :: SlotHolds(slots, s, v)
  {
    hide Items;
    if slots == [] {
      NoItems();
    } else {
      var n := |slots| - 1;
      ItemsUnfold(slots);
      ItemsMember(slots[..n], v);
      if v in Items(slots[..n]) {
        var s :| SlotHolds(slots[..n], s, v);
        assert SlotHolds(slots, s, v);
      } else if v in One(slots[n]) {
        assert SlotHolds(slots, n, v);
      }
      if s :| SlotHolds(slots, s, v) {
        assert s < n ==> SlotHolds(slots[..n], s, v);
      }
    }
  }

  /** A value is in the table exactly when some slot of some bucket holds it. */
  lemma {:induction false} AllMember(m: Memory, v: Value)
    ensures v in All(m) <==> exists a, s :: Holds(m, a, s, v)
  {
    hide All, Items;
    if m == [] {
      NoItems();
    } else {
      var n := |m| - 1;
      AllUnfold(m);
      AllMember(m[..n], v);
      ItemsMember(m[n].slots, v);
      if v in All(m[..n]) {
        var a, s :| Holds(m[..n], a, s, v);
        assert Holds(m, a, s, v);
      } else if v in Items(m[n].slots) {
        var s :| SlotHolds(m[n].slots, s, v);
        assert Holds(m, n, s, v);
      }
      if a, s :| Holds(m, a, s, v) {
        assert a < n ==> Holds(m[..n], a, s, v);
      }
    }
  }

  lemma {:induction false} AllAppendEmpty(m: Memory, e: Memory)
    requires forall a :: 0 <= a < |e| ==> e[a].slots == seq(SLOTS, i => Empty)
    ensures All(m + e) == All(m)
  {
    if e == [] {
      assert m + e == m;
    } else {
      var n := |e| - 1;
      AllAppendEmpty(m, e[..n]);
      assert (m + e)[..|m + e| - 1] == m + e[..n];
      ItemsEmpty(e[n].slots);
    }
  }

  lemma {:induction false} ItemsEmpty(slots: seq<Slot>)
    requires forall s :: 0 <= s < |slots| ==> slots[s].Empty?
    ensures Items(slots) == multiset{}
  {
    if slots != [] {
      ItemsEmpty(slots[..|slots| - 1]);
    }
  }
}
