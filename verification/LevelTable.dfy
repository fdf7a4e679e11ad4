/** TwoLevelHashtable: placement, displacement, lookup, update and erase.

    Each method here runs without interleaving, so a compare-and-swap against a
    word just read succeeds; buckets held by an enclosing call do appear locked. */
module LevelTables {
  import opened Buckets
  import TagHints

  predicate HasEmpty(slots: seq<Slot>) {
    exists s :: 0 <= s < |slots| && slots[s].Empty?
  }

  function FirstEmpty(slots: seq<Slot>): (s: nat)
    requires HasEmpty(slots)
    ensures s < |slots| && slots[s].Empty?
    ensures forall r :: 0 <= r < s ==> slots[r].Full?
  {
    if slots[0].Empty? then 0
    else
      assert slots[1..] != [] && HasEmpty(slots[1..]) by {
        var s :| 0 <= s < |slots| && slots[s].Empty?;
        assert slots[1..][s - 1].Empty?;
      }
      1 + FirstEmpty(slots[1..])
  }

  /** Rewriting one slot exchanges what it held for what it now holds. */
  lemma SlotSet(m: Memory, a: nat, b: Bucket, s: nat, x: Slot)
    requires a < |m| && s < |m[a].slots| && b.slots == m[a].slots[s := x]
    ensures All(m[a := b]) + One(m[a].slots[s]) == All(m) + One(x)
  {
    hide All, Items, One;
    AllSet(m, a, b);
    ItemsSet(m[a].slots, s, x);
    Balance(All(m[a := b]), All(m), Items(m[a].slots), Items(b.slots), One(m[a].slots[s]), One(x));
  }

  lemma Balance(a: multiset<Value>, b: multiset<Value>, i: multiset<Value>, j: multiset<Value>, y: multiset<Value>, z: multiset<Value>)
    requires a + i == b + j && j + y == i + z
    ensures a + y == b + z
  {
    forall v ensures (a + y)[v] == (b + z)[v] {
      assert (a + i)[v] == (b + j)[v] && (j + y)[v] == (i + z)[v];
    }
  }

  /** Moving a victim out of a slot and the new value in adds exactly the new value. */
  lemma Exchange(before: multiset<Value>, moved: multiset<Value>, after: multiset<Value>, victim: Value, val: Value)
    requires moved == before + multiset{victim}
    requires after + multiset{victim} == moved + multiset{val}
    ensures after == before + multiset{val}
  {
    forall v ensures after[v] == (before + multiset{val})[v] {
      assert (after + multiset{victim})[v] == ((before + multiset{victim}) + multiset{val})[v];
    }
  }

  /** Memory `m` grew out of `m0` while the caller holds bucket `a`. */
  ghost predicate Held(lay: Layout, m0: Memory, m: Memory, a: nat) {
    && a < |m0| && !m0[a].locked && Hot(lay, a)
    && Frame(lay, m0[a := Lock(m0[a])], m)
  }

  lemma PutFull(hs: Hashing, lay: Layout, m: Memory, a: nat, b: Bucket, s: nat, val: Value)
    requires Placed(hs, lay, m) && a < |m| && s < SLOTS && b.ver < VERSIONS
    requires b.slots == m[a].slots[s := Full(MakeFp(hs, val.key), val)]
    requires Candidate(hs, lay, val.key, a)
    ensures Placed(hs, lay, m[a := b])
  {
    hide Candidate, MakeFp;
    assert BucketOk(hs, lay, a, m[a]);
    assert BucketOk(hs, lay, a, b);
  }

  lemma PutSame(hs: Hashing, lay: Layout, m: Memory, a: nat, b: Bucket)
    requires Placed(hs, lay, m) && a < |m| && b.slots == m[a].slots && b.ver < VERSIONS
    ensures Placed(hs, lay, m[a := b]) && SameSlots(m, m[a := b])
  {
    hide Candidate, MakeFp;
    assert BucketOk(hs, lay, a, m[a]);
  }

  lemma PlacedAt(hs: Hashing, lay: Layout, m: Memory, a: nat)
    requires Placed(hs, lay, m) && a < |m|
    ensures BucketOk(hs, lay, a, m[a])
  {}

  lemma FrameRefl(lay: Layout, m: Memory)
    ensures Frame(lay, m, m) && SameSlots(m, m)
  {}

  lemma FrameTrans(lay: Layout, m: Memory, m': Memory, m'': Memory)
    requires Frame(lay, m, m') && Frame(lay, m', m'')
    ensures Frame(lay, m, m'')
  {}

  lemma SlotsTrans(m: Memory, m': Memory, m'': Memory)
    requires SameSlots(m, m') && SameSlots(m', m'')
    ensures SameSlots(m, m'')
  {}

  lemma HeldLock(lay: Layout, m0: Memory, a: nat)
    requires a < |m0| && !m0[a].locked && Hot(lay, a)
    ensures Held(lay, m0, m0[a := Lock(m0[a])], a)
  {}

  lemma HeldStep(lay: Layout, m0: Memory, m: Memory, m': Memory, a: nat)
    requires Held(lay, m0, m, a) && Frame(lay, m, m')
    ensures Held(lay, m0, m', a) && m'[a] == m[a] && m[a].slots == m0[a].slots
  {}

  lemma HeldClose(lay: Layout, m0: Memory, m: Memory, a: nat, b: Bucket)
    requires Held(lay, m0, m, a) && !b.locked
    ensures a < |m| && Frame(lay, m0, m[a := b])
  {}

  lemma FramePut(lay: Layout, m: Memory, a: nat, b: Bucket)
    requires a < |m| && Hot(lay, a) && !m[a].locked && !b.locked
    ensures Frame(lay, m, m[a := b])
  {}

  lemma FrameAt(lay: Layout, m: Memory, m': Memory, a: nat)
    requires Frame(lay, m, m') && a < |m| && (m[a].locked || !Hot(lay, a))
    ensures m'[a] == m[a]
  {}

  ghost predicate BucketEmpty(b: Bucket) {
    forall s :: 0 <= s < |b.slots| ==> b.slots[s].Empty?
  }

  /** Like `Frame`, except that entries may have left old_BL bucket `a`. */
  ghost predicate Drained(lay: Layout, m: Memory, m': Memory, a: nat) {
    && |m| == |m'|
    && (forall b :: 0 <= b < |m| ==> m'[b].locked == m[b].locked)
    && (forall b :: 0 <= b < |m| && b != a && (m[b].locked || !Hot(lay, b)) ==> m'[b] == m[b])
  }

  lemma DrainedClose(hs: Hashing, lay: Layout, m0: Memory, m: Memory, a: nat, b: Bucket)
    requires a < |m0| && !m0[a].locked && !Hot(lay, a)
    requires Frame(lay, m0[a := Lock(m0[a])], m) && Placed(hs, lay, m)
    requires !b.locked && b.ver < VERSIONS && |b.slots| == SLOTS
    requires |m0[a].slots| == SLOTS && forall s :: 0 <= s < SLOTS ==> b.slots[s] == m0[a].slots[s] || b.slots[s].Empty?
    ensures a < |m| && m[a] == Lock(m0[a]) && Drained(lay, m0, m[a := b], a) && Placed(hs, lay, m[a := b])
  {
    hide Candidate, MakeFp;
    assert BucketOk(hs, lay, a, m[a]);
    assert BucketOk(hs, lay, a, b);
  }

  /** One slot's value moved from the kept part to the new layout. */
  lemma Shift(all: multiset<Value>, kept: multiset<Value>, all': multiset<Value>, kept': multiset<Value>, v: Value)
    requires all' == all + multiset{v} && kept' + multiset{v} == kept
    ensures all' + kept' == all + kept
  {}

  lemma Cancel(x: multiset<Value>, y: multiset<Value>, z: multiset<Value>)
    requires x + z == y + z
    ensures x == y
  {
    forall v ensures x[v] == y[v] {
      assert (x + z)[v] == (y + z)[v];
    }
  }

  // ── lookup, update and erase as outcomes on memory ──

  /** What update_fn or erase does to the slot it matched. */
  datatype Edit = Update(f: Value -> Value) | Remove

  ghost predicate KeepsKey(e: Edit) {
    e.Update? ==> forall v :: e.f(v).key == v.key
  }

  function Apply(e: Edit, s: Slot): Slot
    requires s.Full?
  {
    if e.Remove? then Empty else Full(s.fp, e.f(s.val))
  }

  /** The first slot whose fingerprint and key both match. */
  function FirstMatch(slots: seq<Slot>, fp: nat, k: Key): (r: Option<nat>)
    ensures r.Some? ==> r.value < |slots| && slots[r.value].Full? && slots[r.value].fp == fp && slots[r.value].val.key == k
    ensures r.None? ==> forall s :: 0 <= s < |slots| && slots[s].Full? && slots[s].fp == fp ==> slots[s].val.key != k
  {
    if slots == [] then None
    else if slots[0].Full? && slots[0].fp == fp && slots[0].val.key == k then Some(0)
    else
      var r := FirstMatch(slots[1..], fp, k);
      if r.None? then
        assert forall s :: 1 <= s < |slots| ==> slots[s] == slots[1..][s - 1];
        None
      else Some(r.value + 1)
  }

  ghost predicate Absent(m: Memory, k: Key) {
    forall a, s :: 0 <= a < |m| && 0 <= s < |m[a].slots| && m[a].slots[s].Full? ==> m[a].slots[s].val.key != k
  }

  ghost predicate FindOutcome(m: Memory, k: Key, r: Option<Value>) {
    && (r.None? ==> Absent(m, k))
    && (r.Some? ==> r.value.key == k && r.value in All(m))
  }

  /** Slot (a, s) was edited; every other slot is as it was. */
  ghost predicate Edited(m: Memory, m': Memory, a: nat, s: nat, e: Edit) {
    && a < |m| && |m| == |m'| && s < |m[a].slots| && m[a].slots[s].Full?
    && m'[a].slots == m[a].slots[s := Apply(e, m[a].slots[s])]
    && forall b :: 0 <= b < |m| && b != a ==> m'[b].slots == m[b].slots
  }

  ghost predicate EditOutcome(m: Memory, m': Memory, k: Key, e: Edit, was: Option<Value>) {
    && (was.None? ==> Absent(m, k) && SameSlots(m, m'))
    && (was.Some? ==> was.value.key == k)
    && (was.Some? ==> exists a: nat, s: nat :: Edited(m, m', a, s, e) && m[a].slots[s].val == was.value)
  }

  lemma PutEdited(hs: Hashing, lay: Layout, m: Memory, a: nat, b: Bucket, s: nat, e: Edit)
    requires Placed(hs, lay, m) && a < |m| && s < SLOTS && b.ver < VERSIONS && KeepsKey(e)
    requires m[a].slots[s].Full? && b.slots == m[a].slots[s := Apply(e, m[a].slots[s])]
    ensures Placed(hs, lay, m[a := b]) && Edited(m, m[a := b], a, s, e)
  {
    hide Candidate, MakeFp;
    assert BucketOk(hs, lay, a, m[a]);
    assert BucketOk(hs, lay, a, b);
  }

  lemma EditedFrom(m0: Memory, m: Memory, m': Memory, a: nat, s: nat, e: Edit)
    requires SameSlots(m0, m) && Edited(m, m', a, s, e)
    ensures Edited(m0, m', a, s, e) && m0[a].slots == m[a].slots
  {}

  lemma EditedOutcome(m0: Memory, m: Memory, m': Memory, k: Key, a: nat, s: nat, e: Edit)
    requires SameSlots(m0, m) && Edited(m, m', a, s, e) && m[a].slots[s].val.key == k
    ensures EditOutcome(m0, m', k, e, Some(m[a].slots[s].val))
  {
    EditedFrom(m0, m, m', a, s, e);
  }

  /** An update exchanges one value of the key for its image; an erase removes one. */
  lemma EditContents(m: Memory, m': Memory, a: nat, s: nat, e: Edit)
    requires Edited(m, m', a, s, e)
    ensures m[a].slots[s].val in All(m)
    ensures All(m') == All(m) - multiset{m[a].slots[s].val} + One(Apply(e, m[a].slots[s]))
  {
    hide All, KeepsKey;
    var b := m[a].(slots := m'[a].slots);
    SlotSet(m, a, b, s, Apply(e, m[a].slots[s]));
    AllSame(m[a := b], m');
    var v := m[a].slots[s].val;
    AllMember(m, v);
    assert Holds(m, a, s, v);
    Exchanged(All(m'), All(m), v, One(Apply(e, m[a].slots[s])));
  }

  lemma Exchanged(after: multiset<Value>, before: multiset<Value>, v: Value, x: multiset<Value>)
    requires v in before && after + multiset{v} == before + x
    ensures after == before - multiset{v} + x
  {
    forall w ensures after[w] == (before - multiset{v} + x)[w] {
      assert (after + multiset{v})[w] == (before + x)[w];
    }
  }

  ghost predicate KeyUnique(m: Memory) {
    forall a, s, b, t ::
      (&& 0 <= a < |m| && 0 <= s < |m[a].slots| && m[a].slots[s].Full?
       && 0 <= b < |m| && 0 <= t < |m[b].slots| && m[b].slots[t].Full?
       && m[a].slots[s].val.key == m[b].slots[t].val.key) ==> a == b && s == t
  }

  /** On a key-unique table the outcomes of find, update and erase are unique, so
      they do not depend on the order in which hints make the candidates be probed. */
  lemma HintTransparency(m: Memory, k: Key, e: Edit, r1: Option<Value>, r2: Option<Value>,
                         m1: Memory, m2: Memory, was1: Option<Value>, was2: Option<Value>)
    requires KeyUnique(m)
    requires FindOutcome(m, k, r1) && FindOutcome(m, k, r2)
    requires EditOutcome(m, m1, k, e, was1) && EditOutcome(m, m2, k, e, was2)
    ensures r1 == r2 == was1 == was2 && SameSlots(m1, m2)
  {
    hide All;
    if r1.Some? {
      AllMember(m, r1.value);
    }
    if r2.Some? {
      AllMember(m, r2.value);
    }
    if was1.Some? {
      var a: nat, s: nat :| Edited(m, m1, a, s, e) && m[a].slots[s].val == was1.value;
      assert !Absent(m, k);
    }
  }

  /** Freshly allocated, zeroed buckets. */
  function ZeroLevel(n: nat): (e: Memory)
    ensures |e| == n && Unlocked(e)
    ensures forall a :: 0 <= a < n ==> e[a].slots == seq(SLOTS, i => Empty) && e[a].ver == 0
  {
    seq(n, i => Bucket(false, 0, seq(SLOTS, i => Empty)))
  }

  /** A candidate bucket: `kind` 0 is TL, 1 is BL, 2 is old_BL. */
  datatype Cand = Cand(kind: nat, idx: nat)

  class Table {
    const hs: Hashing
    var mem: Memory
    /** size_ of every server's handle on the table. */
    var size: seq<int>
    /** The local tag hint of every server. */
    var hints: seq<TagHints.TagHint>

    constructor (hs: Hashing, tlBuckets: nat, nMds: nat)
      requires tlBuckets >= 4
      ensures this.hs == hs && |size| == |hints| == nMds && size == seq(nMds, j => 0)
      ensures |mem| == tlBuckets + tlBuckets / 2 && Unlocked(mem) && All(mem) == multiset{}
      ensures forall lay :: Placed(hs, lay, mem)
    {
      this.hs := hs;
      mem := ZeroLevel(tlBuckets + tlBuckets / 2);
      size := seq(nMds, j => 0);
      hints := seq(nMds, j => TagHints.Fresh(tlBuckets + tlBuckets / 2));
      new;
      AllAppendEmpty([], mem);
      assert [] + mem == mem;
    }

    ghost predicate Ready(me: nat, lay: Layout)
      reads this
    {
      && me < |size| && |size| == |hints|
      && LayoutOk(lay, |mem|)
      && Placed(hs, lay, mem)
    }

    function LevelOf(lay: Layout, kind: nat): Level {
      if kind == 0 then lay.tl else if kind == 1 then lay.bl else lay.ob
    }

    function Addr(lay: Layout, kind: nat, idx: nat): nat {
      LevelOf(lay, kind).off + idx
    }

    /** Bucket `idx` of TL (kind 0) or BL (kind 1) is a candidate of `k`. */
    ghost predicate Target(lay: Layout, kind: nat, idx: nat, k: Key) {
      kind < 2 && idx < LevelOf(lay, kind).n && Home(hs, LevelOf(lay, kind), k, Addr(lay, kind, idx))
    }

    // ── when a movement must succeed ──

    /** Nothing can be put into this bucket now. */
    ghost predicate Shut(m: Memory, b: nat) {
      b < |m| && (m[b].locked || !HasEmpty(m[b].slots))
    }

    /** The other bucket, on the same level, of an occupant of bucket `idx`. */
    function OtherBucket(lay: Layout, kind: nat, idx: nat, k: Key): nat
      requires LevelOf(lay, kind).n >= 2
    {
      var n := LevelOf(lay, kind).n;
      Addr(lay, kind, if idx < n / 2 then SIdx(hs, k, n) else FIdx(hs, k, n))
    }

    /** No occupant of the bucket can move to its other bucket on the level. */
    ghost predicate Jammed(m: Memory, lay: Layout, kind: nat, idx: nat)
      requires LevelOf(lay, kind).n >= 2
    {
      var a := Addr(lay, kind, idx);
      && a < |m|
      && (m[a].locked || forall s :: 0 <= s < |m[a].slots| && m[a].slots[s].Full? ==> Shut(m, OtherBucket(lay, kind, idx, m[a].slots[s].val.key)))
    }

    /** The two top-level buckets of a key. */
    function Above(lay: Layout, k: Key, t: nat): nat
      requires lay.tl.n >= 2
    {
      Addr(lay, 0, if t == 0 then FIdx(hs, k, lay.tl.n) else SIdx(hs, k, lay.tl.n))
    }

    /** No occupant of the bottom bucket can move up. */
    ghost predicate NoLift(m: Memory, lay: Layout, idx: nat)
      requires lay.tl.n >= 2
    {
      var a := Addr(lay, 1, idx);
      && a < |m|
      && (m[a].locked || forall s :: 0 <= s < |m[a].slots| && m[a].slots[s].Full? ==>
            Shut(m, Above(lay, m[a].slots[s].val.key, 0)) && Shut(m, Above(lay, m[a].slots[s].val.key, 1)))
    }

    lemma ShutBack(lay: Layout, m0: Memory, m: Memory, a: nat, b: nat)
      requires Held(lay, m0, m, a) && SameSlots(m0, m) && b != a && Shut(m, b)
      ensures Shut(m0, b)
    {
    }

    lemma ShutSame(lay: Layout, m0: Memory, m: Memory, b: nat)
      requires Frame(lay, m0, m) && SameSlots(m0, m) && Shut(m, b)
      ensures Shut(m0, b)
    {
    }

    /** Whether a bucket is jammed depends on slots and locks alone. */
    lemma JammedBack(lay: Layout, m0: Memory, m: Memory, kind: nat, idx: nat)
      requires Frame(lay, m0, m) && SameSlots(m0, m) && LevelOf(lay, kind).n >= 2 && lay.tl.n >= 2
      ensures Jammed(m, lay, kind, idx) ==> Jammed(m0, lay, kind, idx)
      ensures NoLift(m, lay, idx) ==> NoLift(m0, lay, idx)
    {
      hide FIdx, SIdx;
      assert forall b :: Shut(m, b) ==> Shut(m0, b);
    }

    method HintSet(me: nat, lay: Layout, kind: nat, idx: nat, s: nat, fp: nat)
      requires me < |hints|
      modifies `hints
      ensures |hints| == old(|hints|)
    {
      hints := hints[me := TagHints.Set(hints[me], BucketId(lay, kind, idx), s, fp)];
    }

    /** global_bucket_id: old_BL (kind 2) shares its rows with BL. */
    function BucketId(lay: Layout, kind: nat, idx: nat): (b: nat) {
      if kind == 0 then idx else lay.tl.n + idx
    }

    /** try_insert_into and the victim's half of a movement: fill the first empty slot. */
    method PlaceDirect(me: nat, lay: Layout, kind: nat, idx: nat, fp: nat, val: Value)
      requires Ready(me, lay) && Target(lay, kind, idx, val.key) && fp == MakeFp(hs, val.key)
      requires !mem[Addr(lay, kind, idx)].locked && HasEmpty(mem[Addr(lay, kind, idx)].slots)
      modifies `mem, `hints
      ensures Ready(me, lay) && Frame(lay, old(mem), mem)
      ensures All(mem) == old(All(mem)) + multiset{val}
    {
      hide Placed, Frame, FIdx, SIdx, MakeFp, All;
      var a := Addr(lay, kind, idx);
      var keys := mem[a];
      PlacedAt(hs, lay, mem, a);
      var t := FirstEmpty(keys.slots);
      var b := Commit(keys, keys.slots[t := Full(fp, val)]);
      SlotSet(mem, a, b, t, Full(fp, val));
      PutFull(hs, lay, mem, a, b, t, val);
      FramePut(lay, mem, a, b);
      mem := mem[a := b];
      HintSet(me, lay, kind, idx, t, fp);
    }

    /** Second half of a movement: the victim of slot `s` has a second copy elsewhere, so
        the locked source bucket is committed with the new value in its place.
        `m0` is the memory before the source bucket was locked. */
    method TakeSlot(me: nat, lay: Layout, kind: nat, idx: nat, s: nat, val: Value, count: bool, ghost m0: Memory)
      requires Ready(me, lay) && Target(lay, kind, idx, val.key)
      requires Held(lay, m0, mem, Addr(lay, kind, idx))
      requires s < |mem[Addr(lay, kind, idx)].slots| && mem[Addr(lay, kind, idx)].slots[s].Full?
      requires All(mem) == All(m0) + multiset{mem[Addr(lay, kind, idx)].slots[s].val}
      modifies `mem, `size, `hints
      ensures Ready(me, lay) && Frame(lay, m0, mem)
      ensures All(mem) == All(m0) + multiset{val}
      ensures size == if count then old(size)[me := old(size)[me] + 1] else old(size)
    {
      hide Placed, Frame, Held, FIdx, SIdx, MakeFp, All;
      var a := Addr(lay, kind, idx);
      var fp, keys := MakeFp(hs, val.key), mem[a];
      PlacedAt(hs, lay, mem, a);
      var b := Unlock(keys, keys.slots[s := Full(fp, val)]);
      SlotSet(mem, a, b, s, Full(fp, val));
      PutFull(hs, lay, mem, a, b, s, val);
      HeldClose(lay, m0, mem, a, b);
      Exchange(All(m0), All(mem), All(mem[a := b]), keys.slots[s].val, val);
      mem := mem[a := b];
      if count {
        size := size[me := size[me] + 1];
      }
      HintSet(me, lay, kind, idx, s, fp);
    }

    /** same_level_movement_and_place. `kind` is 0 for TL, 1 for BL. */
    method SameLevelMove(me: nat, lay: Layout, kind: nat, idx: nat, val: Value, extra: bool, count: bool)
      returns (ok: bool)
      requires Ready(me, lay) && Target(lay, kind, idx, val.key)
      modifies `mem, `size, `hints
      ensures Ready(me, lay) && Frame(lay, old(mem), mem)
      ensures ok ==> All(mem) == old(All(mem)) + multiset{val}
      ensures !ok ==> SameSlots(old(mem), mem) && Jammed(old(mem), lay, kind, idx)
      ensures size == if ok && count then old(size)[me := old(size)[me] + 1] else old(size)
      decreases extra, 1
    {
      hide Placed, Frame, Held, SameSlots, FIdx, SIdx, MakeFp, All, Shut;
      var v := LevelOf(lay, kind);
      var a := Addr(lay, kind, idx);
      var keys := mem[a];
      if keys.locked {
        FrameRefl(lay, mem);
        return false;
      }
      PlacedAt(hs, lay, mem, a);
      PutSame(hs, lay, mem, a, Lock(keys));
      HeldLock(lay, mem, a);
      mem := mem[a := Lock(keys)];
      var s := 0;
      while s < SLOTS
        invariant s <= SLOTS
        invariant Ready(me, lay) && Held(lay, old(mem), mem, a) && SameSlots(old(mem), mem)
        invariant size == old(size)
        invariant forall r :: 0 <= r < s && keys.slots[r].Full? ==> Shut(old(mem), OtherBucket(lay, kind, idx, keys.slots[r].val.key))
      {
        if keys.slots[s].Full? {
          var victim := keys.slots[s].val;
          var j := if idx < v.n / 2 then SIdx(hs, victim.key, v.n) else FIdx(hs, victim.key, v.n);
          ghost var m1 := mem;
          AllSame(old(mem), m1);
          var placed := Relocate(me, lay, kind, j, keys.slots[s].fp, victim, extra);
          HeldStep(lay, old(mem), m1, mem, a);
          if placed {
            TakeSlot(me, lay, kind, idx, s, val, count, old(mem));
            return true;
          }
          ShutBack(lay, old(mem), m1, a, Addr(lay, kind, j));
          SlotsTrans(old(mem), m1, mem);
        }
        s := s + 1;
      }
      Release(me, lay, a, keys.slots, old(mem));
      return false;
    }

    /** A victim's other bucket: placed there directly, or, if an extra move is allowed, by moving one
        of that bucket's entries in turn. */
    method Relocate(me: nat, lay: Layout, kind: nat, j: nat, fp: nat, victim: Value, extra: bool) returns (placed: bool)
      requires Ready(me, lay) && Target(lay, kind, j, victim.key) && fp == MakeFp(hs, victim.key)
      modifies `mem, `size, `hints
      ensures Ready(me, lay) && Frame(lay, old(mem), mem)
      ensures placed ==> All(mem) == old(All(mem)) + multiset{victim}
      ensures !placed ==> SameSlots(old(mem), mem) && Shut(old(mem), Addr(lay, kind, j))
      ensures size == old(size)
      decreases extra, 0
    {
      hide Placed, Frame, Held, SameSlots, FIdx, SIdx, MakeFp, All;
      FrameRefl(lay, mem);
      placed := false;
      if !mem[Addr(lay, kind, j)].locked {
        if HasEmpty(mem[Addr(lay, kind, j)].slots) {
          PlaceDirect(me, lay, kind, j, fp, victim);
          placed := true;
        } else if extra {
          placed := SameLevelMove(me, lay, kind, j, victim, false, false);
          if !placed && kind == 1 {
            ghost var m2 := mem;
            AllSame(old(mem), m2);
            placed := PromoteMove(me, lay, j, victim, false, false);
            FrameTrans(lay, old(mem), m2, mem);
            if !placed {
              SlotsTrans(old(mem), m2, mem);
            }
          }
        }
      }
    }

    /** unlock_bucket at the end of a movement that found nothing to displace. */
    method Release(me: nat, lay: Layout, a: nat, slots: seq<Slot>, ghost m0: Memory)
      requires Ready(me, lay) && Held(lay, m0, mem, a) && SameSlots(m0, mem) && slots == m0[a].slots
      modifies `mem
      ensures Ready(me, lay) && Frame(lay, m0, mem) && SameSlots(m0, mem)
    {
      var b := Unlock(mem[a], slots);
      PlacedAt(hs, lay, mem, a);
      PutSame(hs, lay, mem, a, b);
      SlotsTrans(m0, mem, mem[a := b]);
      HeldClose(lay, m0, mem, a, b);
      mem := mem[a := b];
    }

    /** A victim's two top-level buckets: placed in one directly, or, if an extra move is allowed, by moving
        one of its entries in turn. */
    method Lift(me: nat, lay: Layout, fp: nat, victim: Value, extra: bool) returns (placed: bool)
      requires Ready(me, lay) && fp == MakeFp(hs, victim.key)
      modifies `mem, `size, `hints
      ensures Ready(me, lay) && Frame(lay, old(mem), mem)
      ensures placed ==> All(mem) == old(All(mem)) + multiset{victim}
      ensures !placed ==> SameSlots(old(mem), mem) && Shut(old(mem), Above(lay, victim.key, 0)) && Shut(old(mem), Above(lay, victim.key, 1))
      ensures size == old(size)
      decreases extra, 2
    {
      hide Placed, Frame, SameSlots, FIdx, SIdx, MakeFp, All, Shut;
      FrameRefl(lay, mem);
      var ti := 0;
      while ti < 2
        invariant ti <= 2
        invariant Ready(me, lay) && Frame(lay, old(mem), mem) && SameSlots(old(mem), mem) && size == old(size)
        invariant forall r :: 0 <= r < ti ==> Shut(old(mem), Above(lay, victim.key, r))
      {
        var j := if ti == 0 then FIdx(hs, victim.key, lay.tl.n) else SIdx(hs, victim.key, lay.tl.n);
        ghost var m1 := mem;
        AllSame(old(mem), m1);
        placed := LiftInto(me, lay, j, fp, victim, extra);
        FrameTrans(lay, old(mem), m1, mem);
        if placed {
          return;
        }
        ShutSame(lay, old(mem), m1, Addr(lay, 0, j));
        SlotsTrans(old(mem), m1, mem);
        ti := ti + 1;
      }
      placed := false;
    }

    method LiftInto(me: nat, lay: Layout, j: nat, fp: nat, victim: Value, extra: bool) returns (placed: bool)
      requires Ready(me, lay) && Target(lay, 0, j, victim.key) && fp == MakeFp(hs, victim.key)
      modifies `mem, `size, `hints
      ensures Ready(me, lay) && Frame(lay, old(mem), mem)
      ensures placed ==> All(mem) == old(All(mem)) + multiset{victim}
      ensures !placed ==> SameSlots(old(mem), mem) && Shut(old(mem), Addr(lay, 0, j))
      ensures size == old(size)
      decreases extra, 1
    {
      hide Placed, Frame, SameSlots, FIdx, SIdx, MakeFp, All;
      FrameRefl(lay, mem);
      placed := false;
      if !mem[Addr(lay, 0, j)].locked {
        if HasEmpty(mem[Addr(lay, 0, j)].slots) {
          PlaceDirect(me, lay, 0, j, fp, victim);
          placed := true;
        } else if extra {
          placed := SameLevelMove(me, lay, 0, j, victim, false, false);
        }
      }
    }

    /** b2t_movement_and_place: promote one BL occupant to TL and take its slot. */
    method PromoteMove(me: nat, lay: Layout, idx: nat, val: Value, extra: bool, count: bool)
      returns (ok: bool)
      requires Ready(me, lay) && Target(lay, 1, idx, val.key)
      modifies `mem, `size, `hints
      ensures Ready(me, lay) && Frame(lay, old(mem), mem)
      ensures ok ==> All(mem) == old(All(mem)) + multiset{val}
      ensures !ok ==> SameSlots(old(mem), mem) && NoLift(old(mem), lay, idx)
      ensures size == if ok && count then old(size)[me := old(size)[me] + 1] else old(size)
      decreases extra, 3
    {
      hide Placed, Frame, Held, SameSlots, FIdx, SIdx, MakeFp, All, Shut;
      var a := Addr(lay, 1, idx);
      var keys := mem[a];
      if keys.locked {
        FrameRefl(lay, mem);
        return false;
      }
      PlacedAt(hs, lay, mem, a);
      PutSame(hs, lay, mem, a, Lock(keys));
      HeldLock(lay, mem, a);
      mem := mem[a := Lock(keys)];
      var s := 0;
      while s < SLOTS
        invariant s <= SLOTS
        invariant Ready(me, lay) && Held(lay, old(mem), mem, a) && SameSlots(old(mem), mem)
        invariant size == old(size)
        invariant forall r :: 0 <= r < s && keys.slots[r].Full? ==>
                    Shut(old(mem), Above(lay, keys.slots[r].val.key, 0)) && Shut(old(mem), Above(lay, keys.slots[r].val.key, 1))
      {
        if keys.slots[s].Full? {
          var victim := keys.slots[s].val;
          ghost var m1 := mem;
          AllSame(old(mem), m1);
          var placed := Lift(me, lay, keys.slots[s].fp, victim, extra);
          HeldStep(lay, old(mem), m1, mem, a);
          if placed {
            TakeSlot(me, lay, 1, idx, s, val, count, old(mem));
            return true;
          }
          ShutBack(lay, old(mem), m1, a, Above(lay, victim.key, 0));
          ShutBack(lay, old(mem), m1, a, Above(lay, victim.key, 1));
          SlotsTrans(old(mem), m1, mem);
        }
        s := s + 1;
      }
      Release(me, lay, a, keys.slots, old(mem));
      return false;
    }

    // ── insertion ──

    /** get_candidates: old_BL first while migrating, then TL, then BL. */
    function Candidates(lay: Layout, k: Key): (cs: seq<Cand>)
      requires lay.tl.n >= 2 && lay.bl.n >= 2 && (lay.active ==> lay.ob.n >= 2)
      ensures forall c :: 0 <= c < |cs| && cs[c].kind < 2 ==> Target(lay, cs[c].kind, cs[c].idx, k)
      ensures forall c :: 0 <= c < |cs| ==> cs[c].kind < 3 && cs[c].idx < LevelOf(lay, cs[c].kind).n
      ensures forall c :: 0 <= c < |cs| && cs[c].kind == 2 ==> lay.active
    {
      var hot := [Cand(0, FIdx(hs, k, lay.tl.n)), Cand(0, SIdx(hs, k, lay.tl.n)),
                  Cand(1, FIdx(hs, k, lay.bl.n)), Cand(1, SIdx(hs, k, lay.bl.n))];
      if !lay.active then hot
      else [Cand(2, FIdx(hs, k, lay.ob.n)), Cand(2, SIdx(hs, k, lay.ob.n))] + hot
    }

    lemma CandidatesComplete(lay: Layout, k: Key, a: int)
      requires lay.tl.n >= 2 && lay.bl.n >= 2 && (lay.active ==> lay.ob.n >= 2)
      requires Candidate(hs, lay, k, a)
      ensures exists c :: 0 <= c < |Candidates(lay, k)| && Addr(lay, Candidates(lay, k)[c].kind, Candidates(lay, k)[c].idx) == a
    {
      hide FIdx, SIdx;
      var cs := Candidates(lay, k);
      var d := if lay.active then 2 else 0;
      if Home(hs, lay.tl, k, a) {
        assert Addr(lay, cs[d].kind, cs[d].idx) == a || Addr(lay, cs[d + 1].kind, cs[d + 1].idx) == a;
      } else if Home(hs, lay.bl, k, a) {
        assert Addr(lay, cs[d + 2].kind, cs[d + 2].idx) == a || Addr(lay, cs[d + 3].kind, cs[d + 3].idx) == a;
      } else {
        assert Addr(lay, cs[0].kind, cs[0].idx) == a || Addr(lay, cs[1].kind, cs[1].idx) == a;
      }
    }

    /** No bucket of the key's TL and BL candidates has a free slot that can be taken now. */
    ghost predicate Crowded(m: Memory, lay: Layout, k: Key)
      requires lay.tl.n >= 2 && lay.bl.n >= 2 && (lay.active ==> lay.ob.n >= 2)
    {
      forall c :: 0 <= c < |Candidates(lay, k)| && Candidates(lay, k)[c].kind != 2 ==> NoRoom(m, lay, Candidates(lay, k)[c])
    }

    ghost predicate NoRoom(m: Memory, lay: Layout, cand: Cand) {
      var a := Addr(lay, cand.kind, cand.idx);
      a < |m| && (m[a].locked || !HasEmpty(m[a].slots))
    }

    /** And no occupant of them can make room by one move. */
    ghost predicate Stuck(m: Memory, lay: Layout, k: Key)
      requires lay.tl.n >= 2 && lay.bl.n >= 2 && (lay.active ==> lay.ob.n >= 2)
    {
      var cs := Candidates(lay, k);
      && (forall c :: 0 <= c < |cs| && cs[c].kind != 2 ==> Jammed(m, lay, cs[c].kind, cs[c].idx))
      && (forall c :: 0 <= c < |cs| && cs[c].kind == 1 ==> NoLift(m, lay, cs[c].idx))
    }

    /** An insert of the key can find no place: no candidate bucket takes it, and none gives way. */
    ghost predicate NoPlace(m: Memory, lay: Layout, k: Key) {
      LayoutOk(lay, |m|) && Crowded(m, lay, k) && Stuck(m, lay, k)
    }

    /** An empty top level always has room. */
    lemma RoomAtTop(m: Memory, lay: Layout, k: Key)
      requires LayoutOk(lay, |m|) && Placed(hs, lay, m) && Unlocked(m)
      requires forall a :: lay.tl.off <= a < lay.tl.off + lay.tl.n ==> BucketEmpty(m[a])
      ensures !Crowded(m, lay, k)
    {
      hide Placed, FIdx, SIdx;
      var c := if lay.active then 2 else 0;
      var a := Addr(lay, 0, FIdx(hs, k, lay.tl.n));
      assert Candidates(lay, k)[c] == Cand(0, FIdx(hs, k, lay.tl.n));
      PlacedAt(hs, lay, m, a);
      assert m[a].slots[0].Empty?;
      assert !NoRoom(m, lay, Candidates(lay, k)[c]);
    }

    /** First pass of insert_impl and insert_to_new_layout over the TL and BL candidates. */
    method TryDirect(me: nat, lay: Layout, val: Value) returns (ok: bool)
      requires Ready(me, lay)
      modifies `mem, `hints
      ensures Ready(me, lay) && Frame(lay, old(mem), mem)
      ensures ok ==> All(mem) == old(All(mem)) + multiset{val}
      ensures !ok ==> mem == old(mem) && Crowded(mem, lay, val.key)
    {
      hide Placed, Frame, FIdx, SIdx, MakeFp, All, Candidates;
      var cands := Candidates(lay, val.key);
      FrameRefl(lay, mem);
      for c := 0 to |cands|
        invariant mem == old(mem) && hints == old(hints)
        invariant forall d :: 0 <= d < c && cands[d].kind != 2 ==> NoRoom(mem, lay, cands[d])
      {
        if cands[c].kind != 2 {
          var a := Addr(lay, cands[c].kind, cands[c].idx);
          if !mem[a].locked && HasEmpty(mem[a].slots) {
            PlaceDirect(me, lay, cands[c].kind, cands[c].idx, MakeFp(hs, val.key), val);
            return true;
          }
        }
      }
      return false;
    }

    /** One displacement phase of try_migrate_and_insert: same-level moves over the TL and BL
        candidates, then promotions from the BL candidates. */
    method TryPhase(me: nat, lay: Layout, val: Value, extra: bool) returns (ok: bool)
      requires Ready(me, lay)
      modifies `mem, `size, `hints
      ensures Ready(me, lay) && Frame(lay, old(mem), mem)
      ensures ok ==> All(mem) == old(All(mem)) + multiset{val}
      ensures !ok ==> SameSlots(old(mem), mem) && Stuck(old(mem), lay, val.key)
      ensures size == if ok then old(size)[me := old(size)[me] + 1] else old(size)
    {
      hide Placed, Frame, SameSlots, FIdx, SIdx, MakeFp, All, Candidates, Jammed, NoLift;
      var cands := Candidates(lay, val.key);
      FrameRefl(lay, mem);
      for c := 0 to 2 * |cands|
        invariant Ready(me, lay) && Frame(lay, old(mem), mem) && SameSlots(old(mem), mem)
        invariant size == old(size)
        invariant forall d :: 0 <= d < |cands| && d < c && cands[d].kind != 2 ==> Jammed(old(mem), lay, cands[d].kind, cands[d].idx)
        invariant forall d :: 0 <= d < c - |cands| && cands[d].kind == 1 ==> NoLift(old(mem), lay, cands[d].idx)
      {
        var cand := cands[if c < |cands| then c else c - |cands|];
        ghost var m1 := mem;
        AllSame(old(mem), m1);
        FrameRefl(lay, m1);
        ok := false;
        if c < |cands| && cand.kind != 2 {
          ok := SameLevelMove(me, lay, cand.kind, cand.idx, val, extra, true);
        } else if |cands| <= c && cand.kind == 1 {
          ok := PromoteMove(me, lay, cand.idx, val, extra, true);
        }
        FrameTrans(lay, old(mem), m1, mem);
        if ok {
          return;
        }
        if cand.kind != 2 {
          JammedBack(lay, old(mem), m1, cand.kind, cand.idx);
        }
        SlotsTrans(old(mem), m1, mem);
      }
      ok := false;
    }

    /** try_migrate_and_insert: one-hop phases, then two-hop ones while a resize is active. */
    method TryMigrateAndInsert(me: nat, lay: Layout, val: Value) returns (ok: bool)
      requires Ready(me, lay)
      modifies `mem, `size, `hints
      ensures Ready(me, lay) && Frame(lay, old(mem), mem)
      ensures ok ==> All(mem) == old(All(mem)) + multiset{val}
      ensures !ok ==> SameSlots(old(mem), mem) && Stuck(old(mem), lay, val.key)
      ensures size == if ok then old(size)[me := old(size)[me] + 1] else old(size)
    {
      hide Placed, Frame, SameSlots, All, Crowded, Stuck;
      ok := TryPhase(me, lay, val, false);
      if !ok && lay.active {
        ghost var m1 := mem;
        AllSame(old(mem), m1);
        ok := TryPhase(me, lay, val, true);
        FrameTrans(lay, old(mem), m1, mem);
        if !ok {
          SlotsTrans(old(mem), m1, mem);
        }
      }
    }

    /** insert_impl */
    method InsertImpl(me: nat, lay: Layout, val: Value) returns (ok: bool)
      requires Ready(me, lay)
      modifies `mem, `size, `hints
      ensures Ready(me, lay) && Frame(lay, old(mem), mem)
      ensures ok ==> All(mem) == old(All(mem)) + multiset{val}
      ensures !ok ==> SameSlots(old(mem), mem) && NoPlace(old(mem), lay, val.key)
      ensures size == if ok then old(size)[me := old(size)[me] + 1] else old(size)
    {
      hide Placed, Frame, SameSlots, All, Crowded, Stuck;
      ok := TryDirect(me, lay, val);
      if ok {
        size := size[me := size[me] + 1];
      } else {
        ok := TryMigrateAndInsert(me, lay, val);
      }
    }

    /** insert_to_new_layout: a migrated entry was counted when it was first inserted. */
    method InsertToNewLayout(me: nat, lay: Layout, val: Value) returns (ok: bool)
      requires Ready(me, lay)
      modifies `mem, `size, `hints
      ensures Ready(me, lay) && Frame(lay, old(mem), mem)
      ensures ok ==> All(mem) == old(All(mem)) + multiset{val}
      ensures !ok ==> SameSlots(old(mem), mem) && NoPlace(old(mem), lay, val.key)
      ensures size == old(size)
    {
      hide Placed, Frame, SameSlots, All, Crowded, Stuck;
      ok := TryDirect(me, lay, val);
      if !ok {
        ok := TryMigrateAndInsert(me, lay, val);
        if ok {
          size := size[me := size[me] - 1];
        }
      }
    }

    // ── migration of one old_BL bucket ──

    /** While bucket `a` was being drained there was a moment with no place for the key. */
    ghost predicate Tried(lay: Layout, m0: Memory, a: nat, k: Key) {
      a < |m0| && exists w :: Frame(lay, m0[a := Lock(m0[a])], w) && NoPlace(w, lay, k)
    }

    /** Whatever is left in the bucket had no place to go. */
    ghost predicate LeftOver(lay: Layout, m0: Memory, m: Memory, a: nat) {
      a < |m| && forall s :: 0 <= s < |m[a].slots| && m[a].slots[s].Full? ==> Tried(lay, m0, a, m[a].slots[s].val.key)
    }

    /** One entry of a migrating bucket: it either moves to the new layout or stays. */
    method MigrateSlot(me: nat, lay: Layout, kept: seq<Slot>, j: nat) returns (ok: bool)
      requires Ready(me, lay) && lay.active && j < |kept| && kept[j].Full?
      modifies `mem, `size, `hints
      ensures Ready(me, lay) && Frame(lay, old(mem), mem) && size == old(size)
      ensures All(mem) + Items(if ok then kept[j := Empty] else kept) == old(All(mem)) + Items(kept)
      ensures !ok ==> NoPlace(old(mem), lay, kept[j].val.key)
    {
      hide Placed, Frame, SameSlots, All, Items, NoPlace;
      ok := InsertToNewLayout(me, lay, kept[j].val);
      if ok {
        ItemsSet(kept, j, Empty);
        Shift(old(All(mem)), Items(kept), All(mem), Items(kept[j := Empty]), kept[j].val);
      } else {
        AllSame(old(mem), mem);
      }
    }

    /** The locked part of migrate_step. `done` says the bucket was emptied. */
    method MigrateBucket(me: nat, lay: Layout, a: nat) returns (done: bool)
      requires Ready(me, lay) && lay.active && InLevel(lay.ob, a) && !mem[a].locked
      modifies `mem, `size, `hints
      ensures Ready(me, lay) && Drained(lay, old(mem), mem, a)
      ensures All(mem) == old(All(mem)) && size == old(size)
      ensures (done <==> BucketEmpty(mem[a])) && LeftOver(lay, old(mem), mem, a)
    {
      hide Placed, Frame, SameSlots, Drained, All, Items, NoPlace;
      var keys := mem[a];
      PlacedAt(hs, lay, mem, a);
      PutSame(hs, lay, mem, a, Lock(keys));
      AllSame(mem, mem[a := Lock(keys)]);
      mem := mem[a := Lock(keys)];
      ghost var m1 := mem;
      FrameRefl(lay, m1);
      var kept := keys.slots;
      done := true;
      for j := 0 to SLOTS
        invariant Ready(me, lay) && Frame(lay, m1, mem) && size == old(size)
        invariant |kept| == SLOTS
        invariant forall s :: 0 <= s < SLOTS ==> kept[s] == keys.slots[s] || kept[s].Empty?
        invariant forall s :: j <= s < SLOTS ==> kept[s] == keys.slots[s]
        invariant done ==> forall s :: 0 <= s < j ==> kept[s].Empty?
        invariant !done ==> exists s :: 0 <= s < j && kept[s].Full?
        invariant All(mem) + Items(kept) == All(m1) + Items(keys.slots)
        invariant forall s :: 0 <= s < j && kept[s].Full? ==> Tried(lay, old(mem), a, kept[s].val.key)
      {
        if keys.slots[j].Full? {
          ghost var m2 := mem;
          var ok := MigrateSlot(me, lay, kept, j);
          FrameTrans(lay, m1, m2, mem);
          if ok {
            kept := kept[j := Empty];
          } else {
            done := false;
          }
        }
      }
      PlacedAt(hs, lay, mem, a);
      DrainedClose(hs, lay, old(mem), mem, a, Unlock(mem[a], kept));
      AllSet(mem, a, Unlock(mem[a], kept));
      FrameAt(lay, m1, mem, a);
      Cancel(All(mem[a := Unlock(mem[a], kept)]), All(m1), Items(keys.slots));
      mem := mem[a := Unlock(mem[a], kept)];
    }

    // ── lookup ──

    /** A candidate bucket without the key. */
    ghost predicate Miss(m: Memory, lay: Layout, cand: Cand, fp: nat, k: Key) {
      var a := Addr(lay, cand.kind, cand.idx);
      a < |m| && FirstMatch(m[a].slots, fp, k).None?
    }

    /** find_impl: hint-positive candidates first, then the others. */
    method FindImpl(me: nat, lay: Layout, k: Key) returns (r: Option<Value>)
      requires Ready(me, lay) && Unlocked(mem)
      modifies `hints
      ensures |hints| == old(|hints|)
      ensures FindOutcome(mem, k, r)
    {
      hide Placed, FIdx, SIdx, MakeFp, All, Candidates;
      var cands, fp := Candidates(lay, k), MakeFp(hs, k);
      var searched := seq(|cands|, c => false);
      for p := 0 to 2 * |cands|
        invariant |hints| == old(|hints|) && |searched| == |cands|
        invariant forall c :: 0 <= c < |cands| && (searched[c] || |cands| + c < p) ==> Miss(mem, lay, cands[c], fp, k)
      {
        var c := if p < |cands| then p else p - |cands|;
        var b := mem[Addr(lay, cands[c].kind, cands[c].idx)];
        var hinted := TagHints.Test(hints[me], BucketId(lay, cands[c].kind, cands[c].idx), fp);
        if (p < |cands| && hinted) || (|cands| <= p && !searched[c]) {
          var s := FirstMatch(b.slots, fp, k);
          if s.Some? {
            if |cands| <= p && cands[c].kind != 2 {
              HintSet(me, lay, cands[c].kind, cands[c].idx, s.value, fp);
            }
            r := Some(b.slots[s.value].val);
            AllMember(mem, r.value);
            assert Holds(mem, Addr(lay, cands[c].kind, cands[c].idx), s.value, r.value);
            return;
          }
          searched := searched[c := true];
        }
      }
      r := None;
      NotFound(lay, k, mem);
    }

    /** If no candidate bucket holds the key, no bucket does. */
    lemma NotFound(lay: Layout, k: Key, m: Memory)
      requires LayoutOk(lay, |m|) && Placed(hs, lay, m)
      requires forall c :: 0 <= c < |Candidates(lay, k)| ==> Miss(m, lay, Candidates(lay, k)[c], MakeFp(hs, k), k)
      ensures Absent(m, k)
    {
      hide FIdx, SIdx, MakeFp, Candidates, Placed, Candidate;
      forall a, s | 0 <= a < |m| && 0 <= s < |m[a].slots| && m[a].slots[s].Full?
        ensures m[a].slots[s].val.key != k
      {
        PlacedAt(hs, lay, m, a);
        if m[a].slots[s].val.key == k {
          CandidatesComplete(lay, k, a);
        }
      }
    }

    // ── update and erase ──

    /** try_bucket of update_impl and erase_impl with try_update_in / try_erase_from. */
    method TryEdit(me: nat, lay: Layout, cand: Cand, k: Key, e: Edit) returns (at: Option<nat>)
      requires Ready(me, lay) && Unlocked(mem) && KeepsKey(e)
      requires cand.kind < 3 && cand.idx < LevelOf(lay, cand.kind).n && (cand.kind == 2 ==> lay.active)
      modifies `mem, `size, `hints
      ensures Ready(me, lay) && Unlocked(mem)
      ensures at == FirstMatch(old(mem)[Addr(lay, cand.kind, cand.idx)].slots, MakeFp(hs, k), k)
      ensures at.None? ==> SameSlots(old(mem), mem) && size == old(size)
      ensures at.Some? ==> Edited(old(mem), mem, Addr(lay, cand.kind, cand.idx), at.value, e)
      ensures at.Some? ==> size == if e.Remove? then old(size)[me := old(size)[me] - 1] else old(size)
    {
      hide Placed, FIdx, SIdx, MakeFp, All;
      var a := Addr(lay, cand.kind, cand.idx);
      var keys, fp := mem[a], MakeFp(hs, k);
      at := FirstMatch(keys.slots, fp, k);
      PlacedAt(hs, lay, mem, a);
      if at.None? {
        // A fingerprint collision still locks and unlocks the bucket.
        if exists s :: 0 <= s < |keys.slots| && keys.slots[s].Full? && keys.slots[s].fp == fp {
          PutSame(hs, lay, mem, a, Commit(keys, keys.slots));
          mem := mem[a := Commit(keys, keys.slots)];
        }
        return;
      }
      var b := Commit(keys, keys.slots[at.value := Apply(e, keys.slots[at.value])]);
      PutEdited(hs, lay, mem, a, b, at.value, e);
      mem := mem[a := b];
      if e.Remove? {
        size := size[me := size[me] - 1];
        if cand.kind != 2 {
          hints := hints[me := TagHints.Clear(hints[me], BucketId(lay, cand.kind, cand.idx), at.value)];
        }
      } else if cand.kind != 2 {
        HintSet(me, lay, cand.kind, cand.idx, at.value, fp);
      }
    }

    lemma MissFrom(m0: Memory, m: Memory, lay: Layout, cand: Cand, fp: nat, k: Key)
      requires SameSlots(m0, m) && Addr(lay, cand.kind, cand.idx) < |m|
      requires FirstMatch(m[Addr(lay, cand.kind, cand.idx)].slots, fp, k).None?
      ensures Miss(m0, lay, cand, fp, k)
    {
    }

    /** update_impl and erase_impl. */
    method EditImpl(me: nat, lay: Layout, k: Key, e: Edit) returns (was: Option<Value>)
      requires Ready(me, lay) && Unlocked(mem) && KeepsKey(e)
      modifies `mem, `size, `hints
      ensures Ready(me, lay) && Unlocked(mem)
      ensures EditOutcome(old(mem), mem, k, e, was)
      ensures size == if was.Some? && e.Remove? then old(size)[me := old(size)[me] - 1] else old(size)
    {
      hide Placed, FIdx, SIdx, MakeFp, All, Candidates, SameSlots, Edited, Absent, FirstMatch, Miss;
      var cands, fp := Candidates(lay, k), MakeFp(hs, k);
      var searched := seq(|cands|, c => false);
      FrameRefl(lay, mem);
      for p := 0 to 2 * |cands|
        invariant Ready(me, lay) && Unlocked(mem) && size == old(size) && |searched| == |cands|
        invariant SameSlots(old(mem), mem)
        invariant forall c :: 0 <= c < |cands| && (searched[c] || |cands| + c < p) ==> Miss(old(mem), lay, cands[c], fp, k)
      {
        var c := if p < |cands| then p else p - |cands|;
        var hinted := TagHints.Test(hints[me], BucketId(lay, cands[c].kind, cands[c].idx), fp);
        if (p < |cands| && hinted) || (|cands| <= p && !searched[c]) {
          ghost var m1 := mem;
          var a := Addr(lay, cands[c].kind, cands[c].idx);
          var b := mem[a];
          var at := TryEdit(me, lay, cands[c], k, e);
          if at.Some? {
            was := Some(b.slots[at.value].val);
            EditedOutcome(old(mem), m1, mem, k, a, at.value, e);
            return;
          }
          SlotsTrans(old(mem), m1, mem);
          MissFrom(old(mem), m1, lay, cands[c], fp, k);
          searched := searched[c := true];
        }
      }
      was := None;
      NotFound(lay, k, old(mem));
    }
  }
}
