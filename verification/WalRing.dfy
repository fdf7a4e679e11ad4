/** CompactWAL as a ring of 64-byte slots shared by any number of appenders and one
    checkpointer.  Reserving slots, writing one continuation, publishing a primary and
    clearing-and-advancing are the atomic steps; they interleave in any order.

    `log` is the history of successful reservations; `done` counts those already
    checkpointed away.  Orphan-slot skipping is not modelled. */
module WalRing {
  import opened RingIndex
  import opened WalCodec

  datatype Slot = Zero | Primary(word: nat, entry: Entry) | Cont(parentSeq: nat, data: string)

  /** The first word of the slot. */
  function Word(s: Slot): nat {
    match s
    case Zero => 0
    case Primary(word, _) => word
    case Cont(_, _) => OVERFLOW_MAGIC
  }

  /** One append: its position, local sequence number, record, and how far its writes have got. */
  datatype Append = Append(pos: nat, seqNo: nat, rec: Record, written: nat, published: bool)

  datatype Ring = Ring(cap: nat, head: nat, cp: nat, slots: seq<Slot>, log: seq<Append>, done: nat)

  function Size(a: Append): nat {
    1 + |a.rec.conts|
  }

  /** What slot k of an append holds. */
  function Image(a: Append, k: nat): Slot
    requires k < Size(a)
  {
    if k == 0 then
      if a.published then Primary(EncodeSeq(a.seqNo, |a.rec.conts|), a.rec.entry) else Zero
    else if |a.rec.conts| - k < a.written then Cont(a.seqNo, a.rec.conts[k - 1])
    else Zero
  }

  /** Position of the i-th append, or the head. */
  function PosOf(r: Ring, i: nat): nat
    requires i <= |r.log|
  {
    if i < |r.log| then r.log[i].pos else r.head
  }

  predicate AppendOk(a: Append) {
    && |a.rec.conts| <= MAX_CONTS && 0 < a.seqNo < CONT_UNIT
    && a.written <= |a.rec.conts|
    && (a.published ==> a.written == |a.rec.conts|)
  }

  // ── steps ──

  datatype Step =
    | Reserve(seqNo: nat, rec: Record)
    | WriteCont(i: nat)
    | Publish(i: nat)
    | Checkpoint(k: nat)

  predicate Enabled(r: Ring, s: Step) {
    match s
    case Reserve(seqNo, rec) => |rec.conts| <= MAX_CONTS && 0 < seqNo < CONT_UNIT
    case WriteCont(i) => r.done <= i < |r.log| && r.log[i].written < |r.log[i].rec.conts|
    case Publish(i) => r.done <= i < |r.log| && r.log[i].written == |r.log[i].rec.conts| && !r.log[i].published
    case Checkpoint(k) => r.done <= k <= |r.log| && forall i :: r.done <= i < k ==> r.log[i].published
  }

  function Put(r: Ring, p: nat, x: Slot): seq<Slot>
    requires 0 < r.cap == |r.slots|
  {
    r.slots[Idx(p, r.cap) := x]
  }

  function Cleared(slots: seq<Slot>, cap: nat, begin: nat, end: nat): (s: seq<Slot>)
    requires 0 < cap == |slots| && begin <= end
    ensures |s| == |slots|
    decreases end - begin
  {
    if begin == end then slots else Cleared(slots, cap, begin, end - 1)[Idx(end - 1, cap) := Zero]
  }

  function Next(r: Ring, s: Step): Ring
    requires Enabled(r, s) && 0 < r.cap == |r.slots| && (s.Checkpoint? ==> r.cp <= PosOf(r, s.k))
  {
    match s
    case Reserve(seqNo, rec) =>
      // TryReserveSlots
      if r.head + 1 + |rec.conts| - r.cp >= r.cap then r
      else r.(head := r.head + 1 + |rec.conts|, log := r.log + [Append(r.head, seqNo, rec, 0, false)])
    case WriteCont(i) =>
      // continuations go last to first
      var a := r.log[i];
      var c := |a.rec.conts| - 1 - a.written;
      r.(slots := Put(r, a.pos + 1 + c, Cont(a.seqNo, a.rec.conts[c])),
         log := r.log[i := a.(written := a.written + 1)])
    case Publish(i) =>
      var a := r.log[i];
      r.(slots := Put(r, a.pos, Primary(EncodeSeq(a.seqNo, |a.rec.conts|), a.rec.entry)),
         log := r.log[i := a.(published := true)])
    case Checkpoint(k) =>
      // ClearRange and AdvanceCheckpoint
      r.(slots := Cleared(r.slots, r.cap, r.cp, PosOf(r, k)), cp := PosOf(r, k), done := k)
  }

  // ── the invariant ──

  predicate Tiled(r: Ring) {
    && (forall i :: 0 <= i < |r.log| ==> r.log[i].pos + Size(r.log[i]) <= r.head)
    && (forall i, j :: 0 <= i < j < |r.log| ==> r.log[i].pos + Size(r.log[i]) <= r.log[j].pos)
    && (forall i {:trigger Adjacent(r, i)} :: 0 <= i < |r.log| ==> Adjacent(r, i))
  }

  /** Append i is followed directly by the next one, or by the head. */
  predicate Adjacent(r: Ring, i: nat)
    requires i < |r.log|
  {
    r.log[i].pos + Size(r.log[i]) == PosOf(r, i + 1)
  }

  predicate Inv(r: Ring) {
    && 0 < r.cap == |r.slots|
    && r.cp <= r.head < r.cp + r.cap
    && r.done <= |r.log| && r.cp == PosOf(r, r.done)
    && Tiled(r)
    && (forall i :: 0 <= i < |r.log| ==> AppendOk(r.log[i]))
    && (forall i :: 0 <= i < r.done ==> r.log[i].published)
    && (forall i, k :: r.done <= i < |r.log| && 0 <= k < Size(r.log[i]) ==> LiveAt(r, i, k))
    && (forall p :: r.head <= p < r.cp + r.cap ==> FreeAt(r, p))
  }

  /** Slot k of append i holds what has been written so far. */
  predicate LiveAt(r: Ring, i: nat, k: nat)
    requires 0 < r.cap == |r.slots| && i < |r.log| && k < Size(r.log[i])
  {
    r.slots[Idx(r.log[i].pos + k, r.cap)] == Image(r.log[i], k)
  }

  predicate FreeAt(r: Ring, p: nat)
    requires 0 < r.cap == |r.slots|
  {
    r.slots[Idx(p, r.cap)] == Zero
  }

  // ── steps keep the invariant ──

  lemma ReserveStep(r: Ring, seqNo: nat, rec: Record)
    requires Inv(r) && Enabled(r, Reserve(seqNo, rec))
    ensures Inv(Next(r, Reserve(seqNo, rec)))
  {
    hide Idx;
    var r' := Next(r, Reserve(seqNo, rec));
    if r' != r {
      forall i | 0 <= i < |r'.log| ensures Adjacent(r', i) {
        assert i < |r.log| ==> Adjacent(r, i);
      }
      forall i, k | r'.done <= i < |r'.log| && 0 <= k < Size(r'.log[i]) ensures LiveAt(r', i, k) {
        if i == |r.log| {
          assert FreeAt(r, r.head + k);
        } else {
          assert LiveAt(r, i, k);
        }
      }
      forall p | r'.head <= p < r.cp + r.cap ensures FreeAt(r', p) {
        assert FreeAt(r, p);
      }
    }
  }

  /** Live positions lie in the window of one capacity that starts at the checkpoint. */
  lemma Window(r: Ring, i: nat, k: nat)
    requires Inv(r) && r.done <= i < |r.log| && k < Size(r.log[i])
    ensures r.cp <= r.log[i].pos && r.log[i].pos + k < r.head
  {
    hide Idx, LiveAt, FreeAt;
  }

  lemma Apart(r: Ring, i: nat, k: nat, j: nat, l: nat)
    requires Inv(r) && r.done <= i < |r.log| && k < Size(r.log[i]) && r.done <= j < |r.log| && l < Size(r.log[j])
    ensures Idx(r.log[i].pos + k, r.cap) == Idx(r.log[j].pos + l, r.cap) ==> i == j && k == l
  {
    hide Idx, LiveAt, FreeAt;
    Window(r, i, k);
    Window(r, j, l);
    var p, q := r.log[i].pos + k, r.log[j].pos + l;
    if p < q {
      ModDistinct(p, q, r.cap);
    } else if q < p {
      ModDistinct(q, p, r.cap);
    }
  }

  /** Writing slot k0 of append i leaves every other live slot and the free slots alone. */
  lemma PutStep(r: Ring, i: nat, k0: nat, a: Append, x: Slot)
    requires Inv(r) && r.done <= i < |r.log| && k0 < Size(r.log[i])
    requires a == r.log[i].(written := a.written, published := a.published) && AppendOk(a)
    requires x == Image(a, k0) && forall k :: 0 <= k < Size(a) && k != k0 ==> Image(a, k) == Image(r.log[i], k)
    ensures Inv(r.(slots := Put(r, r.log[i].pos + k0, x), log := r.log[i := a]))
  {
    hide Idx;
    var r' := r.(slots := Put(r, r.log[i].pos + k0, x), log := r.log[i := a]);
    forall j | 0 <= j < |r'.log| ensures Adjacent(r', j) {
      assert Adjacent(r, j);
    }
    forall j, k | r.done <= j < |r'.log| && 0 <= k < Size(r'.log[j]) ensures LiveAt(r', j, k) {
      assert LiveAt(r, j, k);
      Apart(r, i, k0, j, k);
    }
    Window(r, i, k0);
    forall q | r.head <= q < r.cp + r.cap ensures FreeAt(r', q) {
      assert FreeAt(r, q);
      ModDistinct(r.log[i].pos + k0, q, r.cap);
    }
  }

  lemma {:induction false} ClearedAt(slots: seq<Slot>, cap: nat, begin: nat, end: nat, q: nat)
    requires 0 < cap == |slots| && begin <= end <= begin + cap
    requires begin <= q < begin + cap
    ensures Cleared(slots, cap, begin, end)[Idx(q, cap)] == if q < end then Zero else slots[Idx(q, cap)]
    decreases end
  {
    hide Idx;
    if begin < end {
      ClearedAt(slots, cap, begin, end - 1, q);
      if q < end - 1 {
        ModDistinct(q, end - 1, cap);
      } else if q > end - 1 {
        ModDistinct(end - 1, q, cap);
      }
    }
  }

  lemma CheckpointStep(r: Ring, k: nat)
    requires Inv(r) && Enabled(r, Checkpoint(k))
    ensures r.cp <= PosOf(r, k) && Inv(Next(r, Checkpoint(k)))
  {
    hide Idx, Cleared;
    var e := PosOf(r, k);
    assert r.cp <= e <= r.head;
    var r' := Next(r, Checkpoint(k));
    forall i | 0 <= i < |r'.log| ensures Adjacent(r', i) {
      assert Adjacent(r, i);
    }
    forall i, c | k <= i < |r.log| && 0 <= c < Size(r.log[i]) ensures LiveAt(r', i, c) {
      assert LiveAt(r, i, c);
      Window(r, i, c);
      ClearedAt(r.slots, r.cap, r.cp, e, r.log[i].pos + c);
    }
    forall q | r.head <= q < e + r.cap ensures FreeAt(r', q) {
      if q < r.cp + r.cap {
        assert FreeAt(r, q);
        ClearedAt(r.slots, r.cap, r.cp, e, q);
      } else {
        ModShift(q - r.cap, r.cap);
        ClearedAt(r.slots, r.cap, r.cp, e, q - r.cap);
      }
    }
  }

  lemma AppendAt(r: Ring, i: nat)
    requires Inv(r) && i < |r.log|
    ensures AppendOk(r.log[i]) && 0 < r.cap == |r.slots|
  {
  }

  lemma ContStep(r: Ring, i: nat)
    requires Inv(r) && Enabled(r, WriteCont(i)) && 0 < r.cap == |r.slots|
    ensures Inv(Next(r, WriteCont(i)))
  {
    hide Inv, Idx, EncodeSeq;
    AppendAt(r, i);
    var a := r.log[i];
    PutStep(r, i, |a.rec.conts| - a.written, a.(written := a.written + 1), Cont(a.seqNo, a.rec.conts[|a.rec.conts| - 1 - a.written]));
  }

  lemma PublishStep(r: Ring, i: nat)
    requires Inv(r) && Enabled(r, Publish(i)) && 0 < r.cap == |r.slots|
    ensures Inv(Next(r, Publish(i)))
  {
    hide Inv, Idx, EncodeSeq;
    AppendAt(r, i);
    var a := r.log[i];
    PutStep(r, i, 0, a.(published := true), Primary(EncodeSeq(a.seqNo, |a.rec.conts|), a.rec.entry));
  }

  lemma StepInv(r: Ring, s: Step)
    requires Inv(r) && Enabled(r, s)
    ensures s.Checkpoint? ==> r.cp <= PosOf(r, s.k)
    ensures Inv(Next(r, s))
  {
    match s {
      case Reserve(seqNo, rec) => ReserveStep(r, seqNo, rec);
      case WriteCont(i) => ContStep(r, i);
      case Publish(i) => PublishStep(r, i);
      case Checkpoint(k) => CheckpointStep(r, k);
    }
  }

  // ── every step gets somewhere ──

  /** Slots outside the live window. */
  function Free(r: Ring): int { r.cap - (r.head - r.cp) }

  /** A reservation takes its slots if and only if that leaves at least one slot free, and otherwise
      changes nothing. */
  lemma ReserveExact(r: Ring, seqNo: nat, rec: Record)
    requires Inv(r) && Enabled(r, Reserve(seqNo, rec))
    ensures var r' := Next(r, Reserve(seqNo, rec));
            if Free(r) > 1 + |rec.conts|
            then Free(r') == Free(r) - 1 - |rec.conts| > 0 && r'.log == r.log + [Append(r.head, seqNo, rec, 0, false)] && r'.slots == r.slots
            else r' == r
  {
  }

  /** The writes still to be made for append i, and then its publication. */
  function Finish(r: Ring, i: nat): Ring
    requires Inv(r) && r.done <= i < |r.log|
    decreases |r.log[i].rec.conts| - r.log[i].written, !r.log[i].published
  {
    assert AppendOk(r.log[i]);
    if r.log[i].written < |r.log[i].rec.conts| then
      StepInv(r, WriteCont(i));
      Finish(Next(r, WriteCont(i)), i)
    else if !r.log[i].published then
      StepInv(r, Publish(i));
      Next(r, Publish(i))
    else r
  }

  /** Every reserved record can be written and published, whatever the others are doing. */
  lemma {:induction false} Publishes(r: Ring, i: nat)
    requires Inv(r) && r.done <= i < |r.log|
    ensures var e := Finish(r, i);
            && Inv(e) && |e.log| == |r.log| && e.log[i].published && e.log[i].rec == r.log[i].rec && Backed(e, i)
            && (forall j :: 0 <= j < |r.log| && j != i ==> e.log[j] == r.log[j]) && e.head == r.head && e.done == r.done
    decreases |r.log[i].rec.conts| - r.log[i].written, !r.log[i].published
  {
    hide Idx, LiveAt, FreeAt, Tiled, EncodeSeq;
    assert AppendOk(r.log[i]);
    if r.log[i].written < |r.log[i].rec.conts| {
      StepInv(r, WriteCont(i));
      Publishes(Next(r, WriteCont(i)), i);
    } else {
      if !r.log[i].published {
        StepInv(r, Publish(i));
      }
      var e := Finish(r, i);
      forall k | 0 <= k < |e.log[i].rec.conts| ensures ContIn(e, i, k) {
        ContAt(e, i, k);
      }
    }
  }

  /** Clearing up to append k gives back exactly the slots of the appends before it. */
  lemma CheckpointFrees(r: Ring, k: nat)
    requires Inv(r) && Enabled(r, Checkpoint(k)) && r.cp <= PosOf(r, k)
    ensures var r' := Next(r, Checkpoint(k));
            Free(r') == Free(r) + PosOf(r, k) - PosOf(r, r.done) && r'.done == k && r'.log == r.log && r'.head == r.head
  {
  }

  // ── every interleaving ──

  ghost predicate Run(rs: seq<Ring>, steps: seq<Step>) {
    && |rs| == |steps| + 1
    && (forall i :: 0 <= i < |steps| ==> Enabled(rs[i], steps[i]))
    && (forall i :: 0 <= i < |steps| ==> 0 < rs[i].cap == |rs[i].slots| && (steps[i].Checkpoint? ==> rs[i].cp <= PosOf(rs[i], steps[i].k)))
    && (forall i :: 0 <= i < |steps| ==> rs[i + 1] == Next(rs[i], steps[i]))
  }

  /** Whatever the interleaving: the live window stays below one capacity, every slot outside
      it is zero, and a published primary has all its continuations in place behind it. */
  lemma {:induction false} RingSafety(rs: seq<Ring>, steps: seq<Step>, n: nat)
    requires Run(rs, steps) && n < |rs|
    requires rs[0].cap > 0 && rs[0] == Ring(rs[0].cap, 0, 0, seq(rs[0].cap, i => Zero), [], 0)
    ensures Inv(rs[n])
    ensures rs[n].head - rs[n].cp < rs[n].cap
    ensures forall i :: rs[n].done <= i < |rs[n].log| && rs[n].log[i].published ==> Backed(rs[n], i)
  {
    hide Idx;
    if n > 0 {
      RingSafety(rs, steps, n - 1);
      StepInv(rs[n - 1], steps[n - 1]);
    }
    hide LiveAt, FreeAt, Tiled;
    forall i | rs[n].done <= i < |rs[n].log| && rs[n].log[i].published ensures Backed(rs[n], i) {
      forall k | 0 <= k < |rs[n].log[i].rec.conts| ensures ContIn(rs[n], i, k) {
        ContAt(rs[n], i, k);
      }
    }
  }

  predicate ContIn(r: Ring, i: nat, k: nat)
    requires 0 < r.cap == |r.slots| && i < |r.log| && k < |r.log[i].rec.conts|
  {
    r.slots[Idx(r.log[i].pos + 1 + k, r.cap)] == Cont(r.log[i].seqNo, r.log[i].rec.conts[k])
  }

  /** Every continuation of append i is in the ring. */
  predicate Backed(r: Ring, i: nat)
    requires 0 < r.cap == |r.slots| && i < |r.log|
  {
    forall k :: 0 <= k < |r.log[i].rec.conts| ==> ContIn(r, i, k)
  }

  lemma ContAt(r: Ring, i: nat, k: nat)
    requires Inv(r) && r.done <= i < |r.log| && r.log[i].published && k < |r.log[i].rec.conts|
    ensures ContIn(r, i, k)
  {
    hide Idx, FreeAt, Tiled;
    assert LiveAt(r, i, k + 1) && AppendOk(r.log[i]);
  }

  // ── scanning ──

  /** `x` is the position and primary of the published append i. */
  predicate Reports(r: Ring, i: nat, x: (nat, Entry)) {
    i < |r.log| && r.log[i].published && x == (r.log[i].pos, r.log[i].rec.entry)
  }

  lemma ReadyAt(r: Ring, i: nat)
    requires Inv(r) && r.done <= i < |r.log|
    ensures IsReady(Word(r.slots[Idx(r.log[i].pos, r.cap)])) <==> r.log[i].published
    ensures r.log[i].published ==>
              && r.slots[Idx(r.log[i].pos, r.cap)].Primary?
              && r.slots[Idx(r.log[i].pos, r.cap)].entry == r.log[i].rec.entry
              && ContCount(Word(r.slots[Idx(r.log[i].pos, r.cap)])) == |r.log[i].rec.conts|
  {
    hide Idx, FreeAt, Tiled;
    assert LiveAt(r, i, 0) && AppendOk(r.log[i]);
    SeqRoundTrip(r.log[i].seqNo, |r.log[i].rec.conts|);
  }

  /** The scan loop of DoCheckpoint and CollectPersistentDentViews.  `budget` is the number of
      entries after which the deadline is found to have passed.  From the position of any
      unchecked append the scan reports exactly the published appends up to the first
      unpublished one, across wrap-around. */
  method Scan(r: Ring, start: nat, budget: nat, ghost i0: nat) returns (found: seq<(nat, Entry)>, pos: nat)
    requires Inv(r) && r.done <= i0 <= |r.log| && start == PosOf(r, i0)
    ensures i0 + |found| <= |r.log| && pos == PosOf(r, i0 + |found|) && |found| <= budget
    ensures forall j :: 0 <= j < |found| ==> Reports(r, i0 + j, found[j])
    ensures |found| < budget ==> i0 + |found| == |r.log| || !r.log[i0 + |found|].published
  {
    hide Idx, FreeAt, LiveAt, IsReady, ContCount;
    found, pos := [], start;
    while pos < r.head && |found| < budget
      invariant i0 + |found| <= |r.log| && pos == PosOf(r, i0 + |found|) && |found| <= budget
      invariant forall j :: 0 <= j < |found| ==> Reports(r, i0 + j, found[j])
      decreases budget - |found|
    {
      ghost var i := i0 + |found|;
      ReadyAt(r, i);
      var slot := r.slots[Idx(pos, r.cap)];
      if !IsReady(Word(slot)) {
        break;
      }
      assert Adjacent(r, i);
      found := found + [(pos, slot.entry)];
      pos := pos + 1 + ContCount(Word(slot));
    }
  }

  // ── names out of the ring ──

  lemma GatherStep(conts: seq<string>, k: nat, remaining: nat)
    requires k < |conts| && remaining > 0 && forall c :: 0 <= c < |conts| ==> |conts[c]| == CONT_DATA
    ensures var n := Min(remaining, CONT_DATA);
            Gather(conts[k..], remaining) == conts[k][..n] + Gather(conts[k + 1..], remaining - n)
  {
    assert conts[k..][1..] == conts[k + 1..];
  }

  lemma GatherEnd(conts: seq<string>)
    requires forall c :: 0 <= c < |conts| ==> |conts[c]| == CONT_DATA
    ensures forall k :: 0 <= k <= |conts| ==> Gather(conts[k..], 0) == ""
    ensures forall remaining: nat :: Gather(conts[|conts|..], remaining) == ""
  {}

  lemma PrimaryFacts(r: Ring, i: nat, payload: string)
    requires Inv(r) && r.done <= i < |r.log| && r.log[i].published && Carries(r.log[i].rec, payload)
    ensures 0 < r.cap == |r.slots| && r.slots[Idx(r.log[i].pos, r.cap)].Primary?
    ensures var slot, rec, n := r.slots[Idx(r.log[i].pos, r.cap)], r.log[i].rec, Min(|payload|, INLINE_MAX);
            && slot.entry == rec.entry && ContCount(Word(slot)) == |rec.conts| && |rec.entry.inlined| == n
            && (forall c :: 0 <= c < |rec.conts| ==> |rec.conts[c]| == CONT_DATA)
            && rec.entry.inlined[..n] + Gather(rec.conts, |payload| - n) == payload
  {
    hide Idx, FreeAt, LiveAt, Tiled;
    ReadyAt(r, i);
    PayloadRoundTrip(r.log[i].rec, payload);
  }

  /** ExtractWalName and ExtractWalRenameNames (listing): a string grown slot by slot. */
  method ExtractWalPayload(r: Ring, pos: nat, total: nat, ghost i: nat, ghost payload: string) returns (full: string)
    requires Inv(r) && r.done <= i < |r.log| && r.log[i].published && pos == r.log[i].pos
    requires Carries(r.log[i].rec, payload) && total == |payload|
    ensures full == payload
  {
    hide Idx, Inv, Carries, Chunks, Gather, Extract, Word, ContCount, Image;
    PrimaryFacts(r, i, payload);
    var entry, conts := r.slots[Idx(pos, r.cap)].entry, ContCount(Word(r.slots[Idx(pos, r.cap)]));
    ghost var rec := r.log[i].rec;
    GatherEnd(rec.conts);
    assert rec.conts[0..] == rec.conts;
    var inlineLen := Min(total, INLINE_MAX);
    full := entry.inlined[..inlineLen];
    var remaining: nat := total - inlineLen;
    var k := 0;
    while k < conts && remaining > 0
      invariant k <= conts == |rec.conts|
      invariant full + Gather(rec.conts[k..], remaining) == payload
    {
      ContAt(r, i, k);
      var copyLen := Min(remaining, CONT_DATA);
      GatherStep(rec.conts, k, remaining);
      full := full + r.slots[Idx(pos + 1 + k, r.cap)].data[..copyLen];
      remaining := remaining - copyLen;
      k := k + 1;
    }
  }

  /** ExtractName and ExtractRenameNames (checkpoint): the same bytes copied into a buffer. */
  method ExtractPayload(r: Ring, pos: nat, total: nat, buf: array<char>, ghost i: nat, ghost payload: string)
    requires Inv(r) && r.done <= i < |r.log| && r.log[i].published && pos == r.log[i].pos
    requires Carries(r.log[i].rec, payload) && total == |payload| <= buf.Length
    modifies buf
    ensures buf[..total] == payload
  {
    hide Idx, Inv, Carries, Chunks, Gather, Extract, Word, ContCount, Image;
    PrimaryFacts(r, i, payload);
    var entry, conts := r.slots[Idx(pos, r.cap)].entry, ContCount(Word(r.slots[Idx(pos, r.cap)]));
    ghost var rec := r.log[i].rec;
    GatherEnd(rec.conts);
    assert rec.conts[0..] == rec.conts;
    var inlineLen := Min(total, INLINE_MAX);
    Copy(entry.inlined[..inlineLen], buf, 0);
    ghost var got, filled := entry.inlined[..inlineLen], inlineLen;
    var remaining: nat := total - inlineLen;
    var k := 0;
    while k < conts && remaining > 0
      invariant k <= conts == |rec.conts| && filled + remaining == total
      invariant remaining > 0 ==> filled == inlineLen + k * CONT_DATA
      invariant got + Gather(rec.conts[k..], remaining) == payload
      invariant buf[..filled] == got
    {
      ContAt(r, i, k);
      var copyLen := Min(remaining, CONT_DATA);
      GatherStep(rec.conts, k, remaining);
      Copy(r.slots[Idx(pos + 1 + k, r.cap)].data[..copyLen], buf, inlineLen + k * CONT_DATA);
      got, filled := got + rec.conts[k][..copyLen], filled + copyLen;
      remaining := remaining - copyLen;
      k := k + 1;
    }
    assert got == payload && filled == total;
  }

  /** memcpy into a buffer. */
  method Copy(data: string, buf: array<char>, off: nat)
    requires off + |data| <= buf.Length
    modifies buf
    ensures buf[..off + |data|] == old(buf[..off]) + data
  {
    forall j | 0 <= j < |data| {
      buf[off + j] := data[j];
    }
  }
}
