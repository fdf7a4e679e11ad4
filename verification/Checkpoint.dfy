/** DoCheckpoint: replay of the main WAL into the two regions and the forward queues, the remote
    phase, and the group commit.  Log positions are counted in published entries. */
module Checkpoints {
  import opened PageCaches
  import opened DentRegions
  import opened InodeRegions
  import opened WalEvents
  import opened RemoteChanges
  import opened Coalescing
  import opened Forwarding

  /** OwnerMetaForInode */
  function Owner(id: nat): nat { id / 0x4_0000_0000_0000 }

  /** base_id_ of a metadata server. */
  function BaseId(meta: nat): nat { meta * 0x4_0000_0000_0000 }

  /** A server owns exactly the ids it hands out. */
  lemma OwnsItsIds(id: nat, meta: nat)
    ensures Owner(id) == meta <==> BaseId(meta) <= id < BaseId(meta + 1)
  {
  }

  // ---- What one entry asks for ----

  /** The inode changes of an entry, wherever the inode lives. */
  function ChangesOf(op: LogOp): seq<Change> {
    match op
    case Create(_, parent, _, _, _, _, _, v) => [Change(BlocksDelta, parent, 1, v)]
    case Unlink(inode, parent, _, v) => [Change(UnlinkInode, inode, 0, v), Change(BlocksDelta, parent, -1, v)]
    case Rename(_, parent, newParent, _, _, _, v) =>
      if parent == newParent then [] else [Change(BlocksDelta, parent, -1, v), Change(BlocksDelta, newParent, 1, v)]
    case Setattr(inode, mode, v) => [Change(SetMode, inode, mode, v)]
    case Link(inode, parent, _, _, v) => [Change(LinkInode, inode, 0, v), Change(BlocksDelta, parent, 1, v)]
  }

  /** Names fit their field and every inode has an owner in the cluster. */
  predicate OpOk(op: LogOp, n: nat) {
    && (forall e :: e in ChangesOf(op) ==> Owner(e.inode) < n)
    && (!op.Setattr? ==> |op.name| <= NAME_MAX)
    && (op.Rename? ==> |op.newName| <= NAME_MAX)
  }

  function To(t: nat): Change -> bool { (e: Change) => Owner(e.inode) == t }

  /** The changes among `cs` that server `self` forwards to t. */
  function Sent(cs: seq<Change>, self: nat, t: nat): seq<Change> {
    if t == self then [] else Keep(cs, To(t))
  }

  /** Everything a log makes server `self` forward to t, in log order. */
  ghost function Outgoing(ops: seq<LogOp>, self: nat, t: nat): seq<Change> {
    if ops == [] then [] else Outgoing(ops[..|ops| - 1], self, t) + Sent(ChangesOf(ops[|ops| - 1]), self, t)
  }

  lemma OutgoingAppend(ops: seq<LogOp>, op: LogOp, self: nat, t: nat)
    ensures Outgoing(ops + [op], self, t) == Outgoing(ops, self, t) + Sent(ChangesOf(op), self, t)
  {
    assert (ops + [op])[..|ops|] == ops;
  }

  /** An immediate local change: applied if the inode is there. */
  ghost function SlotsAfter(slots: seq<Inode>, e: Change, self: nat): (r: seq<Inode>)
    requires |slots| > 0
    ensures |r| == |slots|
  {
    var n := SlotOf(e, |slots|);
    if Owner(e.inode) == self && !e.op.BlocksDelta? && slots[n].id != 0 then slots[n := ApplyChange(e, slots[n])] else slots
  }

  ghost function SlotsAfterAll(slots: seq<Inode>, cs: seq<Change>, self: nat): (r: seq<Inode>)
    requires |slots| > 0
    ensures |r| == |slots|
  {
    if cs == [] then slots else SlotsAfter(SlotsAfterAll(slots, cs[..|cs| - 1], self), cs[|cs| - 1], self)
  }

  /** ReplayCreateInode */
  function NewInode(op: LogOp): Inode
    requires op.Create?
  {
    var ts := Seconds(op.version);
    Inode(op.inode, 1, Wrap(op.mode), 0, op.uid, op.gid, ts, ts, ts)
  }

  /** The inode slots after the local part of one entry. */
  ghost function AfterOp(slots: seq<Inode>, op: LogOp, self: nat): (r: seq<Inode>)
    requires |slots| > 0
    ensures |r| == |slots|
  {
    SlotsAfterAll(if op.Create? then slots[op.inode % |slots| := NewInode(op)] else slots, ChangesOf(op), self)
  }

  /** Every entry once, in log order. */
  ghost function AfterOps(slots: seq<Inode>, ops: seq<LogOp>, self: nat): (r: seq<Inode>)
    requires |slots| > 0
    ensures |r| == |slots|
  {
    if ops == [] then slots else AfterOp(AfterOps(slots, ops[..|ops| - 1], self), ops[|ops| - 1], self)
  }

  /** Net local child count change of inode id. */
  ghost function LocalDelta(cs: seq<Change>, self: nat, id: nat): int {
    if cs == [] then 0
    else
      var e := cs[|cs| - 1];
      LocalDelta(cs[..|cs| - 1], self, id) + if e.op.BlocksDelta? && e.inode == id && Owner(id) == self then e.value else 0
  }

  ghost function LocalDeltas(ops: seq<LogOp>, self: nat, id: nat): int {
    if ops == [] then 0 else LocalDeltas(ops[..|ops| - 1], self, id) + LocalDelta(ChangesOf(ops[|ops| - 1]), self, id)
  }

  // ---- Replay of one entry ----

  ghost function Count(blocks: map<nat, int>, id: nat): int {
    if id in blocks then blocks[id] else 0
  }

  ghost function Buffered(buffer: map<nat, seq<Dent>>, d: nat): seq<Dent> {
    if d in buffer then buffer[d] else []
  }

  lemma SentOne(e: Change, self: nat, t: nat)
    ensures Sent([e], self, t) == if t != self && Owner(e.inode) == t then [e] else []
  {
    KeepNone(To(t));
    KeepAppend([], e, To(t));
    assert [] + [e] == [e];
  }

  /** An inode change goes to the region, the per-cycle delta map, or the owner's queue. */
  method Dispatch(e: Change, region: InodeRegion, fw: Forwarder, blocks: map<nat, int>) returns (blocks': map<nat, int>)
    requires region.Valid() && fw.Valid() && Owner(e.inode) < fw.n && (e.op.BlocksDelta? || e.op.UnlinkInode? || e.op.LinkInode? || e.op.SetMode?)
    modifies fw`batches, fw`produced, region.cache, region.cache.pool, region.cache.pageSlots
    ensures region.Valid() && region.MaxInodes() == old(region.MaxInodes()) && fw.Valid()
    ensures region.Slots() == SlotsAfter(old(region.Slots()), e, fw.self)
    ensures forall t :: 0 <= t < fw.n ==> fw.produced[t] == old(fw.produced)[t] + Sent([e], fw.self, t)
    ensures forall id :: Count(blocks', id) == Count(blocks, id) + LocalDelta([e], fw.self, id)
    ensures blocks'.Keys <= blocks.Keys + {e.inode}
  {
    hide Linked, Chained, Partition, Indexed, View, Flat, LaneOk, ApplyChange, Owner;
    assert [e][..0] == [];
    blocks' := blocks;
    if Owner(e.inode) != fw.self {
      fw.Queue(Owner(e.inode), e);
    } else if e.op.BlocksDelta? {
      blocks' := blocks[e.inode := (if e.inode in blocks then blocks[e.inode] else 0) + e.value];
    } else {
      var ok := region.MutateInode(e.inode, i => ApplyChange(e, i));
    }
    forall t | 0 <= t < fw.n ensures fw.produced[t] == old(fw.produced)[t] + Sent([e], fw.self, t) {
      SentOne(e, fw.self, t);
    }
  }

  lemma SentAppend(cs: seq<Change>, e: Change, self: nat, t: nat)
    ensures Sent(cs + [e], self, t) == Sent(cs, self, t) + Sent([e], self, t)
  {
    KeepAppend(cs, e, To(t));
    SentOne(e, self, t);
  }

  lemma LocalAppend(slots: seq<Inode>, cs: seq<Change>, e: Change, self: nat, id: nat)
    requires |slots| > 0
    ensures SlotsAfterAll(slots, cs + [e], self) == SlotsAfter(SlotsAfterAll(slots, cs, self), e, self)
    ensures LocalDelta(cs + [e], self, id) == LocalDelta(cs, self, id) + LocalDelta([e], self, id)
  {
    assert (cs + [e])[..|cs|] == cs && [e][..0] == [];
  }

  /** All inode changes of one entry. */
  method DispatchAll(cs: seq<Change>, region: InodeRegion, fw: Forwarder, blocks: map<nat, int>) returns (blocks': map<nat, int>)
    requires region.Valid() && fw.Valid()
    requires forall e :: e in cs ==> Owner(e.inode) < fw.n && (e.op.BlocksDelta? || e.op.UnlinkInode? || e.op.LinkInode? || e.op.SetMode?)
    modifies fw`batches, fw`produced, region.cache, region.cache.pool, region.cache.pageSlots
    ensures region.Valid() && region.MaxInodes() == old(region.MaxInodes()) && fw.Valid()
    ensures region.Slots() == SlotsAfterAll(old(region.Slots()), cs, fw.self)
    ensures forall t :: 0 <= t < fw.n ==> fw.produced[t] == old(fw.produced)[t] + Sent(cs, fw.self, t)
    ensures forall id :: Count(blocks', id) == Count(blocks, id) + LocalDelta(cs, fw.self, id)
    ensures blocks'.Keys <= blocks.Keys + Inodes(cs)
  {
    hide Linked, Chained, Partition, Indexed, View, Flat, LaneOk, SlotsAfter, SlotsAfterAll, Owner, Sent, LocalDelta, Count;
    blocks' := blocks;
    ghost var slots, made := region.Slots(), fw.produced;
    NothingYet(slots, fw.self);
    for k := 0 to |cs|
      invariant region.Valid() && region.MaxInodes() == old(region.MaxInodes()) && fw.Valid()
      invariant region.Slots() == SlotsAfterAll(slots, cs[..k], fw.self)
      invariant forall t :: 0 <= t < fw.n ==> fw.produced[t] == made[t] + Sent(cs[..k], fw.self, t)
      invariant forall id :: Count(blocks', id) == Count(blocks, id) + LocalDelta(cs[..k], fw.self, id)
      invariant blocks'.Keys <= blocks.Keys + Inodes(cs)
    {
      ghost var before, was := fw.produced, blocks';
      blocks' := Dispatch(cs[k], region, fw, blocks');
      ghost var next := cs[..k + 1];
      assert next == cs[..k] + [cs[k]];
      forall id ensures Count(blocks', id) == Count(blocks, id) + LocalDelta(next, fw.self, id) {
        LocalAppend(slots, cs[..k], cs[k], fw.self, id);
        assert Count(was, id) == Count(blocks, id) + LocalDelta(cs[..k], fw.self, id);
      }
      LocalAppend(slots, cs[..k], cs[k], fw.self, 0);
      forall t | 0 <= t < fw.n ensures fw.produced[t] == made[t] + Sent(next, fw.self, t) {
        SentAppend(cs[..k], cs[k], fw.self, t);
        assert before[t] == made[t] + Sent(cs[..k], fw.self, t);
      }
    }
    assert cs[..|cs|] == cs;
  }

  lemma NothingYet(slots: seq<Inode>, self: nat)
    requires |slots| > 0
    ensures SlotsAfterAll(slots, [], self) == slots
    ensures forall t :: Sent([], self, t) == []
    ensures forall id :: LocalDelta([], self, id) == 0
  {
  }

  // ---- The dent buffer ----

  function BufferDent(buffer: map<nat, seq<Dent>>, d: nat, e: Dent): map<nat, seq<Dent>> {
    buffer[d := (if d in buffer then buffer[d] else []) + [e]]
  }

  ghost predicate NamesOk(buffer: map<nat, seq<Dent>>) {
    forall d, i :: d in buffer && 0 <= i < |buffer[d]| ==> |buffer[d][i].name| <= NAME_MAX
  }

  /** Directory pages the buffer can need at most: one per event and one per directory. */
  ghost function Load(buffer: map<nat, seq<Dent>>, ds: set<nat>): nat
    requires ds <= buffer.Keys
  {
    if ds == {} then 0
    else
      var d :| d in ds;
      |buffer[d]| + 1 + Load(buffer, ds - {d})
  }

  lemma {:induction false} LoadRemove(buffer: map<nat, seq<Dent>>, ds: set<nat>, d: nat)
    requires ds <= buffer.Keys && d in ds
    ensures Load(buffer, ds) == |buffer[d]| + 1 + Load(buffer, ds - {d})
    decreases |ds|
  {
    var x :| x in ds && Load(buffer, ds) == |buffer[x]| + 1 + Load(buffer, ds - {x});
    if x != d {
      LoadRemove(buffer, ds - {x}, d);
      LoadRemove(buffer, ds - {d}, x);
      assert ds - {x} - {d} == ds - {d} - {x};
    }
  }

  lemma {:induction false} LoadSame(a: map<nat, seq<Dent>>, b: map<nat, seq<Dent>>, ds: set<nat>)
    requires ds <= a.Keys && ds <= b.Keys && forall d :: d in ds ==> a[d] == b[d]
    ensures Load(a, ds) == Load(b, ds)
    decreases |ds|
  {
    if d :| d in ds {
      LoadRemove(a, ds, d);
      LoadRemove(b, ds, d);
      LoadSame(a, b, ds - {d});
    }
  }

  lemma BufferStep(buffer: map<nat, seq<Dent>>, d: nat, e: Dent)
    requires NamesOk(buffer) && |e.name| <= NAME_MAX
    ensures var b := BufferDent(buffer, d, e);
            && NamesOk(b) && Load(b, b.Keys) <= Load(buffer, buffer.Keys) + 2
            && forall x :: Buffered(b, x) == Buffered(buffer, x) + if x == d then [e] else []
  {
    var b := BufferDent(buffer, d, e);
    LoadRemove(b, b.Keys, d);
    LoadSame(b, buffer, b.Keys - {d});
    if d in buffer {
      LoadRemove(buffer, buffer.Keys, d);
      assert b.Keys == buffer.Keys;
    } else {
      assert b.Keys - {d} == buffer.Keys;
    }
  }

  /** The buffer_dent calls of one entry. */
  method BufferEvents(op: LogOp, buffer: map<nat, seq<Dent>>) returns (b: map<nat, seq<Dent>>)
    requires NamesOk(buffer) && (!op.Setattr? ==> |op.name| <= NAME_MAX) && (op.Rename? ==> |op.newName| <= NAME_MAX)
    ensures NamesOk(b) && Load(b, b.Keys) <= Load(buffer, buffer.Keys) + 4
    ensures forall d :: Buffered(b, d) == Buffered(buffer, d) + EventsOf(op, d)
  {
    hide Load, NamesOk, BufferDent, Buffered;
    b := buffer;
    match op {
      case Create(inode, parent, _, _, _, kind, name, v) =>
        var e := Dent(inode, v, kind, false, name);
        BufferStep(b, parent, e);
        b := BufferDent(b, parent, e);
      case Unlink(inode, parent, name, v) =>
        var e := Dent(inode, v, DT_UNKNOWN, true, name);
        BufferStep(b, parent, e);
        b := BufferDent(b, parent, e);
      case Rename(inode, parent, newParent, name, newName, kind, v) =>
        var gone, put := Dent(inode, v, DT_UNKNOWN, true, name), Dent(inode, v, kind, false, newName);
        BufferStep(b, parent, gone);
        b := BufferDent(b, parent, gone);
        BufferStep(b, newParent, put);
        b := BufferDent(b, newParent, put);
      case Setattr(_, _, _) =>
      case Link(inode, parent, name, kind, v) =>
        var e := Dent(inode, v, kind, false, name);
        BufferStep(b, parent, e);
        b := BufferDent(b, parent, e);
    }
  }

  /** One per-directory AppendEntries for every buffered directory, in any order. */
  method FlushDents(dents: DentRegion, buffer: map<nat, seq<Dent>>)
    requires dents.Valid() && NamesOk(buffer) && dents.allocPos + Load(buffer, buffer.Keys) < |dents.cache.flash|
    modifies dents, dents.cache, dents.cache.pool, dents.cache.pageSlots
    ensures dents.Valid() && |dents.cache.flash| == old(|dents.cache.flash|)
    ensures dents.allocPos <= old(dents.allocPos) + Load(buffer, buffer.Keys)
    ensures forall d :: dents.Events(d) == old(dents.Events(d)) + Buffered(buffer, d)
  {
    hide Linked, Chained, Partition, Indexed, View, PageOk, Log, ChainOk, Load;
    var left := buffer.Keys;
    while left != {}
      invariant dents.Valid() && left <= buffer.Keys && |dents.cache.flash| == old(|dents.cache.flash|)
      invariant dents.allocPos + Load(buffer, left) <= old(dents.allocPos) + Load(buffer, buffer.Keys)
      invariant forall d :: dents.Events(d) == old(dents.Events(d)) + if d in left then [] else Buffered(buffer, d)
      decreases |left|
    {
      var d :| d in left;
      LoadRemove(buffer, left, d);
      dents.AppendEntries(d, buffer[d]);
      left := left - {d};
    }
  }

  // ---- Main WAL replay ----

  /** One iteration of the replay loop. */
  method ReplayEntry(op: LogOp, region: InodeRegion, fw: Forwarder, blocks: map<nat, int>, buffer: map<nat, seq<Dent>>)
    returns (blocks': map<nat, int>, buffer': map<nat, seq<Dent>>)
    requires region.Valid() && fw.Valid() && OpOk(op, fw.n) && NamesOk(buffer)
    modifies fw`batches, fw`produced, region.cache, region.cache.pool, region.cache.pageSlots
    ensures region.Valid() && region.MaxInodes() == old(region.MaxInodes()) && fw.Valid()
    ensures region.Slots() == AfterOp(old(region.Slots()), op, fw.self)
    ensures forall t :: 0 <= t < fw.n ==> fw.produced[t] == old(fw.produced)[t] + Sent(ChangesOf(op), fw.self, t)
    ensures forall id :: Count(blocks', id) == Count(blocks, id) + LocalDelta(ChangesOf(op), fw.self, id)
    ensures blocks'.Keys <= blocks.Keys + Inodes(ChangesOf(op))
    ensures NamesOk(buffer') && Load(buffer', buffer'.Keys) <= Load(buffer, buffer.Keys) + 4
    ensures forall d :: Buffered(buffer', d) == Buffered(buffer, d) + EventsOf(op, d)
  {
    hide Linked, Chained, Partition, Indexed, View, Flat, LaneOk, SlotsAfterAll, Owner, Sent, LocalDelta, Count, Load, NamesOk, EventsOf, Buffered;
    if op.Create? {
      region.WriteInode(op.inode, NewInode(op));
    }
    blocks' := DispatchAll(ChangesOf(op), region, fw, blocks);
    buffer' := BufferEvents(op, buffer);
  }

  /** The inodes that the changes of a log name. */
  ghost function Named(ops: seq<LogOp>): set<nat> {
    if ops == [] then {} else Named(ops[..|ops| - 1]) + Inodes(ChangesOf(ops[|ops| - 1]))
  }

  lemma ReplayNext(ops: seq<LogOp>, op: LogOp, slots: seq<Inode>, self: nat)
    requires |slots| > 0
    ensures AfterOps(slots, ops + [op], self) == AfterOp(AfterOps(slots, ops, self), op, self)
    ensures Named(ops + [op]) == Named(ops) + Inodes(ChangesOf(op))
    ensures forall t :: Outgoing(ops + [op], self, t) == Outgoing(ops, self, t) + Sent(ChangesOf(op), self, t)
    ensures forall id :: LocalDeltas(ops + [op], self, id) == LocalDeltas(ops, self, id) + LocalDelta(ChangesOf(op), self, id)
    ensures forall d :: History(ops + [op], d) == History(ops, d) + EventsOf(op, d)
  {
    hide ChangesOf, EventsOf, AfterOp, Sent, LocalDelta;
    assert (ops + [op])[..|ops|] == ops;
  }

  lemma NoEntries(slots: seq<Inode>, self: nat)
    requires |slots| > 0
    ensures AfterOps(slots, [], self) == slots && Named([]) == {}
    ensures forall t :: Outgoing([], self, t) == []
    ensures forall id :: LocalDeltas([], self, id) == 0
    ensures forall d :: History([], d) == []
  {
  }

  /** Where replay of the entries `done` leaves the inodes, the queues, the deltas and the buffer. */
  ghost predicate Replayed(done: seq<LogOp>, self: nat, was: seq<Inode>, now: seq<Inode>, made: seq<seq<Change>>, produced: seq<seq<Change>>,
                           blocks: map<nat, int>, buffer: map<nat, seq<Dent>>)
    requires |was| > 0
  {
    && now == AfterOps(was, done, self)
    && |made| == |produced| && (forall t :: 0 <= t < |made| ==> produced[t] == made[t] + Outgoing(done, self, t))
    && (forall id :: Count(blocks, id) == LocalDeltas(done, self, id)) && blocks.Keys <= Named(done)
    && (forall d :: Buffered(buffer, d) == History(done, d)) && NamesOk(buffer) && Load(buffer, buffer.Keys) <= 4 * |done|
  }

  /** The part of it that concerns this server's inodes. */
  ghost predicate Moved(done: seq<LogOp>, self: nat, was: seq<Inode>, now: seq<Inode>, blocks: map<nat, int>)
    requires |was| > 0
  {
    && now == AfterOps(was, done, self)
    && blocks.Keys <= Named(done)
    && forall id :: Count(blocks, id) == LocalDeltas(done, self, id)
  }

  lemma ReplayedStart(self: nat, was: seq<Inode>, made: seq<seq<Change>>)
    requires |was| > 0
    ensures Replayed([], self, was, was, made, made, map[], map[])
  {
    NoEntries(was, self);
  }

  lemma ReplayedStep(done: seq<LogOp>, op: LogOp, self: nat, was: seq<Inode>, mid: seq<Inode>, now: seq<Inode>,
                     made: seq<seq<Change>>, before: seq<seq<Change>>, produced: seq<seq<Change>>,
                     blocks: map<nat, int>, blocks': map<nat, int>, buffer: map<nat, seq<Dent>>, buffer': map<nat, seq<Dent>>)
    requires |was| > 0 && Replayed(done, self, was, mid, made, before, blocks, buffer)
    requires |mid| > 0 && now == AfterOp(mid, op, self)
    requires |produced| == |before| && forall t :: 0 <= t < |before| ==> produced[t] == before[t] + Sent(ChangesOf(op), self, t)
    requires forall id :: Count(blocks', id) == Count(blocks, id) + LocalDelta(ChangesOf(op), self, id)
    requires blocks'.Keys <= blocks.Keys + Inodes(ChangesOf(op))
    requires NamesOk(buffer') && Load(buffer', buffer'.Keys) <= Load(buffer, buffer.Keys) + 4
    requires forall d :: Buffered(buffer', d) == Buffered(buffer, d) + EventsOf(op, d)
    ensures Replayed(done + [op], self, was, now, made, produced, blocks', buffer')
  {
    hide AfterOps, AfterOp, Outgoing, Sent, Count, LocalDelta, LocalDeltas, Named, Inodes, NamesOk, Load, Buffered, EventsOf, History, ChangesOf;
    ReplayNext(done, op, was, self);
    var next := done + [op];
    forall t | 0 <= t < |made| ensures produced[t] == made[t] + Outgoing(next, self, t) {
      assert before[t] == made[t] + Outgoing(done, self, t);
    }
    forall id ensures Count(blocks', id) == LocalDeltas(next, self, id) {
      assert Count(blocks, id) == LocalDeltas(done, self, id);
    }
    forall d ensures Buffered(buffer', d) == History(next, d) {
      assert Buffered(buffer, d) == History(done, d);
    }
  }

  method ReplayOne(op: LogOp, region: InodeRegion, fw: Forwarder, blocks: map<nat, int>, buffer: map<nat, seq<Dent>>,
                   ghost done: seq<LogOp>, ghost was: seq<Inode>, ghost made: seq<seq<Change>>)
    returns (blocks': map<nat, int>, buffer': map<nat, seq<Dent>>)
    requires region.Valid() && fw.Valid() && OpOk(op, fw.n) && |was| > 0
    requires Replayed(done, fw.self, was, region.Slots(), made, fw.produced, blocks, buffer)
    modifies fw`batches, fw`produced, region.cache, region.cache.pool, region.cache.pageSlots
    ensures region.Valid() && region.MaxInodes() == old(region.MaxInodes()) && fw.Valid()
    ensures Replayed(done + [op], fw.self, was, region.Slots(), made, fw.produced, blocks', buffer')
  {
    hide Linked, Chained, Partition, Indexed, View, Flat, LaneOk, OpOk, Replayed;
    hide AfterOp, Sent, Count, LocalDelta, Named, Inodes, NamesOk, Load, Buffered, EventsOf, History, ChangesOf;
    ReplayedSizes(done, fw.self, was, region.Slots(), made, fw.produced, blocks, buffer);
    blocks', buffer' := ReplayEntry(op, region, fw, blocks, buffer);
    ReplayedStep(done, op, fw.self, was, old(region.Slots()), region.Slots(), made, old(fw.produced), fw.produced, blocks, blocks', buffer, buffer');
  }

  /** The replay loop: from `start`, every entry once and in order, up to the end of the log or to
      the deadline, which is looked at after each entry. */
  method ReplayMain(wal: seq<LogOp>, start: nat, budget: nat, region: InodeRegion, fw: Forwarder)
    returns (end: nat, blocks: map<nat, int>, buffer: map<nat, seq<Dent>>)
    requires region.Valid() && fw.Valid() && start <= |wal| && forall i :: start <= i < |wal| ==> OpOk(wal[i], fw.n)
    modifies fw`batches, fw`produced, region.cache, region.cache.pool, region.cache.pageSlots
    ensures region.Valid() && region.MaxInodes() == old(region.MaxInodes()) && fw.Valid()
    ensures start <= end <= |wal| && (end == |wal| || end - start >= budget)
    ensures Replayed(wal[start..end], fw.self, old(region.Slots()), region.Slots(), old(fw.produced), fw.produced, blocks, buffer)
  {
    hide Linked, Chained, Partition, Indexed, View, Flat, LaneOk, Replayed, OpOk;
    end, blocks, buffer := start, map[], map[];
    ghost var was, made := region.Slots(), fw.produced;
    ReplayedStart(fw.self, was, made);
    assert wal[start..start] == [];
    while end < |wal|
      invariant region.Valid() && region.MaxInodes() == old(region.MaxInodes()) && fw.Valid()
      invariant start <= end <= |wal|
      invariant Replayed(wal[start..end], fw.self, was, region.Slots(), made, fw.produced, blocks, buffer)
    {
      var op := wal[end];
      assert wal[start..end + 1] == wal[start..end] + [op];
      blocks, buffer := ReplayOne(op, region, fw, blocks, buffer, wal[start..end], was, made);
      end := end + 1;
      if end - start >= budget {
        break;
      }
    }
  }

  lemma ReplayedSizes(done: seq<LogOp>, self: nat, was: seq<Inode>, now: seq<Inode>, made: seq<seq<Change>>, produced: seq<seq<Change>>,
                      blocks: map<nat, int>, buffer: map<nat, seq<Dent>>)
    requires |was| > 0 && Replayed(done, self, was, now, made, produced, blocks, buffer)
    ensures Moved(done, self, was, now, blocks)
    ensures |now| == |was| && |made| == |produced| && NamesOk(buffer) && Load(buffer, buffer.Keys) <= 4 * |done|
    ensures forall d :: Buffered(buffer, d) == History(done, d)
    ensures forall t :: 0 <= t < |made| ==> produced[t] == made[t] + Outgoing(done, self, t)
  {
  }

  // ---- Local child counts ----

  function Grown(i: Inode, d: int): Inode {
    if i.id == 0 then i else i.(extra := AddClamped(i.extra, d))
  }

  /** No other inode in `ids` occupies the slot of `id`. */
  ghost predicate Sole(ids: set<nat>, id: nat, max: nat)
    requires max > 0
  {
    forall x :: x in ids && x % max == id % max ==> x == id
  }

  /** The slots after adding the deltas of the inodes in `ids`: only child counts change, and only in
      their slots; an inode that has its slot to itself gets its whole delta. */
  ghost predicate Added(blocks: map<nat, int>, ids: set<nat>, was: seq<Inode>, now: seq<Inode>)
    requires |was| > 0 && ids <= blocks.Keys
  {
    && |now| == |was|
    && (forall n :: 0 <= n < |was| ==> now[n] == was[n].(extra := now[n].extra))
    && (forall n :: 0 <= n < |was| && (forall id :: id in ids ==> id % |was| != n) ==> now[n] == was[n])
    && (forall id :: id in ids && Sole(blocks.Keys, id, |was|) ==> now[id % |was|] == Grown(was[id % |was|], blocks[id]))
  }

  lemma GrownByNothing(i: Inode)
    ensures Grown(i, 0) == i
  {
    WrapSmall(i.extra);
  }

  lemma AddedStep(blocks: map<nat, int>, ids: set<nat>, id: nat, was: seq<Inode>, now: seq<Inode>, next: seq<Inode>)
    requires |was| > 0 && ids <= blocks.Keys && id in blocks && id !in ids
    requires Added(blocks, ids, was, now)
    requires var n := id % |was|; next == if blocks[id] == 0 then now else now[n := Grown(now[n], blocks[id])]
    ensures Added(blocks, ids + {id}, was, next)
  {
    hide AddClamped;
    var n, more := id % |was|, ids + {id};
    if blocks[id] == 0 {
      GrownByNothing(now[n]);
    }
    forall m | 0 <= m < |was| && (forall x :: x in more ==> x % |was| != m) ensures next[m] == was[m] {
      assert id in more;
      assert forall x :: x in ids ==> x in more;
    }
    forall x | x in more && Sole(blocks.Keys, x, |was|) ensures next[x % |was|] == Grown(was[x % |was|], blocks[x]) {
      if x == id {
        assert now[n] == was[n];
      } else {
        assert id % |was| != x % |was|;
      }
    }
  }

  /** The per-cycle delta map flushed to the region, one inode at a time in any order. */
  method FlushBlocks(region: InodeRegion, blocks: map<nat, int>)
    requires region.Valid() && region.MaxInodes() > 0
    modifies region.cache, region.cache.pool, region.cache.pageSlots
    ensures region.Valid() && region.MaxInodes() == old(region.MaxInodes())
    ensures Added(blocks, blocks.Keys, old(region.Slots()), region.Slots())
  {
    hide Linked, Chained, Partition, Indexed, View, Flat, Added;
    var left := blocks.Keys;
    ghost var was, done := region.Slots(), {};
    AddedNone(blocks, was);
    while left != {}
      invariant region.Valid() && region.MaxInodes() == old(region.MaxInodes())
      invariant done + left == blocks.Keys && done !! left
      invariant Added(blocks, done, was, region.Slots())
      decreases |left|
    {
      var id :| id in left;
      var delta := blocks[id];
      ghost var mid := region.Slots();
      if delta != 0 {
        var ok := region.MutateInode(id, (i: Inode) => i.(extra := AddClamped(i.extra, delta)));
        assert region.Slots() == mid[id % |was| := Grown(mid[id % |was|], delta)];
      }
      AddedStep(blocks, done, id, was, mid, region.Slots());
      left, done := left - {id}, done + {id};
    }
  }

  lemma AddedNone(blocks: map<nat, int>, was: seq<Inode>)
    requires |was| > 0
    ensures Added(blocks, {}, was, was)
  {
  }

  // ---- The checkpointer ----

  lemma {:induction false} OutgoingConcat(a: seq<LogOp>, b: seq<LogOp>, self: nat, t: nat)
    ensures Outgoing(a + b, self, t) == Outgoing(a, self, t) + Outgoing(b, self, t)
  {
    hide Outgoing, Sent, ChangesOf;
    if b == [] {
      assert a + b == a;
      OutgoingNone(self, t);
    } else {
      var r, op := b[..|b| - 1], b[|b| - 1];
      assert b == r + [op] && a + b == (a + r) + [op];
      OutgoingConcat(a, r, self, t);
      OutgoingAppend(a + r, op, self, t);
      OutgoingAppend(r, op, self, t);
    }
  }

  lemma OutgoingNone(self: nat, t: nat)
    ensures Outgoing([], self, t) == []
  {
  }

  function Arrived(log: seq<Received>): seq<Change> {
    seq(|log|, i requires 0 <= i < |log| => log[i].change)
  }

  lemma SliceOfRest(ops: seq<LogOp>, cp: nat, a: nat, b: nat)
    requires cp <= a <= b <= |ops|
    ensures ops[cp..][a - cp..b - cp] == ops[a..b]
  {
  }

  /** The inode slots, what flash holds, how far replay, clearing and the remote drain have got, and how long
      the two logs are. */
  datatype Moment = Moment(slots: seq<Inode>, inodeFlash: seq<InodePage>, dentFlash: seq<DirPage>, index: map<nat, nat>,
                           pos: nat, cp: nat, rpos: nat, sound: bool, backlog: seq<Change>, deferred: seq<Change>,
                           logged: nat, received: nat, rcp: nat)

  /** Flash alone holds the inodes, and the directory events of everything replayed. */
  ghost predicate Persisted(m: Moment, ops: seq<LogOp>) {
    && m.pos <= |ops| && Flat(m.inodeFlash) == m.slots
    && forall d :: d in m.index ==>
                     ChainOk(m.dentFlash, m.index[d], d) && Log(m.dentFlash, m.index[d], d) == History(ops[..m.pos], d)
  }

  /** One checkpoint cycle between two moments: everything logged is replayed, or as much as the deadline
      allows, and everything received is drained; nothing to do, or the whole cycle's effect on the inode
      slots; and the log is cleared when a sync is due, but only up to what flash holds. */
  ghost predicate CycleBetween(m: Moment, m': Moment, ops: seq<LogOp>, rlog: seq<Received>, self: nat, due: bool, mainBudget: nat, budget: nat) {
    && m'.logged == m.logged && m'.received == m.received
    && (m'.pos == m.logged || m'.pos - m.pos >= mainBudget) && m'.rpos == m.received && (due ==> m'.cp == m'.pos && m'.rcp == m'.rpos)
    && m.pos <= m'.pos <= |ops| && m.rpos <= m'.rpos <= |rlog| && m.cp <= m'.cp && |m'.slots| == |m.slots| > 0
    && (m'.cp == m.cp || (m'.cp == m'.pos && Persisted(m', ops)))
    && (m'.sound ==>
          (m'.slots == m.slots && m'.pos == m.pos && m'.rpos == m.rpos && m'.backlog == m.backlog)
          || Effect(ops[m.pos..m'.pos], self, m.backlog + Arrived(rlog[m.rpos..m'.rpos]), m'.backlog, m.slots, m'.slots, budget))
    && Inodes(m'.deferred) <= Inodes(m.deferred + Arrived(rlog[m.rpos..m'.rpos]))
    && (forall id :: OwnSlotStep(id, ops[m.pos..m'.pos], self, m.deferred + Arrived(rlog[m.rpos..m'.rpos]), m.slots, m'.slots))
  }

  /** What a cycle does to the slot of an inode that has it to itself and for which no change came from
      another server: the entries in log order, and then their net child count delta. */
  ghost predicate OwnSlotStep(id: nat, entries: seq<LogOp>, self: nat, raw: seq<Change>, s0: seq<Inode>, s3: seq<Inode>)
    requires |s0| == |s3| > 0
  {
    var n := id % |s0|;
    Sole(Named(entries), id, |s0|) && NoneFor(raw, n, |s0|) ==>
      s3[n] == Grown(AfterOps(s0, entries, self)[n], LocalDeltas(entries, self, id))
  }

  ghost predicate Effect(entries: seq<LogOp>, self: nat, raw: seq<Change>, backlog: seq<Change>, s0: seq<Inode>, s3: seq<Inode>, budget: nat) {
    exists s1, s2, blocks, done :: Processed(entries, self, raw, backlog, s0, s1, s2, s3, blocks, done, budget)
  }

  /** `slots` is the size of the ring of received changes, which keeps one slot free. */
  ghost predicate StepBetween(m: Moment, m': Moment, e: Event, ops: seq<LogOp>, rlog: seq<Received>, self: nat, slots: nat) {
    match e
    case CheckpointCycle(due, mainBudget, budget) => CycleBetween(m, m', ops, rlog, self, due, mainBudget, budget)
    case Append(op) => m' == m.(logged := m.logged + 1) && m.logged < |ops| && ops[m.logged] == op
    case Receive(sender, changes) =>
      && m' == m.(received := m'.received) && m.received <= m'.received <= |rlog| && m'.received - m.received <= |changes|
      && rlog[m.received..m'.received] == Tagged(sender, changes[..m'.received - m.received])
      && (m'.received - m.received < |changes| ==> m'.received - m.rcp == slots - 1)
  }

  /** Later entries and changes do not alter what a step did. */
  lemma StepKept(m: Moment, m': Moment, e: Event, ops: seq<LogOp>, ops': seq<LogOp>, rlog: seq<Received>, rlog': seq<Received>, self: nat, slots: nat)
    requires StepBetween(m, m', e, ops, rlog, self, slots) && ops <= ops' && rlog <= rlog'
    ensures StepBetween(m, m', e, ops', rlog', self, slots)
  {
    hide Effect, Flat, ChainOk, Log, History, OwnSlotStep, Inodes;
    if e.CheckpointCycle? {
      assert ops'[m.pos..m'.pos] == ops[m.pos..m'.pos] && rlog'[m.rpos..m'.rpos] == rlog[m.rpos..m'.rpos];
      assert ops'[..m'.pos] == ops[..m'.pos];
    } else if e.Receive? {
      assert rlog'[m.received..m'.received] == rlog[m.received..m'.received];
    }
  }

  class Checkpointer {
    const dents: DentRegion
    const remote: RemoteReplay
    const fw: Forwarder
    const rwal: RemoteWal
    /** The main WAL's live window, and how many entries were cleared before it. */
    var wal: seq<LogOp>
    var cp: nat
    /** pending_main_pos_, pending_remote_pos_ */
    var pos: nat
    var rpos: nat
    /** Every entry ever published. */
    ghost var ops: seq<LogOp>

    ghost predicate Separate()
      reads this, dents, remote, remote.region
    {
      && dents.cache.pageSlots != remote.region.cache.pageSlots
      && (dents.cache as object) != remote.region.cache
      && (dents.cache.pool as object) != remote.region.cache.pool
    }

    /** Everything in the regions and the forward queues comes from the entries before `pos`, each
        replayed exactly once and in log order; what has been cleared has been replayed. */
    ghost predicate Valid()
      reads this, dents, dents.cache, dents.cache.pool, dents.cache.pageSlots
      reads remote, remote.region, remote.region.cache, remote.region.cache.pool, remote.region.cache.pageSlots
      reads fw, rwal, rwal.ring
    {
      && Separate() && dents.Valid() && remote.Valid() && fw.Valid() && rwal.Valid()
      && cp <= pos <= |ops| && wal == ops[cp..] && rwal.cp <= rpos <= rwal.head
      && (forall i :: 0 <= i < |ops| ==> OpOk(ops[i], fw.n))
      && (forall d :: dents.Events(d) == History(ops[..pos], d))
      && (forall t :: 0 <= t < fw.n ==> fw.produced[t] == Outgoing(ops[..pos], fw.self, t))
    }

    constructor (dents: DentRegion, remote: RemoteReplay, fw: Forwarder, rwal: RemoteWal)
      requires dents.Valid() && remote.Valid() && fw.Valid() && rwal.Valid()
      requires dents.cache.pageSlots != remote.region.cache.pageSlots
      requires (dents.cache as object) != remote.region.cache && (dents.cache.pool as object) != remote.region.cache.pool
      requires (forall d :: dents.Events(d) == []) && (forall t :: 0 <= t < fw.n ==> fw.produced[t] == []) && rwal.cp == 0
      ensures Valid() && ops == wal == [] && this.dents == dents && this.remote == remote && this.fw == fw && this.rwal == rwal
    {
      hide Linked, Chained, Partition, Indexed, View, PageOk, Log, ChainOk, LaneOk, RingOk, Stands, OpOk;
      NoEntries([ZERO_INODE], fw.self);
      this.dents, this.remote, this.fw, this.rwal := dents, remote, fw, rwal;
      wal, cp, pos, rpos, ops := [], 0, 0, 0, [];
    }

    lemma Bounds()
      requires Valid()
      ensures cp <= pos <= |ops| && |wal| == |ops| - cp && rwal.cp <= rpos <= rwal.head == |rwal.log|
      ensures dents.Valid() && remote.Valid() && remote.region.Valid() && remote.region.MaxInodes() > 0
    {
    }

    /** A server thread publishes one more entry. */
    method Publish(op: LogOp)
      requires Valid() && OpOk(op, fw.n)
      modifies this`wal, this`ops
      ensures Valid() && ops == old(ops) + [op] && wal == old(wal) + [op]
    {
      hide Linked, Chained, Partition, Indexed, View, PageOk, Log, ChainOk, LaneOk, RingOk, Stands, OpOk;
      assert (ops + [op])[..pos] == ops[..pos];
      wal, ops := wal + [op], ops + [op];
    }

    /** Main WAL replay. */
    method ReplayPhase(budget: nat) returns (end: nat, blocks: map<nat, int>, buffer: map<nat, seq<Dent>>)
      requires Valid()
      modifies fw`batches, fw`produced, remote.region.cache, remote.region.cache.pool, remote.region.cache.pageSlots
      ensures dents.Valid() && remote.Valid() && fw.Valid() && remote.region.MaxInodes() == old(remote.region.MaxInodes())
      ensures pos <= end <= |ops| && (end == |ops| || end - pos >= budget)
      ensures Replayed(ops[pos..end], fw.self, old(remote.region.Slots()), remote.region.Slots(), old(fw.produced), fw.produced, blocks, buffer)
    {
      hide Linked, Chained, Partition, Indexed, View, Flat, PageOk, Log, ChainOk, LaneOk, RingOk, Stands, OpOk, Replayed, History, Outgoing;
      end, blocks, buffer := ReplayMain(wal, pos - cp, budget, remote.region, fw);
      SliceOfRest(ops, cp, pos, cp + end);
      end := cp + end;
    }

    /** Main WAL replay and the per-directory appends. */
    method MainPhase(budget: nat) returns (blocks: map<nat, int>)
      requires Valid() && dents.allocPos + 4 * (|ops| - pos) < |dents.cache.flash|
      modifies this`pos, dents, dents.cache, dents.cache.pool, dents.cache.pageSlots
      modifies fw`batches, fw`produced, remote.region.cache, remote.region.cache.pool, remote.region.cache.pageSlots
      ensures Valid() && remote.region.MaxInodes() == old(remote.region.MaxInodes())
      ensures old(pos) <= pos && (pos == |ops| || pos - old(pos) >= budget)
      ensures dents.allocPos <= old(dents.allocPos) + 4 * (pos - old(pos)) && |dents.cache.flash| == old(|dents.cache.flash|)
      ensures Moved(ops[old(pos)..pos], fw.self, old(remote.region.Slots()), remote.region.Slots(), blocks)
    {
      hide Linked, Chained, Partition, Indexed, View, Flat, PageOk, Log, ChainOk, LaneOk, RingOk, Stands, OpOk, Replayed, Moved;
      hide History, Outgoing, AfterOps, Named, LocalDeltas, Count, Load, NamesOk, Buffered;
      ghost var was, made := remote.region.Slots(), fw.produced;
      var end, buffer;
      end, blocks, buffer := ReplayPhase(budget);
      ghost var done := ops[pos..end];
      ReplayedSizes(done, fw.self, was, remote.region.Slots(), made, fw.produced, blocks, buffer);
      FlushDents(dents, buffer);
      assert ops[..end] == ops[..pos] + done;
      forall d ensures dents.Events(d) == History(ops[..end], d) {
        HistoryAppend(ops[..pos], done, d);
      }
      forall t | 0 <= t < fw.n ensures fw.produced[t] == Outgoing(ops[..end], fw.self, t) {
        OutgoingConcat(ops[..pos], done, fw.self, t);
      }
      pos := end;
    }

    /** The remote phase. */
    method RemotePhase(budget: nat) returns (hit: bool, ghost done: set<nat>)
      requires Valid()
      modifies this`rpos, remote, remote.region.cache, remote.region.cache.pool, remote.region.cache.pageSlots
      ensures Valid() && remote.region.MaxInodes() == old(remote.region.MaxInodes()) && rpos == rwal.head
      ensures remote.sound == (old(remote.sound) && RemoteOk(old(remote.backlog) + Arrived(rwal.log[old(rpos)..]), remote.region.MaxInodes()))
      ensures hit ==> |done| >= budget
      ensures remote.sound && !hit ==>
                forall e :: e in old(remote.backlog) + Arrived(rwal.log[old(rpos)..]) ==> PageOf(SlotOf(e, remote.region.MaxInodes())) in done
      ensures remote.sound ==> forall n :: 0 <= n < remote.region.MaxInodes() ==>
                CycleAt(n, old(remote.backlog) + Arrived(rwal.log[old(rpos)..]), done, old(remote.region.Slots()), remote.region.Slots(), remote.backlog)
      ensures Inodes(remote.deferred) <= Inodes(old(remote.deferred) + Arrived(rwal.log[old(rpos)..]))
      ensures forall n :: 0 <= n < remote.region.MaxInodes() && NoneFor(old(remote.deferred) + Arrived(rwal.log[old(rpos)..]), n, remote.region.MaxInodes()) ==>
                remote.region.Slots()[n] == old(remote.region.Slots())[n]
    {
      hide Linked, Chained, Partition, Indexed, View, Flat, PageOk, Log, ChainOk, LaneOk, Stands, OpOk, History, Outgoing, CycleAt, RemoteOk, RingOk;
      RingSizes(rwal.ring[..], rwal.log, rwal.cp, rwal.head);
      var drained, end := rwal.Drain(rpos);
      assert drained == Arrived(rwal.log[rpos..]);
      ghost var was, raw := remote.region.Slots(), remote.backlog + drained;
      hit, done := remote.Cycle(drained, budget);
      assert remote.sound ==> forall n :: 0 <= n < remote.region.MaxInodes() ==> CycleAt(n, raw, done, was, remote.region.Slots(), remote.backlog);
      rpos := end;
    }

    /** The local child counts. */
    method BlocksPhase(blocks: map<nat, int>)
      requires Valid()
      modifies remote.region.cache, remote.region.cache.pool, remote.region.cache.pageSlots
      ensures Valid() && remote.region.MaxInodes() == old(remote.region.MaxInodes())
      ensures Added(blocks, blocks.Keys, old(remote.region.Slots()), remote.region.Slots())
    {
      hide Linked, Chained, Partition, Indexed, View, Flat, PageOk, Log, ChainOk, LaneOk, Stands, OpOk, History, Outgoing, RingOk, Added;
      FlushBlocks(remote.region, blocks);
    }

    /** Flash alone holds the inodes, and the directory events of everything replayed. */
    ghost predicate Durable()
      requires Valid()
      reads this, dents, dents.cache, dents.cache.pool, dents.cache.pageSlots
      reads remote, remote.region, remote.region.cache, remote.region.cache.pool, remote.region.cache.pageSlots
      reads fw, rwal, rwal.ring
    {
      Persisted(Now(), ops)
    }

    /** What a run is watched by. */
    ghost function Now(): Moment
      requires remote.region.Valid()
      reads this, dents, dents.cache, remote, remote.region, remote.region.cache, remote.region.cache.pool, remote.region.cache.pageSlots
      reads rwal
    {
      Moment(remote.region.Slots(), remote.region.cache.flash, dents.cache.flash, dents.dirIndex, pos, cp, rpos, remote.sound, remote.backlog, remote.deferred,
             |ops|, rwal.head, rwal.cp)
    }

    /** Both regions are written back. */
    method FlushRegions()
      requires Valid()
      modifies dents.cache, dents.cache.pool, remote.region.cache, remote.region.cache.pool
      ensures Valid() && Durable() && remote.region.Slots() == old(remote.region.Slots())
      ensures remote.region.MaxInodes() == old(remote.region.MaxInodes()) && |dents.cache.flash| == old(|dents.cache.flash|)
    {
      hide Linked, Chained, Partition, Indexed, View, Flat, PageOk, Log, ChainOk, LaneOk, Stands, OpOk, History, Outgoing, RingOk;
      remote.region.FlushDirty();
      dents.FlushDirty();
    }

    /** Both logs are cleared up to what has been replayed. */
    method ClearLogs()
      requires Valid() && Durable()
      modifies this`wal, this`cp, rwal`cp, rwal.ring
      ensures Valid() && Durable() && cp == pos && rwal.cp == rpos
    {
      hide Linked, Chained, Partition, Indexed, View, Flat, PageOk, Log, ChainOk, LaneOk, Stands, OpOk, History, Outgoing, RingOk;
      wal := wal[pos - cp..];
      cp := pos;
      rwal.Release(rpos);
    }

    /** The group commit: both regions, then the forward queues, and only then the logs are cleared. */
    method SyncPhase()
      requires Valid()
      modifies this`wal, this`cp, dents.cache, dents.cache.pool, remote.region.cache, remote.region.cache.pool
      modifies fw`batches, fw`pending, rwal`cp, rwal.ring
      ensures Valid() && Durable() && remote.region.Slots() == old(remote.region.Slots())
      ensures remote.region.MaxInodes() == old(remote.region.MaxInodes()) && |dents.cache.flash| == old(|dents.cache.flash|)
      ensures cp == pos && rwal.cp == rpos && forall t :: 0 <= t < fw.n ==> fw.batches[t] == []
    {
      hide Linked, Chained, Partition, Indexed, View, Flat, PageOk, Log, ChainOk, LaneOk, Stands, OpOk, History, Outgoing, RingOk;
      FlushRegions();
      fw.Commit();
      ClearLogs();
    }

    /** The three phases of a cycle: replay (to s1), remote changes (to s2), local child counts. */
    method Phases(mainBudget: nat, remoteBudget: nat)
      returns (ghost s1: seq<Inode>, ghost s2: seq<Inode>, ghost blocks: map<nat, int>, ghost done: set<nat>)
      requires Valid() && dents.allocPos + 4 * (|ops| - pos) < |dents.cache.flash|
      modifies this`pos, this`rpos, dents, dents.cache, dents.cache.pool, dents.cache.pageSlots
      modifies remote, remote.region.cache, remote.region.cache.pool, remote.region.cache.pageSlots
      modifies fw`batches, fw`produced
      ensures Valid() && remote.region.MaxInodes() == old(remote.region.MaxInodes())
      ensures old(pos) <= pos && (pos == |ops| || pos - old(pos) >= mainBudget) && rpos == rwal.head
      ensures dents.allocPos <= old(dents.allocPos) + 4 * (pos - old(pos)) && |dents.cache.flash| == old(|dents.cache.flash|)
      ensures remote.sound == (old(remote.sound) && RemoteOk(old(remote.backlog) + Arrived(rwal.log[old(rpos)..]), remote.region.MaxInodes()))
      ensures remote.sound ==>
                Processed(ops[old(pos)..pos], fw.self, old(remote.backlog) + Arrived(rwal.log[old(rpos)..]), remote.backlog,
                          old(remote.region.Slots()), s1, s2, remote.region.Slots(), blocks, done, remoteBudget)
      ensures Inodes(remote.deferred) <= Inodes(old(remote.deferred) + Arrived(rwal.log[old(rpos)..]))
      ensures forall id :: OwnSlotStep(id, ops[old(pos)..pos], fw.self, old(remote.deferred) + Arrived(rwal.log[old(rpos)..]),
                                    old(remote.region.Slots()), remote.region.Slots())
    {
      hide Linked, Chained, Partition, Indexed, View, Flat, PageOk, Log, ChainOk, LaneOk, Stands, OpOk, History, Outgoing, RingOk;
      hide Moved, Added, CycleAt, RemoteOk, Inodes, OwnSlotStep, NoneFor;
      Bounds();
      ghost var s0, raw := remote.region.Slots(), remote.deferred + Arrived(rwal.log[rpos..]);
      var deltas := MainPhase(mainBudget);
      blocks := deltas;
      s1 := remote.region.Slots();
      var hit;
      hit, done := RemotePhase(remoteBudget);
      s2 := remote.region.Slots();
      BlocksPhase(deltas);
      forall id ensures OwnSlotStep(id, ops[old(pos)..pos], fw.self, raw, s0, remote.region.Slots()) {
        SlotProcessed(id, ops[old(pos)..pos], fw.self, raw, s0, s1, s2, remote.region.Slots(), blocks);
      }
    }

    /** DoCheckpoint.  `due` stands for the three reasons to sync (forced, batch full, timer), the
        budgets for the two deadlines.  Entries leave the log only when flash holds their effect. */
    method DoCheckpoint(due: bool, mainBudget: nat, remoteBudget: nat)
      returns (did: bool, ghost s1: seq<Inode>, ghost s2: seq<Inode>, ghost blocks: map<nat, int>, ghost done: set<nat>)
      requires Valid() && dents.allocPos + 4 * (|ops| - pos) < |dents.cache.flash|
      modifies this`wal, this`cp, this`pos, this`rpos, dents, dents.cache, dents.cache.pool, dents.cache.pageSlots
      modifies remote, remote.region.cache, remote.region.cache.pool, remote.region.cache.pageSlots
      modifies fw`batches, fw`pending, fw`produced, rwal`cp, rwal.ring
      ensures Valid() && remote.region.MaxInodes() == old(remote.region.MaxInodes())
      ensures old(pos) <= pos && (did ==> (pos == |ops| || pos - old(pos) >= mainBudget) && rpos == rwal.head)
      ensures dents.allocPos <= old(dents.allocPos) + 4 * (pos - old(pos)) && |dents.cache.flash| == old(|dents.cache.flash|)
      ensures did ==> remote.sound == (old(remote.sound) && RemoteOk(old(remote.backlog) + Arrived(rwal.log[old(rpos)..]), remote.region.MaxInodes()))
      ensures did && remote.sound ==>
                Processed(ops[old(pos)..pos], fw.self, old(remote.backlog) + Arrived(rwal.log[old(rpos)..]), remote.backlog,
                          old(remote.region.Slots()), s1, s2, remote.region.Slots(), blocks, done, remoteBudget)
      ensures Inodes(remote.deferred) <= Inodes(old(remote.deferred) + Arrived(rwal.log[old(rpos)..]))
      ensures did ==> forall id :: OwnSlotStep(id, ops[old(pos)..pos], fw.self, old(remote.deferred) + Arrived(rwal.log[old(rpos)..]),
                                            old(remote.region.Slots()), remote.region.Slots())
      ensures did <==> || old(pos) < |ops| || old(rpos) < rwal.head || old(remote.deferred) != []
                       || (due && (old(pos) > old(cp) || old(rpos) > old(rwal.cp)))
      ensures !did ==> pos == old(pos) && cp == old(cp) && rpos == old(rpos) && remote.backlog == old(remote.backlog)
                       && remote.deferred == old(remote.deferred) && remote.region.Slots() == old(remote.region.Slots()) && rwal.cp == old(rwal.cp)
      ensures !due ==> cp == old(cp) && rwal.cp == old(rwal.cp)
      ensures cp == old(cp) || (cp == pos && Durable())
      ensures did && due ==> cp == pos && rwal.cp == rpos
    {
      hide Linked, Chained, Partition, Indexed, View, Flat, PageOk, Log, ChainOk, LaneOk, Stands, OpOk, History, Outgoing, RingOk;
      hide Valid, Durable, Processed, RemoteOk, Arrived, OwnSlotStep;
      Bounds();
      s1, s2, blocks, done := [], [], map[], {};
      var newWork := pos < cp + |wal| || rpos < rwal.head || remote.deferred != [];
      var anyPending := pos > cp || rpos > rwal.cp;
      if !newWork && (!anyPending || !due) {
        return false, s1, s2, blocks, done;
      }
      did := true;
      s1, s2, blocks, done := Phases(mainBudget, remoteBudget);
      Bounds();
      if due && (pos > cp || rpos > rwal.cp) {
        SyncPhase();
      }
    }

    /** Changes arrive from another server. */
    method Receive(sender: nat, changes: seq<Change>) returns (take: nat)
      requires Valid()
      modifies rwal`head, rwal`log, rwal.ring
      ensures Valid() && take <= |changes| && rwal.log == old(rwal.log) + Tagged(sender, changes[..take])
      ensures rwal.head == |rwal.log| && (take == |changes| || rwal.head - rwal.cp == rwal.ring.Length - 1)
    {
      hide Linked, Chained, Partition, Indexed, View, Flat, PageOk, Log, ChainOk, LaneOk, Stands, OpOk, History, Outgoing, RingOk;
      RingSizes(rwal.ring[..], rwal.log, rwal.cp, rwal.head);
      take := rwal.TryAppendPartial(sender, changes);
      RingSizes(rwal.ring[..], rwal.log, rwal.cp, rwal.head);
    }

    /** One checkpoint cycle, as a step between two moments. */
    method CycleStep(due: bool, mainBudget: nat, remoteBudget: nat)
      requires Valid() && dents.allocPos + 4 * (|ops| - pos) < |dents.cache.flash|
      modifies this`wal, this`cp, this`pos, this`rpos, dents, dents.cache, dents.cache.pool, dents.cache.pageSlots
      modifies remote, remote.region.cache, remote.region.cache.pool, remote.region.cache.pageSlots
      modifies fw`batches, fw`pending, fw`produced, rwal`cp, rwal.ring
      ensures Valid() && |dents.cache.flash| == old(|dents.cache.flash|)
      ensures dents.allocPos + 4 * (|ops| - pos) <= old(dents.allocPos + 4 * (|ops| - pos))
      ensures CycleBetween(old(Now()), Now(), ops, rwal.log, fw.self, due, mainBudget, remoteBudget)
    {
      hide Linked, Chained, Partition, Indexed, View, Flat, PageOk, Log, ChainOk, LaneOk, Stands, OpOk, History, Outgoing, RingOk;
      hide Valid, Persisted, Processed, RemoteOk, Inodes, OwnSlotStep;
      Bounds();
      ghost var m := Now();
      var did;
      ghost var s1, s2, blocks, done;
      did, s1, s2, blocks, done := DoCheckpoint(due, mainBudget, remoteBudget);
      Bounds();
      assert rwal.log[m.rpos..] == rwal.log[m.rpos..rwal.head];
      if !did {
        assert ops[pos..pos] == [];
        forall id ensures OwnSlotStep(id, [], fw.self, m.deferred + Arrived(rwal.log[m.rpos..rpos]), m.slots, m.slots) {
          NoStep(id, fw.self, m.deferred + Arrived(rwal.log[m.rpos..rpos]), m.slots);
        }
      }
    }

    /** One event at this server. */
    method Handle(e: Event)
      requires Valid() && (e.Append? ==> OpOk(e.op, fw.n)) && dents.allocPos + 4 * (|ops| - pos) + 4 < |dents.cache.flash|
      modifies this, dents, dents.cache, dents.cache.pool, dents.cache.pageSlots
      modifies remote, remote.region.cache, remote.region.cache.pool, remote.region.cache.pageSlots
      modifies fw`batches, fw`pending, fw`produced, rwal, rwal.ring
      ensures Valid() && ops == old(ops) + (if e.Append? then [e.op] else []) && |dents.cache.flash| == old(|dents.cache.flash|)
      ensures dents.allocPos + 4 * (|ops| - pos) <= old(dents.allocPos + 4 * (|ops| - pos)) + 4
      ensures old(rwal.log) <= rwal.log && StepBetween(old(Now()), Now(), e, ops, rwal.log, fw.self, rwal.ring.Length)
    {
      hide Linked, Chained, Partition, Indexed, View, Flat, PageOk, Log, ChainOk, LaneOk, Stands, OpOk, History, Outgoing, RingOk;
      hide Valid, CycleBetween;
      Bounds();
      match e {
        case Append(op) =>
          Publish(op);
        case Receive(sender, changes) =>
          var take := Receive(sender, changes);
        case CheckpointCycle(due, mainBudget, remoteBudget) =>
          CycleStep(due, mainBudget, remoteBudget);
      }
      Bounds();
    }

    /** Any sequence of entries published, changes received and checkpoint cycles, with any deadlines
        and any pattern of syncs: every entry is replayed at most once and in order, so that the
        directory events and the forwarded changes are those of the first `pos` entries, and what
        is gone from the log has been replayed.  `trace` holds the moments between the events. */
    method Run(schedule: seq<Event>) returns (ghost trace: seq<Moment>)
      requires Valid() && dents.allocPos + 4 * (|ops| - pos + |schedule|) < |dents.cache.flash|
      requires forall i :: 0 <= i < |schedule| && schedule[i].Append? ==> OpOk(schedule[i].op, fw.n)
      modifies this, dents, dents.cache, dents.cache.pool, dents.cache.pageSlots
      modifies remote, remote.region.cache, remote.region.cache.pool, remote.region.cache.pageSlots
      modifies fw`batches, fw`pending, fw`produced, rwal, rwal.ring
      ensures Valid() && ops == old(ops) + Logged(schedule) && old(rwal.log) <= rwal.log
      ensures cp <= pos <= |ops| && forall d :: dents.Events(d) == History(ops[..pos], d)
      ensures forall t :: 0 <= t < fw.n ==> fw.produced[t] == Outgoing(ops[..pos], fw.self, t)
      ensures |trace| == |schedule| + 1 && trace[0] == old(Now()) && trace[|schedule|] == Now()
      ensures forall k :: 0 <= k < |schedule| ==> StepBetween(trace[k], trace[k + 1], schedule[k], ops, rwal.log, fw.self, rwal.ring.Length)
    {
      hide Linked, Chained, Partition, Indexed, View, Flat, PageOk, Log, ChainOk, LaneOk, Stands, OpOk, History, Outgoing, RingOk, StepBetween;
      Bounds();
      trace := [Now()];
      for k := 0 to |schedule|
        invariant Valid() && ops == old(ops) + Logged(schedule[..k]) && old(rwal.log) <= rwal.log && |dents.cache.flash| == old(|dents.cache.flash|)
        invariant dents.allocPos + 4 * (|ops| - pos + |schedule| - k) < |dents.cache.flash|
        invariant |trace| == k + 1 && trace[0] == old(Now()) && trace[k] == Now()
        invariant forall j :: 0 <= j < k ==> StepBetween(trace[j], trace[j + 1], schedule[j], ops, rwal.log, fw.self, rwal.ring.Length)
      {
        ghost var ops0, rlog0 := ops, rwal.log;
        Handle(schedule[k]);
        forall j | 0 <= j < k ensures StepBetween(trace[j], trace[j + 1], schedule[j], ops, rwal.log, fw.self, rwal.ring.Length) {
          StepKept(trace[j], trace[j + 1], schedule[j], ops0, ops, rlog0, rwal.log, fw.self, rwal.ring.Length);
        }
        trace := trace + [Now()];
        assert schedule[..k + 1][..k] == schedule[..k];
      }
      assert schedule[..|schedule|] == schedule;
    }
  }

  datatype Event =
    | Append(op: LogOp)
    | Receive(sender: nat, changes: seq<Change>)
    | CheckpointCycle(due: bool, mainBudget: nat, remoteBudget: nat)

  /** The entries a schedule publishes. */
  ghost function Logged(schedule: seq<Event>): seq<LogOp> {
    if schedule == [] then []
    else Logged(schedule[..|schedule| - 1]) + if schedule[|schedule| - 1].Append? then [schedule[|schedule| - 1].op] else []
  }

  /** A whole cycle's effect on the inode slots: s0 to s1 by replay, to s2 by remote changes, to s3
      by the local child counts. */
  ghost predicate Processed(entries: seq<LogOp>, self: nat, raw: seq<Change>, backlog: seq<Change>,
                            s0: seq<Inode>, s1: seq<Inode>, s2: seq<Inode>, s3: seq<Inode>, blocks: map<nat, int>, done: set<nat>, budget: nat)
  {
    && |s0| == |s1| == |s2| == |s3| > 0
    && (|done| >= budget || forall e :: e in raw ==> PageOf(SlotOf(e, |s0|)) in done)
    && Moved(entries, self, s0, s1, blocks)
    && (forall n :: 0 <= n < |s1| ==> CycleAt(n, raw, done, s1, s2, backlog))
    && Added(blocks, blocks.Keys, s2, s3)
  }

  lemma SlotProcessed(id: nat, entries: seq<LogOp>, self: nat, raw: seq<Change>,
                      s0: seq<Inode>, s1: seq<Inode>, s2: seq<Inode>, s3: seq<Inode>, blocks: map<nat, int>)
    requires |s0| == |s1| == |s2| == |s3| > 0 && Moved(entries, self, s0, s1, blocks) && Added(blocks, blocks.Keys, s2, s3)
    requires forall n :: 0 <= n < |s0| && NoneFor(raw, n, |s0|) ==> s2[n] == s1[n]
    ensures OwnSlotStep(id, entries, self, raw, s0, s3)
  {
    hide Named, AfterOps, LocalDeltas, Grown;
    var n := id % |s0|;
    assert Count(blocks, id) == LocalDeltas(entries, self, id);
    if Sole(Named(entries), id, |s0|) && NoneFor(raw, n, |s0|) && id !in blocks {
      GrownByNothing(s2[n]);
      forall x | x in blocks.Keys ensures x % |s0| != n {
        assert x in Named(entries);
      }
    }
  }

  lemma NoStep(id: nat, self: nat, raw: seq<Change>, slots: seq<Inode>)
    requires |slots| > 0
    ensures OwnSlotStep(id, [], self, raw, slots, slots)
  {
    NoEntries(slots, self);
    GrownByNothing(slots[id % |slots|]);
  }

  // ---- Child counts and directory logs agree ----

  /** Entries put minus entries removed. */
  ghost function Net(events: seq<Dent>): int {
    if events == [] then 0 else Net(events[..|events| - 1]) + if events[|events| - 1].tomb then -1 else 1
  }

  ghost function CountChange(cs: seq<Change>, d: nat): int {
    if cs == [] then 0
    else
      var e := cs[|cs| - 1];
      CountChange(cs[..|cs| - 1], d) + if e.op.BlocksDelta? && e.inode == d then e.value else 0
  }

  /** The child count deltas a log sends for directory d, to whatever server. */
  ghost function CountChanges(ops: seq<LogOp>, d: nat): int {
    if ops == [] then 0 else CountChanges(ops[..|ops| - 1], d) + CountChange(ChangesOf(ops[|ops| - 1]), d)
  }

  lemma {:induction false} NetConcat(a: seq<Dent>, b: seq<Dent>)
    ensures Net(a + b) == Net(a) + Net(b)
  {
    if b == [] {
      assert a + b == a;
    } else {
      NetConcat(a, b[..|b| - 1]);
      assert (a + b)[..|a + b| - 1] == a + b[..|b| - 1];
    }
  }

  lemma NetOfOp(op: LogOp, d: nat)
    ensures CountChange(ChangesOf(op), d) == Net(EventsOf(op, d))
  {
    match op {
      case Create(inode, parent, _, _, _, kind, name, v) =>
        NetOne(Dent(inode, v, kind, false, name));
        CountOne(ChangesOf(op)[0], d);
      case Unlink(inode, parent, name, v) =>
        NetOne(Dent(inode, v, DT_UNKNOWN, true, name));
        CountTwo(ChangesOf(op)[0], ChangesOf(op)[1], d);
      case Rename(inode, parent, newParent, name, newName, kind, v) =>
        var gone, put := Dent(inode, v, DT_UNKNOWN, true, name), Dent(inode, v, kind, false, newName);
        NetOne(gone);
        NetOne(put);
        NetConcat([gone], [put]);
        if parent != newParent {
          CountTwo(ChangesOf(op)[0], ChangesOf(op)[1], d);
        }
      case Setattr(inode, _, v) =>
        CountOne(ChangesOf(op)[0], d);
      case Link(inode, parent, name, kind, v) =>
        NetOne(Dent(inode, v, kind, false, name));
        CountTwo(ChangesOf(op)[0], ChangesOf(op)[1], d);
    }
  }

  lemma NetOne(e: Dent)
    ensures Net([e]) == if e.tomb then -1 else 1
  {
    assert [e][..0] == [];
  }

  lemma CountOne(e: Change, d: nat)
    ensures CountChange([e], d) == if e.op.BlocksDelta? && e.inode == d then e.value else 0
  {
    assert [e][..0] == [];
  }

  lemma CountTwo(e: Change, f: Change, d: nat)
    ensures CountChange([e, f], d) == CountChange([e], d) + CountChange([f], d)
    ensures CountChange([e], d) == if e.op.BlocksDelta? && e.inode == d then e.value else 0
    ensures CountChange([f], d) == if f.op.BlocksDelta? && f.inode == d then f.value else 0
  {
    CountOne(e, d);
    CountOne(f, d);
    assert [e, f][..1] == [e];
  }

  /** Over any log, the child count deltas for a directory add up to the entries put into its log
      minus those removed from it. */
  lemma {:induction false} CountsMatchEvents(ops: seq<LogOp>, d: nat)
    ensures CountChanges(ops, d) == Net(History(ops, d))
  {
    hide ChangesOf, EventsOf;
    if ops != [] {
      var r, op := ops[..|ops| - 1], ops[|ops| - 1];
      CountsMatchEvents(r, d);
      NetOfOp(op, d);
      NetConcat(History(r, d), EventsOf(op, d));
    }
  }
}
