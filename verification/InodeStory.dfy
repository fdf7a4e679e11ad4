/** What a persisted inode holds, told by the log entries that name it. */
module InodeStories {
  import opened PageCaches
  import opened DentRegions
  import opened InodeRegions
  import opened WalEvents
  import opened RemoteChanges
  import opened Coalescing
  import opened Forwarding
  import opened Checkpoints

  // ---- In the entries' own terms ----

  /** The entries for `id`, hard links as a step up and unlinks as a step down. */
  function EntrySteps(ops: seq<LogOp>, id: nat): seq<int> {
    if ops == [] then []
    else
      var op := ops[|ops| - 1];
      EntrySteps(ops[..|ops| - 1], id)
      + if op.Link? && op.inode == id then [1] else if op.Unlink? && op.inode == id then [-1] else []
  }

  /** The mode of the last setattr of `id`. */
  function LastMode(ops: seq<LogOp>, id: nat, mode: nat): nat {
    if ops == [] then mode
    else
      var op := ops[|ops| - 1];
      if op.Setattr? && op.inode == id then op.mode else LastMode(ops[..|ops| - 1], id, mode)
  }

  /** The version of the last entry that changes the inode itself. */
  function LastStamp(ops: seq<LogOp>, id: nat, version: nat): nat {
    if ops == [] then version
    else
      var op := ops[|ops| - 1];
      if (op.Setattr? || op.Link? || op.Unlink?) && op.inode == id then op.version
      else LastStamp(ops[..|ops| - 1], id, version)
  }

  /** The inode that `create` made, after the entries `rest`. */
  ghost predicate Tells(i: Inode, create: LogOp, rest: seq<LogOp>)
    requires create.Create?
  {
    && i.id == create.inode && i.uid == create.uid && i.gid == create.gid
    && i.mode == Wrap(LastMode(rest, create.inode, create.mode))
    && i.nlink == Counted(1, EntrySteps(rest, create.inode))
    && i.atime == i.mtime == Seconds(create.version) && i.ctime == Seconds(LastStamp(rest, create.inode, create.version))
  }

  /** The inodes an entry names. */
  function Names(op: LogOp): set<nat> {
    match op
    case Create(inode, parent, _, _, _, _, _, _) => {inode, parent}
    case Unlink(inode, parent, _, _) => {inode, parent}
    case Rename(inode, parent, newParent, _, _, _, _) => {inode, parent, newParent}
    case Setattr(inode, _, _) => {inode}
    case Link(inode, parent, _, _, _) => {inode, parent}
  }

  /** No entry names another inode in this inode's slot. */
  ghost predicate OwnSlot(ops: seq<LogOp>, id: nat, max: nat)
    requires max > 0
  {
    forall op, x :: op in ops && x in Names(op) && x % max == id % max ==> x == id
  }

  /** No entry creates it again. */
  ghost predicate CreatedOnce(ops: seq<LogOp>, id: nat) {
    forall op :: op in ops && op.Create? ==> op.inode != id
  }

  lemma StoryAppend(rest: seq<LogOp>, op: LogOp, id: nat)
    ensures EntrySteps(rest + [op], id)
         == EntrySteps(rest, id) + if op.Link? && op.inode == id then [1] else if op.Unlink? && op.inode == id then [-1] else []
    ensures forall mode :: LastMode(rest + [op], id, mode) == if op.Setattr? && op.inode == id then op.mode else LastMode(rest, id, mode)
    ensures forall v :: LastStamp(rest + [op], id, v)
                     == if (op.Setattr? || op.Link? || op.Unlink?) && op.inode == id then op.version else LastStamp(rest, id, v)
  {
    assert (rest + [op])[..|rest|] == rest;
  }

  // ---- Replay of one entry, seen from one slot ----

  /** The change an entry makes to its own inode. */
  lemma OneChange(slots: seq<Inode>, cs: seq<Change>, self: nat, n: nat)
    requires n < |slots| && |cs| <= 2 && forall k :: 1 <= k < |cs| ==> cs[k].op.BlocksDelta?
    ensures SlotsAfterAll(slots, cs, self)[n] == if cs == [] then slots[n] else SlotsAfter(slots, cs[0], self)[n]
  {
    hide ApplyChange, Owner;
    if |cs| >= 1 {
      assert cs[..1] == [cs[0]] && [cs[0]][..0] == [];
    }
    if |cs| == 2 {
      assert cs[..2] == cs;
    }
  }

  lemma CreateSlot(slots: seq<Inode>, op: LogOp, self: nat)
    requires |slots| > 0 && op.Create?
    ensures var i := AfterOp(slots, op, self)[op.inode % |slots|]; Tells(i, op, []) && i.extra == 0
  {
    var n := op.inode % |slots|;
    OneChange(slots[n := NewInode(op)], ChangesOf(op), self, n);
    CountedNone(1);
  }

  lemma EntrySlot(slots: seq<Inode>, op: LogOp, self: nat, create: LogOp, rest: seq<LogOp>)
    requires |slots| > 0 && create.Create? && create.inode != 0 && Owner(create.inode) == self
    requires var n := create.inode % |slots|;
             Tells(slots[n], create, rest) && (op.inode % |slots| == n ==> op.inode == create.inode && !op.Create?)
    ensures var n := create.inode % |slots|;
            Tells(AfterOp(slots, op, self)[n], create, rest + [op]) && AfterOp(slots, op, self)[n].extra == slots[n].extra
  {
    hide Counted, Seconds, Wrap, EntrySteps, LastMode, LastStamp, Owner;
    var id, n := create.inode, create.inode % |slots|;
    StoryAppend(rest, op, id);
    assert EntrySteps(rest, id) + [] == EntrySteps(rest, id);
    CountedStep(1, EntrySteps(rest, id), 1);
    CountedStep(1, EntrySteps(rest, id), -1);
    var start := if op.Create? then slots[op.inode % |slots| := NewInode(op)] else slots;
    OneChange(start, ChangesOf(op), self, n);
  }

  lemma AfterFirst(slots: seq<Inode>, ops: seq<LogOp>, self: nat)
    requires |slots| > 0 && ops != []
    ensures AfterOps(slots, ops, self) == AfterOp(AfterOps(slots, ops[..|ops| - 1], self), ops[|ops| - 1], self)
  {
  }

  /** Any number of entries. */
  lemma {:induction false} EntriesSlot(slots: seq<Inode>, ops: seq<LogOp>, self: nat, create: LogOp, rest: seq<LogOp>)
    requires |slots| > 0 && create.Create? && create.inode != 0 && Owner(create.inode) == self
    requires Tells(slots[create.inode % |slots|], create, rest) && OwnSlot(ops, create.inode, |slots|) && CreatedOnce(ops, create.inode)
    ensures var n := create.inode % |slots|;
            Tells(AfterOps(slots, ops, self)[n], create, rest + ops) && AfterOps(slots, ops, self)[n].extra == slots[n].extra
  {
    hide Tells, AfterOps, AfterOp, Owner;
    if ops == [] {
      NoEntries(slots, self);
      assert rest + ops == rest;
    } else {
      var r, op := ops[..|ops| - 1], ops[|ops| - 1];
      assert op in ops && op.inode in Names(op);
      EntriesSlot(slots, r, self, create, rest);
      AfterFirst(slots, ops, self);
      EntrySlot(AfterOps(slots, r, self), op, self, create, rest + r);
      assert rest + ops == rest + r + [op];
    }
  }

  lemma {:induction false} AfterConcat(slots: seq<Inode>, a: seq<LogOp>, b: seq<LogOp>, self: nat)
    requires |slots| > 0
    ensures AfterOps(slots, a + b, self) == AfterOps(AfterOps(slots, a, self), b, self)
  {
    hide AfterOps, AfterOp;
    if b == [] {
      assert a + b == a;
      NoEntries(AfterOps(slots, a, self), self);
    } else {
      var r, op := b[..|b| - 1], b[|b| - 1];
      AfterConcat(slots, a, r, self);
      assert (a + b)[..|a + b| - 1] == a + r;
      AfterFirst(slots, a + b, self);
      AfterFirst(AfterOps(slots, a, self), b, self);
    }
  }

  /** Entries with the create among them, at index c. */
  lemma CreatedSlot(slots: seq<Inode>, ops: seq<LogOp>, self: nat, c: nat)
    requires |slots| > 0 && c < |ops| && ops[c].Create? && ops[c].inode != 0 && Owner(ops[c].inode) == self
    requires OwnSlot(ops[c + 1..], ops[c].inode, |slots|) && CreatedOnce(ops[c + 1..], ops[c].inode)
    ensures var i := AfterOps(slots, ops, self)[ops[c].inode % |slots|];
            Tells(i, ops[c], ops[c + 1..]) && i.extra == 0
  {
    hide Tells, AfterOps, AfterOp, Owner;
    var a, b := ops[..c], ops[c + 1..];
    assert ops == (a + [ops[c]]) + b && (a + [ops[c]])[..c] == a;
    AfterConcat(slots, a + [ops[c]], b, self);
    AfterFirst(slots, a + [ops[c]], self);
    CreateSlot(AfterOps(slots, a, self), ops[c], self);
    EntriesSlot(AfterOps(slots, a + [ops[c]], self), b, self, ops[c], []);
    assert [] + b == b;
  }

  // ---- The child count ----

  lemma {:induction false} LocalIsCount(cs: seq<Change>, self: nat, id: nat)
    requires Owner(id) == self
    ensures LocalDelta(cs, self, id) == CountChange(cs, id)
  {
    hide Owner;
    if cs != [] {
      LocalIsCount(cs[..|cs| - 1], self, id);
    }
  }

  /** The deltas of a directory's own entries are its events put minus its events removed. */
  lemma {:induction false} LocalMatches(ops: seq<LogOp>, self: nat, id: nat)
    requires Owner(id) == self
    ensures LocalDeltas(ops, self, id) == Net(History(ops, id))
  {
    hide Owner, History, Net, ChangesOf, LocalDelta, CountChange;
    CountsMatchEvents(ops, id);
    LocalIsCounts(ops, self, id);
  }

  lemma {:induction false} LocalIsCounts(ops: seq<LogOp>, self: nat, id: nat)
    requires Owner(id) == self
    ensures LocalDeltas(ops, self, id) == CountChanges(ops, id)
  {
    hide Owner, ChangesOf, LocalDelta, CountChange;
    if ops != [] {
      LocalIsCounts(ops[..|ops| - 1], self, id);
      LocalIsCount(ChangesOf(ops[|ops| - 1]), self, id);
    }
  }

  /** Entries put into directory `id` minus entries removed, by entries a up to b. */
  ghost function Children(ops: seq<LogOp>, id: nat, a: nat, b: nat): int
    requires a <= b <= |ops|
  {
    Net(History(ops[a..b], id))
  }

  lemma LocalChildren(ops: seq<LogOp>, self: nat, id: nat, a: nat, b: nat)
    requires a <= b <= |ops| && Owner(id) == self
    ensures LocalDeltas(ops[a..b], self, id) == Children(ops, id, a, b)
  {
    LocalMatches(ops[a..b], self, id);
  }

  lemma ChildrenParts(ops: seq<LogOp>, id: nat, a: nat, b: nat, c: nat)
    requires a <= b <= c <= |ops|
    ensures Children(ops, id, a, c) == Children(ops, id, a, b) + Children(ops, id, b, c)
  {
    hide History, Net;
    HistoryAppend(ops[a..b], ops[b..c], id);
    assert ops[a..b] + ops[b..c] == ops[a..c];
    NetConcat(History(ops[a..b], id), History(ops[b..c], id));
  }

  /** Nothing is put into the directory before it is created, and from then on its number of children is
      never below zero or too large for its field. */
  ghost predicate Countable(ops: seq<LogOp>, id: nat, start: nat, c: nat, p: nat)
    requires start <= c <= p <= |ops|
  {
    && (forall q :: start <= q <= c ==> Children(ops, id, q, c) == 0)
    && (forall q :: c <= q <= p ==> 0 <= Children(ops, id, c, q) < WORD)
  }

  lemma AddExact(x: uint32, d: int)
    requires 0 <= x + d < WORD
    ensures AddClamped(x, d) == x + d
  {
  }

  // ---- Runs ----

  /** The slot at position p of the log, for the inode that entry c creates. */
  ghost predicate StoryAt(i: Inode, ops: seq<LogOp>, start: nat, c: nat, p: nat)
    requires start <= c < |ops| && ops[c].Create? && p <= |ops|
  {
    c < p ==>
      && Tells(i, ops[c], ops[c + 1..p])
      && (Countable(ops, ops[c].inode, start, c, p) ==> i.extra == Children(ops, ops[c].inode, c, p))
  }

  lemma TellsGrown(i: Inode, d: int, create: LogOp, rest: seq<LogOp>)
    requires create.Create? && Tells(i, create, rest)
    ensures Tells(Grown(i, d), create, rest)
  {
    hide AddClamped, Counted, Seconds, Wrap, EntrySteps, LastMode, LastStamp;
  }

  lemma {:induction false} NamedByNames(ops: seq<LogOp>, x: nat)
    requires x in Named(ops)
    ensures exists op :: op in ops && x in Names(op)
  {
    var r, op := ops[..|ops| - 1], ops[|ops| - 1];
    if x in Named(r) {
      NamedByNames(r, x);
      var o :| o in r && x in Names(o);
      assert o in ops;
    } else {
      assert op in ops && x in Inodes(ChangesOf(op));
    }
  }

  lemma SoleInSlot(ops: seq<LogOp>, id: nat, max: nat)
    requires max > 0 && OwnSlot(ops, id, max)
    ensures Sole(Named(ops), id, max)
  {
    hide Named, Names;
    forall x | x in Named(ops) && x % max == id % max ensures x == id {
      NamedByNames(ops, x);
    }
  }

  lemma OwnPart(ops: seq<LogOp>, part: seq<LogOp>, id: nat, max: nat)
    requires max > 0 && OwnSlot(ops, id, max) && forall op :: op in part ==> op in ops
    ensures OwnSlot(part, id, max)
  {
    hide Names;
  }

  /** Entries p up to q, then their net child count delta. */
  lemma StoryStep(slots: seq<Inode>, ops: seq<LogOp>, self: nat, start: nat, c: nat, p: nat, q: nat, now: Inode)
    requires |slots| > 0 && start <= p <= q <= |ops| && start <= c < |ops| && ops[c].Create?
    requires ops[c].inode != 0 && Owner(ops[c].inode) == self
    requires OwnSlot(ops[start..q], ops[c].inode, |slots|) && (c < q ==> CreatedOnce(ops[c + 1..q], ops[c].inode))
    requires StoryAt(slots[ops[c].inode % |slots|], ops, start, c, p)
    requires now == Grown(AfterOps(slots, ops[p..q], self)[ops[c].inode % |slots|], LocalDeltas(ops[p..q], self, ops[c].inode))
    ensures StoryAt(now, ops, start, c, q)
  {
    hide Tells, AfterOps, LocalDeltas, Owner, Children, OwnSlot, CreatedOnce, AddClamped, StoryAt;
    if c < q {
      StoryStepOn(slots, ops, self, start, c, p, q, now);
    } else {
      NotYet(now, ops, start, c, q);
    }
  }

  lemma NotYet(i: Inode, ops: seq<LogOp>, start: nat, c: nat, p: nat)
    requires start <= c < |ops| && ops[c].Create? && p <= c
    ensures StoryAt(i, ops, start, c, p)
  {
  }

  lemma OwnedSince(ops: seq<LogOp>, start: nat, a: nat, q: nat, id: nat, max: nat)
    requires max > 0 && start <= a <= q <= |ops| && OwnSlot(ops[start..q], id, max)
    ensures OwnSlot(ops[a..q], id, max)
  {
    forall op | op in ops[a..q] ensures op in ops[start..q] {
      var k :| a <= k < q && ops[k] == op;
      assert ops[start..q][k - start] == op;
    }
    OwnPart(ops[start..q], ops[a..q], id, max);
  }

  lemma OnceSince(ops: seq<LogOp>, c: nat, a: nat, q: nat, id: nat)
    requires c < a <= q <= |ops| && CreatedOnce(ops[c + 1..q], id)
    ensures CreatedOnce(ops[a..q], id)
  {
    forall op | op in ops[a..q] ensures op in ops[c + 1..q] {
      var k :| a <= k < q && ops[k] == op;
      assert ops[c + 1..q][k - c - 1] == op;
    }
  }

  lemma StoryStepOn(slots: seq<Inode>, ops: seq<LogOp>, self: nat, start: nat, c: nat, p: nat, q: nat, now: Inode)
    requires |slots| > 0 && start <= p <= q <= |ops| && start <= c < q && ops[c].Create?
    requires ops[c].inode != 0 && Owner(ops[c].inode) == self
    requires OwnSlot(ops[start..q], ops[c].inode, |slots|) && CreatedOnce(ops[c + 1..q], ops[c].inode)
    requires StoryAt(slots[ops[c].inode % |slots|], ops, start, c, p)
    requires now == Grown(AfterOps(slots, ops[p..q], self)[ops[c].inode % |slots|], LocalDeltas(ops[p..q], self, ops[c].inode))
    ensures StoryAt(now, ops, start, c, q)
  {
    hide Tells, AfterOps, LocalDeltas, Owner, Children, OwnSlot, CreatedOnce, AddClamped;
    var id := ops[c].inode;
    var n := id % |slots|;
    var mid := AfterOps(slots, ops[p..q], self)[n];
    var d := LocalDeltas(ops[p..q], self, id);
    LocalChildren(ops, self, id, p, q);
    if c < p {
      OwnedSince(ops, start, p, q, id, |slots|);
      OnceSince(ops, c, p, q, id);
      EntriesSlot(slots, ops[p..q], self, ops[c], ops[c + 1..p]);
      assert ops[c + 1..p] + ops[p..q] == ops[c + 1..q];
      ChildrenParts(ops, id, c, p, q);
    } else {
      OwnedSince(ops, start, c + 1, q, id, |slots|);
      assert ops[p..q][c - p] == ops[c] && ops[p..q][c - p + 1..] == ops[c + 1..q];
      CreatedSlot(slots, ops[p..q], self, c - p);
      ChildrenParts(ops, id, p, c, q);
    }
    assert Tells(mid, ops[c], ops[c + 1..q]);
    TellsGrown(mid, d, ops[c], ops[c + 1..q]);
    if Countable(ops, id, start, c, q) {
      assert c < p ==> Countable(ops, id, start, c, p);
      AddExact(mid.extra, d);
      TellsId(mid, ops[c], ops[c + 1..q]);
    }
  }

  lemma TellsId(i: Inode, create: LogOp, rest: seq<LogOp>)
    requires create.Create? && Tells(i, create, rest)
    ensures i.id == create.inode
  {
  }

  lemma NoneForMore(a: seq<Change>, b: seq<Change>, n: nat, max: nat)
    requires max > 0 && NoneFor(a, n, max) && Inodes(b) <= Inodes(a)
    ensures NoneFor(b, n, max)
  {
    forall e | e in b ensures SlotOf(e, max) != n {
      assert e.inode in Inodes(b);
      var x :| x in a && x.inode == e.inode;
      assert SlotOf(x, max) != n;
    }
  }

  lemma NoneForJoin(a: seq<Change>, b: seq<Change>, n: nat, max: nat)
    requires max > 0
    ensures NoneFor(a + b, n, max) <==> NoneFor(a, n, max) && NoneFor(b, n, max)
  {
    assert forall e :: e in a ==> e in a + b;
    assert forall e :: e in b ==> e in a + b;
  }

  lemma ArrivedPart(rlog: seq<Received>, r: nat, a: nat, b: nat, n: nat, max: nat)
    requires max > 0 && r <= a <= b <= |rlog| && NoneFor(Arrived(rlog[r..]), n, max)
    ensures NoneFor(Arrived(rlog[a..b]), n, max)
  {
    var all, part := Arrived(rlog[r..]), Arrived(rlog[a..b]);
    forall e | e in part ensures SlotOf(e, max) != n {
      var k :| 0 <= k < |part| && part[k] == e;
      assert all[a - r + k] == e;
    }
  }

  /** One event of a run. */
  lemma EventStory(m: Moment, m': Moment, e: Event, ops: seq<LogOp>, rlog: seq<Received>, self: nat, slots: nat, start: nat, r: nat, c: nat)
    requires StepBetween(m, m', e, ops, rlog, self, slots) && |m.slots| > 0
    requires start <= c < |ops| && ops[c].Create? && ops[c].inode != 0 && Owner(ops[c].inode) == self
    requires start <= m.pos <= |ops| && r <= m.rpos <= |rlog|
    requires m'.pos <= |ops| && (m.pos <= m'.pos ==> OwnSlot(ops[start..m'.pos], ops[c].inode, |m.slots|))
    requires c < m'.pos ==> CreatedOnce(ops[c + 1..m'.pos], ops[c].inode)
    requires var n := ops[c].inode % |m.slots|; NoneFor(m.deferred, n, |m.slots|) && NoneFor(Arrived(rlog[r..]), n, |m.slots|)
    requires StoryAt(m.slots[ops[c].inode % |m.slots|], ops, start, c, m.pos)
    ensures |m'.slots| == |m.slots| && m.pos <= m'.pos && m.rpos <= m'.rpos <= |rlog|
    ensures NoneFor(m'.deferred, ops[c].inode % |m.slots|, |m.slots|)
    ensures StoryAt(m'.slots[ops[c].inode % |m.slots|], ops, start, c, m'.pos)
  {
    hide StoryAt, Effect, Persisted, NoneFor, OwnSlot, CreatedOnce, Owner, Inodes, Arrived, AfterOps, LocalDeltas, Named;
    if e.CheckpointCycle? {
      var id, max := ops[c].inode, |m.slots|;
      var n, drained := id % max, Arrived(rlog[m.rpos..m'.rpos]);
      ArrivedPart(rlog, r, m.rpos, m'.rpos, n, max);
      NoneForJoin(m.deferred, drained, n, max);
      NoneForMore(m.deferred + drained, m'.deferred, n, max);
      OwnedSince(ops, start, m.pos, m'.pos, id, max);
      SoleInSlot(ops[m.pos..m'.pos], id, max);
      assert OwnSlotStep(id, ops[m.pos..m'.pos], self, m.deferred + drained, m.slots, m'.slots);
      StoryStep(m.slots, ops, self, start, c, m.pos, m'.pos, m'.slots[n]);
    }
  }

  ghost predicate Traced(trace: seq<Moment>, schedule: seq<Event>, ops: seq<LogOp>, rlog: seq<Received>, self: nat, slots: nat) {
    && |trace| == |schedule| + 1 && |trace[0].slots| > 0 && trace[0].pos <= |ops| && trace[0].rpos <= |rlog|
    && forall k :: 0 <= k < |schedule| ==> StepBetween(trace[k], trace[k + 1], schedule[k], ops, rlog, self, slots)
  }

  lemma {:induction false} Onward(trace: seq<Moment>, schedule: seq<Event>, ops: seq<LogOp>, rlog: seq<Received>, self: nat, slots: nat, k: nat)
    requires Traced(trace, schedule, ops, rlog, self, slots) && k <= |schedule|
    ensures |trace[k].slots| == |trace[0].slots| && trace[0].pos <= trace[k].pos <= |ops| && trace[0].rpos <= trace[k].rpos <= |rlog|
  {
    hide Effect, Persisted, OwnSlotStep;
    if k > 0 {
      Onward(trace, schedule, ops, rlog, self, slots, k - 1);
      assert StepBetween(trace[k - 1], trace[k], schedule[k - 1], ops, rlog, self, slots);
    }
  }

  lemma {:induction false} NotPast(trace: seq<Moment>, schedule: seq<Event>, ops: seq<LogOp>, rlog: seq<Received>, self: nat, slots: nat, k: nat, l: nat)
    requires Traced(trace, schedule, ops, rlog, self, slots) && k <= l <= |schedule|
    ensures trace[k].pos <= trace[l].pos
  {
    hide Effect, Persisted, OwnSlotStep;
    if k < l {
      NotPast(trace, schedule, ops, rlog, self, slots, k, l - 1);
      assert StepBetween(trace[l - 1], trace[l], schedule[l - 1], ops, rlog, self, slots);
    }
  }

  /** Entry c creates an inode of this server, which from `start` to p has its slot to itself and is not
      created again. */
  ghost predicate Private(ops: seq<LogOp>, start: nat, c: nat, p: nat, max: nat, self: nat)
    requires max > 0
  {
    && start <= c < p <= |ops| && ops[c].Create? && ops[c].inode != 0 && Owner(ops[c].inode) == self
    && OwnSlot(ops[start..p], ops[c].inode, max) && CreatedOnce(ops[c + 1..p], ops[c].inode)
  }

  lemma PrivateUpTo(ops: seq<LogOp>, start: nat, c: nat, q: nat, p: nat, max: nat, self: nat)
    requires max > 0 && Private(ops, start, c, p, max, self) && start <= q <= p
    ensures OwnSlot(ops[start..q], ops[c].inode, max) && (c < q ==> CreatedOnce(ops[c + 1..q], ops[c].inode))
  {
    hide Names, Owner;
    forall op | op in ops[start..q] ensures op in ops[start..p] {
      var k :| start <= k < q && ops[k] == op;
      assert ops[start..p][k - start] == op;
    }
    if c < q {
      var part, whole := ops[c + 1..q], ops[c + 1..p];
      forall op | op in part ensures op in whole {
        var k :| 0 <= k < |part| && part[k] == op;
        assert whole[k] == op;
      }
    }
  }

  /** After any part of a run. */
  lemma {:induction false} RunStory(trace: seq<Moment>, schedule: seq<Event>, ops: seq<LogOp>, rlog: seq<Received>, self: nat, slots: nat, c: nat, k: nat)
    requires Traced(trace, schedule, ops, rlog, self, slots) && k <= |schedule|
    requires Private(ops, trace[0].pos, c, trace[|schedule|].pos, |trace[0].slots|, self)
    requires var max := |trace[0].slots|; NoneFor(trace[0].deferred + Arrived(rlog[trace[0].rpos..]), ops[c].inode % max, max)
    ensures trace[k].pos <= |ops| && |trace[k].slots| == |trace[0].slots|
    ensures var max := |trace[0].slots|;
            && NoneFor(trace[k].deferred, ops[c].inode % max, max)
            && StoryAt(trace[k].slots[ops[c].inode % max], ops, trace[0].pos, c, trace[k].pos)
  {
    hide StoryAt, StepBetween, NoneFor, OwnSlot, CreatedOnce, Owner;
    var start, r, max := trace[0].pos, trace[0].rpos, |trace[0].slots|;
    var n := ops[c].inode % max;
    NoneForJoin(trace[0].deferred, Arrived(rlog[r..]), n, max);
    if k == 0 {
      NotYet(trace[0].slots[n], ops, start, c, start);
    } else {
      var m, m' := trace[k - 1], trace[k];
      RunStory(trace, schedule, ops, rlog, self, slots, c, k - 1);
      Onward(trace, schedule, ops, rlog, self, slots, k - 1);
      Onward(trace, schedule, ops, rlog, self, slots, k);
      NotPast(trace, schedule, ops, rlog, self, slots, k, |schedule|);
      PrivateUpTo(ops, start, c, m'.pos, trace[|schedule|].pos, max, self);
      EventStory(m, m', schedule[k - 1], ops, rlog, self, slots, start, r, c);
    }
  }

  /** What a read of `id` after position p must return: if entry c creates the inode, it is this server's,
      has its slot to itself and got no change from another server, it is what the entries say. */
  ghost predicate Promised(inode: Inode, id: nat, ops: seq<LogOp>, start: nat, c: nat, p: nat, raw: seq<Change>, max: nat, self: nat)
    requires max > 0
  {
    Private(ops, start, c, p, max, self) && ops[c].inode == id && NoneFor(raw, id % max, max) ==> StoryAt(inode, ops, start, c, p)
  }

  lemma RunKeepsPromise(trace: seq<Moment>, schedule: seq<Event>, ops: seq<LogOp>, rlog: seq<Received>, self: nat, slots: nat, id: nat, c: nat)
    requires Traced(trace, schedule, ops, rlog, self, slots)
    ensures var m, m', max := trace[0], trace[|schedule|], |trace[0].slots|;
            |m'.slots| == max && Promised(m'.slots[id % max], id, ops, m.pos, c, m'.pos, m.deferred + Arrived(rlog[m.rpos..]), max, self)
  {
    hide StoryAt, StepBetween, NoneFor, OwnSlot, CreatedOnce, Owner;
    var m, m', max := trace[0], trace[|schedule|], |trace[0].slots|;
    Onward(trace, schedule, ops, rlog, self, slots, |schedule|);
    if Private(ops, m.pos, c, m'.pos, max, self) && ops[c].inode == id && NoneFor(m.deferred + Arrived(rlog[m.rpos..]), id % max, max) {
      RunStory(trace, schedule, ops, rlog, self, slots, c, |schedule|);
    }
  }

  /** Any run, and then a read of an inode. */
  method InodeAfter(ck: Checkpointer, schedule: seq<Event>, id: nat, ghost c: nat) returns (inode: Inode)
    requires ck.Valid() && ck.dents.allocPos + 4 * (|ck.ops| - ck.pos + |schedule|) < |ck.dents.cache.flash|
    requires forall i :: 0 <= i < |schedule| && schedule[i].Append? ==> OpOk(schedule[i].op, ck.fw.n)
    modifies ck, ck.dents, ck.dents.cache, ck.dents.cache.pool, ck.dents.cache.pageSlots
    modifies ck.remote, ck.remote.region.cache, ck.remote.region.cache.pool, ck.remote.region.cache.pageSlots
    modifies ck.fw`batches, ck.fw`pending, ck.fw`produced, ck.rwal, ck.rwal.ring
    ensures ck.ops == old(ck.ops) + Logged(schedule)
    ensures ck.remote.region.MaxInodes() > 0 && old(ck.rpos) <= |ck.rwal.log|
    ensures Promised(inode, id, ck.ops, old(ck.pos), c, ck.pos, old(ck.remote.deferred) + Arrived(ck.rwal.log[old(ck.rpos)..]),
                     ck.remote.region.MaxInodes(), ck.fw.self)
  {
    hide Linked, Chained, Partition, Indexed, View, Flat, PageOk, Log, ChainOk, LaneOk, Stands, OpOk, History, Outgoing, RingOk;
    hide Promised, StepBetween, Arrived, Logged, ck.Valid;
    ck.Bounds();
    ghost var trace;
    trace := ck.Run(schedule);
    ck.Bounds();
    RunKeepsPromise(trace, schedule, ck.ops, ck.rwal.log, ck.fw.self, ck.rwal.ring.Length, id, c);
    inode := ck.remote.region.ReadInode(id);
  }

  // ---- Inodes of other servers ----

  /** All changes for `id` that a log asks for. */
  ghost function ChangesFor(ops: seq<LogOp>, id: nat): seq<Change> {
    if ops == [] then [] else ChangesFor(ops[..|ops| - 1], id) + Keep(ChangesOf(ops[|ops| - 1]), Of(id))
  }

  lemma {:induction false} ForwardedAll(ops: seq<LogOp>, self: nat, t: nat, id: nat)
    requires Owner(id) == t != self
    ensures Keep(Outgoing(ops, self, t), Of(id)) == ChangesFor(ops, id)
  {
    hide Keep, ChangesOf, Owner;
    if ops == [] {
      KeepNone(Of(id));
    } else {
      var r, op := ops[..|ops| - 1], ops[|ops| - 1];
      ForwardedAll(r, self, t, id);
      KeepConcat(Outgoing(r, self, t), Sent(ChangesOf(op), self, t), Of(id));
      KeepTwice(ChangesOf(op), To(t), Of(id));
    }
  }

  function LastSet(cs: seq<Change>, mode: int): int {
    if cs == [] then mode
    else if cs[|cs| - 1].op.SetMode? then cs[|cs| - 1].value
    else LastSet(cs[..|cs| - 1], mode)
  }

  /** Version of the last change of the inode itself. */
  function LastTouch(cs: seq<Change>, version: nat): nat {
    if cs == [] then version
    else if !cs[|cs| - 1].op.BlocksDelta? then cs[|cs| - 1].version
    else LastTouch(cs[..|cs| - 1], version)
  }

  lemma AppendChange(cs: seq<Change>, e: Change, id: nat)
    ensures var more := cs + Keep([e], Of(id));
            && Steps(more) == Steps(cs) + (if e.inode == id then Sign(e) else [])
            && Total(more) == Total(cs) + (if e.inode == id && e.op.BlocksDelta? then e.value else 0)
            && (forall mode :: LastSet(more, mode) == if e.inode == id && e.op.SetMode? then e.value else LastSet(cs, mode))
            && (forall v :: LastTouch(more, v) == if e.inode == id && !e.op.BlocksDelta? then e.version else LastTouch(cs, v))
  {
    assert [e][..0] == [];
    if e.inode == id {
      assert Keep([e], Of(id)) == [e] && (cs + [e])[..|cs|] == cs;
      BatchAppend(cs, e);
    } else {
      assert Keep([e], Of(id)) == [] && cs + [] == cs && Steps(cs) + [] == Steps(cs);
    }
  }

  /** What a log asks for an inode, as a batch, says what its entries say: the same links and unlinks, the
      same last mode and stamp, and the children put minus those removed. */
  ghost predicate SaysTheSame(cs: seq<Change>, ops: seq<LogOp>, id: nat) {
    && Steps(cs) == EntrySteps(ops, id) && Total(cs) == Net(History(ops, id))
    && (forall mode: nat :: LastSet(cs, mode) == LastMode(ops, id, mode))
    && (forall v :: LastTouch(cs, v) == LastStamp(ops, id, v))
  }

  lemma SameStep(cs: seq<Change>, ops: seq<LogOp>, op: LogOp, id: nat)
    requires SaysTheSame(cs, ops, id)
    ensures SaysTheSame(cs + Keep(ChangesOf(op), Of(id)), ops + [op], id)
  {
    hide Steps, EntrySteps, Total, Net, History, LastSet, LastMode, LastTouch, LastStamp, Keep, CountChange, EventsOf;
    StoryAppend(ops, op, id);
    HistoryNext(ops, op, id);
    NetConcat(History(ops, id), EventsOf(op, id));
    NetOfOp(op, id);
    var es := ChangesOf(op);
    if es == [] {
      KeepNone(Of(id));
      CountNothing(id);
      assert cs + [] == cs && EntrySteps(ops, id) + [] == EntrySteps(ops, id);
    } else {
      AppendChange(cs, es[0], id);
      CountOne(es[0], id);
      if |es| == 1 {
        assert es == [es[0]];
      } else {
        assert es == [es[0]] + [es[1]] && es == [es[0], es[1]];
        KeepConcat([es[0]], [es[1]], Of(id));
        var mid := cs + Keep([es[0]], Of(id));
        AppendChange(mid, es[1], id);
        CountTwo(es[0], es[1], id);
        assert mid + Keep([es[1]], Of(id)) == cs + Keep(es, Of(id));
      }
      assert EntrySteps(ops, id) + [] == EntrySteps(ops, id);
    }
  }

  lemma CountNothing(id: nat)
    ensures CountChange([], id) == 0
  {
  }

  lemma {:induction false} SameForAll(ops: seq<LogOp>, id: nat)
    ensures SaysTheSame(ChangesFor(ops, id), ops, id)
  {
    hide SaysTheSame, Keep, ChangesOf;
    if ops == [] {
      SameNone(id);
    } else {
      var r, op := ops[..|ops| - 1], ops[|ops| - 1];
      SameForAll(r, id);
      SameStep(ChangesFor(r, id), r, op, id);
      assert ops == r + [op];
    }
  }

  lemma SameNone(id: nat)
    ensures SaysTheSame([], [], id)
  {
  }

  /** What a server forwards for an inode of server t tells that server all its own entries say about it. */
  lemma ForwardedStory(ops: seq<LogOp>, self: nat, t: nat, id: nat)
    requires Owner(id) == t != self
    ensures SaysTheSame(Keep(Outgoing(ops, self, t), Of(id)), ops, id)
  {
    hide SaysTheSame, Keep, Outgoing, Owner;
    ForwardedAll(ops, self, t, id);
    SameForAll(ops, id);
  }
}
