/** The logical entries of the log and the records that hold them in the ring. */
module WalDecoding {
  import opened WalEvents
  import opened Checkpoints
  import WalCodec
  import WalRing

  const WORD: nat := 0x1_0000_0000

  /** The fields of a record are wide enough, and three continuations hold the names. */
  predicate Fits(op: LogOp) {
    && (op.Create? ==> op.uid < WORD && op.gid < WORD)
    && (op.Create? || op.Setattr? ==> op.mode < WORD)
    && (op.Create? || op.Rename? || op.Link? ==> op.kind < 256)
    && |Names(op)| <= WalCodec.PAYLOAD_MAX
  }

  function Names(op: LogOp): string {
    if op.Setattr? then "" else if op.Rename? then op.name + op.newName else op.name
  }

  /** LogCreate, LogUnlink, LogRename, LogSetattr and LogLink. */
  function Encode(op: LogOp): WalCodec.Record {
    match op
    case Create(inode, parent, mode, uid, gid, kind, name, v) =>
      WalCodec.LogNamed(WalCodec.Create, inode, parent, mode, uid * WORD + gid, kind, name, v)
    case Unlink(inode, parent, name, v) => WalCodec.LogNamed(WalCodec.Unlink, inode, parent, 0, 0, 0, name, v)
    case Rename(inode, parent, newParent, name, newName, kind, v) => WalCodec.LogRename(inode, parent, newParent, name, newName, kind, v)
    case Setattr(inode, mode, v) => WalCodec.LogNamed(WalCodec.Setattr, inode, 0, mode, 0, 0, "", v)
    case Link(inode, parent, name, kind, v) => WalCodec.LogNamed(WalCodec.Link, inode, parent, kind, 0, 0, name, v)
  }

  /** Length of a record's name bytes. */
  function Total(e: WalCodec.Entry): nat {
    if e.op.Rename? then e.nameLen + e.auxLen else e.nameLen
  }

  /** What the replay and the listing read out of a primary and its name bytes; a no-op is skipped. */
  function Decode(e: WalCodec.Entry, full: string): seq<LogOp>
    requires |full| == Total(e)
  {
    match e.op
    case Noop => []
    case Create => [Create(e.inode, e.parent, e.mode, e.aux / WORD, e.aux % WORD, e.auxLen, full, e.version)]
    case Unlink => [Unlink(e.inode, e.parent, full, e.version)]
    case Rename => [Rename(e.inode, e.parent, e.aux, full[..e.nameLen], full[e.nameLen..], e.mode % 256, e.version)]
    case Setattr => [Setattr(e.inode, e.mode, e.version)]
    case Link => [Link(e.inode, e.parent, full, e.mode % 256, e.version)]
  }

  lemma DecodeEncode(op: LogOp)
    requires Fits(op)
    ensures var r := Encode(op);
            && WalCodec.Carries(r, Names(op)) && Total(r.entry) == |Names(op)|
            && Decode(r.entry, Names(op)) == [op]
  {
    hide WalCodec.Chunks;
    if op.Create? {
      UnpackAux(op.uid, op.gid);
    } else if op.Rename? {
      WalCodec.RenameCarries(op.inode, op.parent, op.newParent, op.name, op.newName, op.kind, op.version);
    }
  }

  lemma UnpackAux(hi: nat, lo: nat)
    requires lo < WORD
    ensures (hi * WORD + lo) / WORD == hi && (hi * WORD + lo) % WORD == lo
  {
  }

  /** The ring holds the records of `all`, published or not. */
  ghost predicate Holds(r: WalRing.Ring, all: seq<LogOp>) {
    |all| == |r.log| && forall i :: 0 <= i < |all| ==> Fits(all[i]) && r.log[i].rec == Encode(all[i])
  }

  function FirstUnpublished(log: seq<WalRing.Append>): (k: nat)
    ensures k <= |log| && (forall i :: 0 <= i < k ==> log[i].published) && (k < |log| ==> !log[k].published)
  {
    if log == [] || !log[0].published then 0 else 1 + FirstUnpublished(log[1..])
  }

  /** The readable entries: those before the first unpublished record. */
  ghost function Readable(r: WalRing.Ring, all: seq<LogOp>): seq<LogOp>
    requires Holds(r, all)
  {
    all[..FirstUnpublished(r.log)]
  }

  /** How one step moves the published marks. */
  lemma MarksStep(r: WalRing.Ring, s: WalRing.Step)
    requires WalRing.Inv(r) && WalRing.Enabled(r, s) && (s.Checkpoint? ==> r.cp <= WalRing.PosOf(r, s.k))
    ensures 0 < r.cap == |r.slots|
    ensures var r' := WalRing.Next(r, s);
            && |r.log| <= |r'.log| && r.done <= r'.done <= |r.log|
            && (forall i :: 0 <= i < |r.log| && r.log[i].published ==> r'.log[i].published)
            && (!s.Publish? ==> forall i :: 0 <= i < |r.log| ==> r'.log[i].published == r.log[i].published)
            && (forall i :: |r.log| <= i < |r'.log| ==> !r'.log[i].published)
            && (forall i :: 0 <= i < r'.done ==> r'.log[i].published)
  {
    hide WalRing.Tiled, WalRing.LiveAt, WalRing.FreeAt, WalRing.Cleared, WalRing.AppendOk, WalRing.Put;
  }

  /** Whatever the appenders and the checkpointer do, readable entries stay readable and in place, and
      the checkpoint never passes an entry that is not readable. */
  lemma ReadableGrows(r: WalRing.Ring, s: WalRing.Step, all: seq<LogOp>, all': seq<LogOp>)
    requires WalRing.Inv(r) && WalRing.Enabled(r, s) && Holds(r, all) && all <= all'
    requires s.Checkpoint? ==> r.cp <= WalRing.PosOf(r, s.k)
    requires Holds(WalRing.Next(r, s), all')
    ensures var r' := WalRing.Next(r, s);
            && Readable(r, all) <= Readable(r', all') && r.done <= r'.done <= |Readable(r', all')|
            && (!s.Publish? ==> Readable(r', all') == Readable(r, all))
  {
    hide WalRing.Inv, WalRing.Enabled, WalRing.Next, WalRing.PosOf, Encode, Fits, FirstUnpublished;
    MarksStep(r, s);
    var r' := WalRing.Next(r, s);
    var k, k' := FirstUnpublished(r.log), FirstUnpublished(r'.log);
    assert k <= k' && r'.done <= k';
    if !s.Publish? {
      assert k < |r'.log| ==> !r'.log[k].published;
    }
  }

  /** The ring under a checkpointer: its log is what is readable, and the cleared part agrees. */
  ghost predicate Backs(r: WalRing.Ring, all: seq<LogOp>, c: Checkpointer)
    reads c
  {
    WalRing.Inv(r) && Holds(r, all) && c.ops == Readable(r, all) && c.cp == r.done
  }

  /** Every record takes at least one slot. */
  lemma {:induction false} SlotsEnough(r: WalRing.Ring, i: nat)
    requires WalRing.Inv(r) && r.done <= i <= |r.log|
    ensures WalRing.PosOf(r, i) >= r.cp + i - r.done
  {
    hide WalRing.LiveAt, WalRing.FreeAt;
    if i > r.done {
      SlotsEnough(r, i - 1);
      assert WalRing.Adjacent(r, i - 1);
    }
  }

  lemma ScanEnds(r: WalRing.Ring, end: nat)
    requires WalRing.Inv(r) && r.done <= end <= |r.log| && forall i :: r.done <= i < end ==> r.log[i].published
    requires end < |r.log| ==> !r.log[end].published
    ensures end == FirstUnpublished(r.log)
  {
    hide WalRing.LiveAt, WalRing.FreeAt, WalRing.Tiled;
  }

  lemma RingBounds(r: WalRing.Ring)
    requires WalRing.Inv(r)
    ensures r.cp <= r.head && r.done <= |r.log| && r.cp == WalRing.PosOf(r, r.done)
    ensures |r.log| - r.done <= r.head - r.cp
  {
    hide WalRing.LiveAt, WalRing.FreeAt;
    SlotsEnough(r, |r.log|);
  }

  lemma WalOf(c: Checkpointer)
    requires c.Valid()
    ensures c.cp <= |c.ops| && c.wal == c.ops[c.cp..]
  {
    hide History, Outgoing, OpOk;
  }

  /** Scanning the ring from the checkpoint and extracting every name gives the checkpointer's `wal`. */
  method ReadWal(r: WalRing.Ring, c: Checkpointer, ghost all: seq<LogOp>) returns (wal: seq<LogOp>)
    requires c.Valid() && Backs(r, all, c)
    ensures wal == c.wal
  {
    hide Encode, Fits, Decode, Names, Total, WalCodec.Carries, OpOk, WalRing.Inv, Checkpointer.Valid;
    RingBounds(r);
    ghost var i0 := r.done;
    var found, pos := WalRing.Scan(r, r.cp, r.head - r.cp + 1, i0);
    wal := [];
    for j := 0 to |found|
      invariant wal == all[i0..i0 + j]
    {
      ghost var i := i0 + j;
      assert WalRing.Reports(r, i, found[j]);
      DecodeEncode(all[i]);
      var e := found[j].1;
      var full := WalRing.ExtractWalPayload(r, found[j].0, Total(e), i, Names(all[i]));
      wal := wal + Decode(e, full);
    }
    forall i | i0 <= i < i0 + |found| ensures r.log[i].published {
      assert WalRing.Reports(r, i0 + (i - i0), found[i - i0]);
    }
    ScanEnds(r, i0 + |found|);
    WalOf(c);
  }
}
