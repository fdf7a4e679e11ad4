/** CompactLogEntry: log records whose names spill into 56-byte continuation slots. */
module WalCodec {
  const INLINE_MAX: nat := 20
  const CONT_DATA: nat := 56
  const MAX_CONTS: nat := 3
  /** Longest name payload (for a rename: both names together) that three continuations hold. */
  const PAYLOAD_MAX: nat := INLINE_MAX + MAX_CONTS * CONT_DATA

  const READY_BIT: nat := 0x8000_0000
  const CONT_UNIT: nat := 0x2000_0000
  const OVERFLOW_MAGIC: nat := 0x4F56_4652

  /** EncodeSeq: ready bit, continuation count, local sequence number. */
  function EncodeSeq(localSeq: nat, conts: nat): nat {
    READY_BIT + conts * CONT_UNIT + localSeq
  }

  predicate IsReady(word: nat) { word / READY_BIT % 2 == 1 }
  function ContCount(word: nat): nat { word / CONT_UNIT % 4 }
  function LocalSeq(word: nat): nat { word % CONT_UNIT }

  /** The sequence word decodes to what was encoded, and neither a zeroed slot nor a
      continuation's magic can be taken for a published primary. */
  lemma SeqRoundTrip(localSeq: nat, conts: nat)
    requires localSeq < CONT_UNIT && conts <= MAX_CONTS
    ensures IsReady(EncodeSeq(localSeq, conts))
    ensures ContCount(EncodeSeq(localSeq, conts)) == conts && LocalSeq(EncodeSeq(localSeq, conts)) == localSeq
    ensures !IsReady(0) && !IsReady(OVERFLOW_MAGIC)
  {}

  datatype WalOp = Noop | Create | Unlink | Rename | Setattr | Link

  datatype Entry = Entry(op: WalOp, nameLen: nat, auxLen: nat, version: nat, inode: nat, parent: nat,
                         aux: nat, mode: nat, inlined: string)

  /** A record: its primary entry and the data of its continuation slots. */
  datatype Record = Record(entry: Entry, conts: seq<string>)

  function Min(a: nat, b: nat): nat { if a < b then a else b }

  // ── builders ──

  function MakeNamed(op: WalOp, inode: nat, parent: nat, mode: nat, aux: nat, auxLen: nat, name: string, version: nat): Entry {
    Entry(op, |name|, auxLen, version, inode, parent, aux, mode, name[..Min(|name|, INLINE_MAX)])
  }

  /** MakeRename: as much of the old name as fits inline, then as much of the new one. */
  function MakeRename(inode: nat, oldParent: nat, newParent: nat, oldName: string, newName: string, kind: nat, version: nat): Entry {
    var oldInline := Min(|oldName|, INLINE_MAX);
    var newInline := Min(|newName|, INLINE_MAX - oldInline);
    Entry(Rename, |oldName|, |newName|, version, inode, oldParent, newParent, kind,
          oldName[..oldInline] + newName[..newInline])
  }

  /** BuildOverflow / BuildRenameOverflow: what does not fit inline. */
  function Overflow(payload: string): string {
    if |payload| <= INLINE_MAX then "" else payload[INLINE_MAX..]
  }

  /** The zero-padded continuation slots AppendWithOverflow writes. */
  function Chunks(data: string): (cs: seq<string>)
    ensures |cs| == (|data| + CONT_DATA - 1) / CONT_DATA
    ensures forall i :: 0 <= i < |cs| ==> |cs[i]| == CONT_DATA
  {
    if data == "" then []
    else if |data| <= CONT_DATA then [data + seq(CONT_DATA - |data|, i => '\0')]
    else [data[..CONT_DATA]] + Chunks(data[CONT_DATA..])
  }

  function LogNamed(op: WalOp, inode: nat, parent: nat, mode: nat, aux: nat, auxLen: nat, name: string, version: nat): Record {
    Record(MakeNamed(op, inode, parent, mode, aux, auxLen, name, version), Chunks(Overflow(name)))
  }

  function LogRename(inode: nat, oldParent: nat, newParent: nat, oldName: string, newName: string, kind: nat, version: nat): Record {
    Record(MakeRename(inode, oldParent, newParent, oldName, newName, kind, version), Chunks(Overflow(oldName + newName)))
  }

  /** A record whose inline part and continuations carry `payload`. */
  ghost predicate Carries(r: Record, payload: string) {
    && |payload| <= PAYLOAD_MAX
    && r.entry.inlined == payload[..Min(|payload|, INLINE_MAX)]
    && r.conts == Chunks(Overflow(payload))
  }

  lemma RenameCarries(inode: nat, oldParent: nat, newParent: nat, oldName: string, newName: string, kind: nat, version: nat)
    requires |oldName| + |newName| <= PAYLOAD_MAX
    ensures Carries(LogRename(inode, oldParent, newParent, oldName, newName, kind, version), oldName + newName)
  {
    var p := oldName + newName;
    var o := Min(|oldName|, INLINE_MAX);
    var m := Min(|newName|, INLINE_MAX - o);
    assert p[..Min(|p|, INLINE_MAX)] == oldName[..o] + newName[..m];
  }

  // ── extraction ──

  /** Up to `remaining` bytes gathered from consecutive continuation slots. */
  function Gather(conts: seq<string>, remaining: nat): string
    requires forall i :: 0 <= i < |conts| ==> |conts[i]| == CONT_DATA
  {
    if conts == [] || remaining == 0 then ""
    else
      var n := Min(remaining, CONT_DATA);
      conts[0][..n] + Gather(conts[1..], remaining - n)
  }

  /** The concatenated name bytes of a record whose two length fields add up to `total`. */
  function Extract(r: Record, total: nat): string
    requires forall i :: 0 <= i < |r.conts| ==> |r.conts[i]| == CONT_DATA
    requires Min(total, INLINE_MAX) <= |r.entry.inlined|
  {
    var n := Min(total, INLINE_MAX);
    r.entry.inlined[..n] + Gather(r.conts, total - n)
  }

  lemma {:induction false} GatherChunks(data: string)
    ensures Gather(Chunks(data), |data|) == data
  {
    if data != "" {
      if |data| <= CONT_DATA {
        assert Chunks(data)[0][..|data|] == data;
        assert Gather(Chunks(data)[1..], 0) == "";
      } else {
        GatherChunks(data[CONT_DATA..]);
        assert Chunks(data)[1..] == Chunks(data[CONT_DATA..]);
        assert Chunks(data)[0][..CONT_DATA] == data[..CONT_DATA];
        assert data == data[..CONT_DATA] + data[CONT_DATA..];
      }
    }
  }

  lemma PayloadRoundTrip(r: Record, payload: string)
    requires Carries(r, payload)
    ensures Extract(r, |payload|) == payload && |r.conts| <= MAX_CONTS
  {
    var n := Min(|payload|, INLINE_MAX);
    GatherChunks(Overflow(payload));
    assert payload == payload[..n] + Overflow(payload);
    assert r.entry.inlined[..n] == payload[..n];
  }

  /** Every single-name record and every rename gives back exactly the names it was built from. */
  lemma NameRoundTrip(op: WalOp, inode: nat, parent: nat, mode: nat, aux: nat, auxLen: nat, name: string, version: nat)
    requires |name| <= PAYLOAD_MAX
    ensures var r := LogNamed(op, inode, parent, mode, aux, auxLen, name, version);
            |r.conts| <= MAX_CONTS && Extract(r, r.entry.nameLen) == name
  {
    PayloadRoundTrip(LogNamed(op, inode, parent, mode, aux, auxLen, name, version), name);
  }

  lemma RenameRoundTrip(inode: nat, oldParent: nat, newParent: nat, oldName: string, newName: string, kind: nat, version: nat)
    requires |oldName| + |newName| <= PAYLOAD_MAX
    ensures var r := LogRename(inode, oldParent, newParent, oldName, newName, kind, version);
            && |r.conts| <= MAX_CONTS && |r.entry.inlined| == Min(r.entry.nameLen + r.entry.auxLen, INLINE_MAX)
            && var full := Extract(r, r.entry.nameLen + r.entry.auxLen);
               |full| == |oldName| + |newName| && full[..r.entry.nameLen] == oldName && full[r.entry.nameLen..] == newName
  {
    var r := LogRename(inode, oldParent, newParent, oldName, newName, kind, version);
    RenameCarries(inode, oldParent, newParent, oldName, newName, kind, version);
    PayloadRoundTrip(r, oldName + newName);
  }
}
