/** The logical content of a published WAL record and the directory events it stands for. */
module WalEvents {
  import opened DentRegions

  const DT_UNKNOWN: nat := 0

  datatype LogOp =
    | Create(inode: nat, parent: nat, mode: nat, uid: nat, gid: nat, kind: nat, name: string, version: nat)
    | Unlink(inode: nat, parent: nat, name: string, version: nat)
    | Rename(inode: nat, parent: nat, newParent: nat, name: string, newName: string, kind: nat, version: nat)
    | Setattr(inode: nat, mode: nat, version: nat)
    | Link(inode: nat, parent: nat, name: string, kind: nat, version: nat)

  /** The events a record adds to directory `d`: a rename within one directory adds two. */
  function EventsOf(op: LogOp, d: nat): seq<Dent> {
    match op
    case Create(inode, parent, _, _, _, kind, name, v) => if parent == d then [Dent(inode, v, kind, false, name)] else []
    case Unlink(inode, parent, name, v) => if parent == d then [Dent(inode, v, DT_UNKNOWN, true, name)] else []
    case Rename(inode, parent, newParent, name, newName, kind, v) =>
      (if parent == d then [Dent(inode, v, DT_UNKNOWN, true, name)] else [])
      + (if newParent == d then [Dent(inode, v, kind, false, newName)] else [])
    case Setattr(_, _, _) => []
    case Link(inode, parent, name, kind, v) => if parent == d then [Dent(inode, v, kind, false, name)] else []
  }

  /** All events of a log for one directory, in log order. */
  function History(ops: seq<LogOp>, d: nat): seq<Dent> {
    if ops == [] then [] else History(ops[..|ops| - 1], d) + EventsOf(ops[|ops| - 1], d)
  }

  lemma HistoryNext(ops: seq<LogOp>, op: LogOp, d: nat)
    ensures History(ops + [op], d) == History(ops, d) + EventsOf(op, d)
  {
    assert (ops + [op])[..|ops|] == ops;
  }

  lemma {:induction false} HistoryAppend(a: seq<LogOp>, b: seq<LogOp>, d: nat)
    ensures History(a + b, d) == History(a, d) + History(b, d)
  {
    hide History, EventsOf;
    if b == [] {
      assert a + b == a;
      HistoryNone(d);
    } else {
      var r, op := b[..|b| - 1], b[|b| - 1];
      assert b == r + [op] && a + b == (a + r) + [op];
      HistoryAppend(a, r, d);
      HistoryNext(a + r, op, d);
      HistoryNext(r, op, d);
    }
  }

  lemma HistoryNone(d: nat)
    ensures History([], d) == []
  {
  }

  /** A log overlapping itself by what was replayed but not yet cleared adds no event. */
  lemma HistoryOverlap(ops: seq<LogOp>, d: nat, cleared: nat, replayed: nat)
    requires cleared <= replayed <= |ops|
    ensures Elems(History(ops[..replayed], d)) + Elems(History(ops[cleared..], d)) == Elems(History(ops, d))
  {
    hide History;
    var a, b, c := ops[..cleared], ops[cleared..replayed], ops[replayed..];
    assert ops[..replayed] == a + b && ops[cleared..] == b + c && ops == a + (b + c);
    HistoryAppend(a, b, d);
    HistoryAppend(b, c, d);
    HistoryAppend(a, b + c, d);
  }

  lemma {:induction false} HistoryMember(ops: seq<LogOp>, d: nat, e: Dent)
    ensures e in History(ops, d) <==> exists i :: 0 <= i < |ops| && e in EventsOf(ops[i], d)
  {
    hide EventsOf;
    if ops != [] {
      var r, op := ops[..|ops| - 1], ops[|ops| - 1];
      HistoryMember(r, d, e);
      if i :| 0 <= i < |r| && e in EventsOf(r[i], d) {
        assert e in EventsOf(ops[i], d);
      }
    }
  }

  /** Every record has its own version. */
  ghost predicate VersionsApart(ops: seq<LogOp>) {
    forall i, j :: 0 <= i < j < |ops| ==> ops[i].version != ops[j].version
  }

  /** A rename of a name onto itself, which adds a tombstone and a put with one version. */
  predicate SelfRename(op: LogOp, d: nat) {
    op.Rename? && op.parent == d && op.newParent == d && op.name == op.newName
  }

  /** Every self-rename up to the cutoff is outdone by a newer event of its name up to the cutoff. */
  ghost predicate Settled(ops: seq<LogOp>, d: nat, cutoff: nat) {
    forall op :: op in ops && SelfRename(op, d) && op.version <= cutoff ==> Outdone(ops, d, cutoff, op.name, op.version)
  }

  ghost predicate Outdone(ops: seq<LogOp>, d: nat, cutoff: nat, name: string, version: nat) {
    exists e :: e in History(ops, d) && e.name == name && version < e.version <= cutoff
  }

  lemma OneRecord(op: LogOp, d: nat, a: Dent, b: Dent)
    requires a in EventsOf(op, d)
    ensures a.version == op.version
    ensures b in EventsOf(op, d) && a != b && a.name == b.name ==> SelfRename(op, d) && op.name == a.name
  {
  }

  /** Only a self-rename gives one name two events of one version. */
  lemma TieIsSelfRename(ops: seq<LogOp>, d: nat, a: Dent, b: Dent) returns (op: LogOp)
    requires VersionsApart(ops) && a in History(ops, d) && b in History(ops, d)
    requires a != b && a.name == b.name && a.version == b.version
    ensures op in ops && SelfRename(op, d) && op.name == a.name && op.version == a.version
  {
    hide History, EventsOf;
    HistoryMember(ops, d, a);
    HistoryMember(ops, d, b);
    var i :| 0 <= i < |ops| && a in EventsOf(ops[i], d);
    var j :| 0 <= j < |ops| && b in EventsOf(ops[j], d);
    OneRecord(ops[j], d, b, b);
    OneRecord(ops[i], d, a, b);
    assert i == j;
    op := ops[i];
  }

  lemma SelfRenameTies(ops: seq<LogOp>, d: nat, op: LogOp) returns (a: Dent, b: Dent)
    requires op in ops && SelfRename(op, d)
    ensures a in History(ops, d) && b in History(ops, d) && a != b
    ensures a.name == b.name == op.name && a.version == b.version == op.version
  {
    a, b := Dent(op.inode, op.version, DT_UNKNOWN, true, op.name), Dent(op.inode, op.version, op.kind, false, op.name);
    var i :| 0 <= i < |ops| && ops[i] == op;
    HistoryMember(ops, d, a);
    HistoryMember(ops, d, b);
    assert EventsOf(op, d) == [a, b];
    assert a in EventsOf(ops[i], d) && b in EventsOf(ops[i], d);
  }
}
