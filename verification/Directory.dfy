/** What a directory contains, by the meaning of the log entries alone: names bound to inodes. */
module Directories {
  import opened DentRegions
  import opened WalEvents

  /** What a name stands for. */
  datatype Target = Target(inode: nat, kind: nat)

  type Bindings = map<string, Target>

  /** One entry's effect on directory d.  A rename takes the old name away before it sets the new one. */
  function Bind(m: Bindings, op: LogOp, d: nat): Bindings {
    match op
    case Create(inode, parent, _, _, _, kind, name, _) => if parent == d then m[name := Target(inode, kind)] else m
    case Unlink(_, parent, name, _) => if parent == d then m - {name} else m
    case Rename(inode, parent, newParent, name, newName, kind, _) =>
      var gone := if parent == d then m - {name} else m;
      if newParent == d then gone[newName := Target(inode, kind)] else gone
    case Setattr(_, _, _) => m
    case Link(inode, parent, name, kind, _) => if parent == d then m[name := Target(inode, kind)] else m
  }

  /** The directory after the entries, one after the other. */
  function Contents(ops: seq<LogOp>, d: nat): Bindings {
    if ops == [] then map[] else Bind(Contents(ops[..|ops| - 1], d), ops[|ops| - 1], d)
  }

  // ---- All servers' entries in version order ----

  function Insert(s: seq<LogOp>, op: LogOp): seq<LogOp> {
    if s == [] || s[|s| - 1].version <= op.version then s + [op]
    else Insert(s[..|s| - 1], op) + [s[|s| - 1]]
  }

  function ByVersion(s: seq<LogOp>): seq<LogOp> {
    if s == [] then [] else Insert(ByVersion(s[..|s| - 1]), s[|s| - 1])
  }

  function OpsUpTo(ops: seq<LogOp>, cutoff: nat): seq<LogOp> {
    if ops == [] then []
    else OpsUpTo(ops[..|ops| - 1], cutoff) + if ops[|ops| - 1].version <= cutoff then [ops[|ops| - 1]] else []
  }

  function Join(logs: seq<seq<LogOp>>): seq<LogOp> {
    if logs == [] then [] else Join(logs[..|logs| - 1]) + logs[|logs| - 1]
  }

  /** The entries of all logs up to the cutoff, in version order. */
  function InOrder(logs: seq<seq<LogOp>>, cutoff: nat): seq<LogOp> {
    ByVersion(OpsUpTo(Join(logs), cutoff))
  }

  ghost predicate Increasing(s: seq<LogOp>) {
    forall i, j :: 0 <= i < j < |s| ==> s[i].version < s[j].version
  }

  lemma {:induction false} InsertMember(s: seq<LogOp>, op: LogOp, x: LogOp)
    ensures x in Insert(s, op) <==> x == op || x in s
  {
    if s != [] && s[|s| - 1].version > op.version {
      InsertMember(s[..|s| - 1], op, x);
      assert s == s[..|s| - 1] + [s[|s| - 1]];
    }
  }

  lemma {:induction false} InsertIncreasing(s: seq<LogOp>, op: LogOp)
    requires Increasing(s) && forall x :: x in s ==> x.version != op.version
    ensures Increasing(Insert(s, op))
  {
    if s != [] {
      var n := |s| - 1;
      assert s[n] in s;
      if s[n].version > op.version {
        InsertIncreasing(s[..n], op);
        var t := Insert(s[..n], op);
        forall i | 0 <= i < |t| ensures t[i].version < s[n].version {
          InsertMember(s[..n], op, t[i]);
        }
      }
    }
  }

  lemma {:induction false} ByVersionMember(s: seq<LogOp>, x: LogOp)
    ensures x in ByVersion(s) <==> x in s
  {
    if s != [] {
      var n := |s| - 1;
      ByVersionMember(s[..n], x);
      InsertMember(ByVersion(s[..n]), s[n], x);
      assert s == s[..n] + [s[n]];
    }
  }

  lemma {:induction false} ByVersionIncreasing(s: seq<LogOp>)
    requires VersionsApart(s)
    ensures Increasing(ByVersion(s))
  {
    if s != [] {
      var n := |s| - 1;
      ByVersionIncreasing(s[..n]);
      forall x | x in ByVersion(s[..n]) ensures x.version != s[n].version {
        ByVersionMember(s[..n], x);
      }
      InsertIncreasing(ByVersion(s[..n]), s[n]);
    }
  }

  lemma {:induction false} OpsUpToMember(ops: seq<LogOp>, cutoff: nat, x: LogOp)
    ensures x in OpsUpTo(ops, cutoff) <==> x in ops && x.version <= cutoff
  {
    if ops != [] {
      OpsUpToMember(ops[..|ops| - 1], cutoff, x);
      assert ops == ops[..|ops| - 1] + [ops[|ops| - 1]];
    }
  }

  lemma {:induction false} OpsUpToApart(ops: seq<LogOp>, cutoff: nat)
    requires VersionsApart(ops)
    ensures VersionsApart(OpsUpTo(ops, cutoff))
  {
    if ops != [] {
      var n := |ops| - 1;
      OpsUpToApart(ops[..n], cutoff);
      forall x | x in OpsUpTo(ops[..n], cutoff) ensures x.version != ops[n].version {
        OpsUpToMember(ops[..n], cutoff, x);
      }
      var r := OpsUpTo(ops[..n], cutoff);
      assert forall i :: 0 <= i < |r| ==> r[i] in r;
    }
  }

  lemma {:induction false} JoinMember(logs: seq<seq<LogOp>>, x: LogOp)
    ensures x in Join(logs) <==> exists m :: 0 <= m < |logs| && x in logs[m]
  {
    if logs != [] {
      var n := |logs| - 1;
      JoinMember(logs[..n], x);
      if m :| 0 <= m < n && x in logs[..n][m] {
        assert x in logs[m];
      }
    }
  }

  /** No version occurs twice, in one log or in two. */
  ghost predicate Unique(logs: seq<seq<LogOp>>) {
    && (forall m :: 0 <= m < |logs| ==> VersionsApart(logs[m]))
    && (forall m, k, a, b :: 0 <= m < k < |logs| && a in logs[m] && b in logs[k] ==> a.version != b.version)
  }

  lemma {:induction false} JoinApart(logs: seq<seq<LogOp>>)
    requires Unique(logs)
    ensures VersionsApart(Join(logs))
  {
    if logs != [] {
      var n := |logs| - 1;
      JoinApart(logs[..n]);
      var r, l := Join(logs[..n]), logs[n];
      forall i, j | 0 <= i < |r| && 0 <= j < |l| ensures r[i].version != l[j].version {
        JoinMember(logs[..n], r[i]);
        assert r[i] in r && l[j] in l;
        var m :| 0 <= m < n && r[i] in logs[..n][m];
        assert r[i] in logs[m];
      }
    }
  }

  lemma InOrderMember(logs: seq<seq<LogOp>>, cutoff: nat, x: LogOp)
    ensures x in InOrder(logs, cutoff) <==> x.version <= cutoff && exists m :: 0 <= m < |logs| && x in logs[m]
  {
    hide Join, OpsUpTo, ByVersion;
    JoinMember(logs, x);
    OpsUpToMember(Join(logs), cutoff, x);
    ByVersionMember(OpsUpTo(Join(logs), cutoff), x);
  }

  /** The order is total: every entry once, versions strictly increasing. */
  lemma InOrderIncreasing(logs: seq<seq<LogOp>>, cutoff: nat)
    requires Unique(logs)
    ensures Increasing(InOrder(logs, cutoff))
  {
    hide Join, OpsUpTo, ByVersion, Unique, VersionsApart, Increasing;
    JoinApart(logs);
    OpsUpToApart(Join(logs), cutoff);
    ByVersionIncreasing(OpsUpTo(Join(logs), cutoff));
  }

  // ---- Events mean what entries mean ----

  /** An event as a change of the directory. */
  function Play(m: Bindings, e: Dent): Bindings {
    if e.tomb then m - {e.name} else m[e.name := Target(e.inode, e.kind)]
  }

  function PlayAll(m: Bindings, evs: seq<Dent>): Bindings {
    if evs == [] then m else Play(PlayAll(m, evs[..|evs| - 1]), evs[|evs| - 1])
  }

  lemma PlayFew(m: Bindings, a: Dent, b: Dent)
    ensures PlayAll(m, [a]) == Play(m, a) && PlayAll(m, [a, b]) == Play(Play(m, a), b)
  {
    assert [a, b][..1] == [a] && [a][..0] == [];
  }

  /** The events of an entry, played in order, are the entry. */
  lemma EventsMean(m: Bindings, op: LogOp, d: nat)
    ensures PlayAll(m, EventsOf(op, d)) == Bind(m, op, d)
  {
    var evs := EventsOf(op, d);
    if |evs| > 0 {
      PlayFew(m, evs[0], evs[|evs| - 1]);
      assert |evs| == 2 ==> evs == [evs[0], evs[1]];
      assert |evs| == 1 ==> evs == [evs[0]];
    }
  }

  lemma {:induction false} PlayConcat(m: Bindings, a: seq<Dent>, b: seq<Dent>)
    ensures PlayAll(m, a + b) == PlayAll(PlayAll(m, a), b)
  {
    if b == [] {
      assert a + b == a;
    } else {
      PlayConcat(m, a, b[..|b| - 1]);
      assert (a + b)[..|a + b| - 1] == a + b[..|b| - 1];
    }
  }

  lemma {:induction false} HistoryMeans(ops: seq<LogOp>, d: nat)
    ensures PlayAll(map[], History(ops, d)) == Contents(ops, d)
  {
    hide EventsOf, Bind;
    if ops != [] {
      var r, op := ops[..|ops| - 1], ops[|ops| - 1];
      HistoryMeans(r, d);
      PlayConcat(map[], History(r, d), EventsOf(op, d));
      EventsMean(Contents(r, d), op, d);
    }
  }

  // ---- The newest event of a name ----

  /** `d` is an event of highest version for its name. */
  ghost predicate Top(d: Dent, evs: set<Dent>) {
    d in evs && forall e :: e in evs && e.name == d.name ==> e.version <= d.version
  }

  /** Events of earlier entries are older. */
  lemma Older(r: seq<LogOp>, op: LogOp, d: nat, e: Dent)
    requires Increasing(r + [op]) && e in History(r, d)
    ensures e.version < op.version
  {
    hide EventsOf, History;
    HistoryMember(r, d, e);
    var i :| 0 <= i < |r| && e in EventsOf(r[i], d);
    OneRecord(r[i], d, e, e);
    assert (r + [op])[i].version < (r + [op])[|r|].version;
  }

  /** The directory at a name, and the entry's last event for it. */
  lemma LastEvent(m: Bindings, op: LogOp, d: nat, n: string) returns (found: bool, e: Dent)
    ensures found ==> e in EventsOf(op, d) && e.name == n && e.version == op.version
    ensures !found ==> (n in Bind(m, op, d) <==> n in m) && (n in m ==> Bind(m, op, d)[n] == m[n])
    ensures !found ==> forall x :: x in EventsOf(op, d) ==> x.name != n
    ensures found ==> (e.tomb <==> n !in Bind(m, op, d)) && (!e.tomb ==> Bind(m, op, d)[n] == Target(e.inode, e.kind))
  {
    var evs := EventsOf(op, d);
    found, e := false, Dent(0, 0, 0, false, "");
    if |evs| > 0 && evs[|evs| - 1].name == n {
      found, e := true, evs[|evs| - 1];
    } else if |evs| > 1 && evs[0].name == n {
      found, e := true, evs[0];
    }
  }

  /** After entries in version order, a name is bound exactly if its newest event is a put, to what that
      event says. */
  lemma {:induction false} Newest(s: seq<LogOp>, d: nat, n: string) returns (found: bool, e: Dent)
    requires Increasing(s)
    ensures !found ==> n !in Contents(s, d) && forall x :: x in History(s, d) ==> x.name != n
    ensures found ==> Top(e, Elems(History(s, d))) && e.name == n && (e.tomb <==> n !in Contents(s, d))
    ensures found && !e.tomb ==> Contents(s, d)[n] == Target(e.inode, e.kind)
  {
    hide EventsOf, Bind;
    found, e := false, Dent(0, 0, 0, false, "");
    if s != [] {
      var r, op := s[..|s| - 1], s[|s| - 1];
      assert s == r + [op] && History(s, d) == History(r, d) + EventsOf(op, d);
      found, e := LastEvent(Contents(r, d), op, d, n);
      if found {
        forall x | x in History(s, d) ensures x.version <= e.version {
          if x in History(r, d) {
            Older(r, op, d, x);
          } else {
            OneRecord(op, d, x, x);
          }
        }
      } else {
        found, e := Newest(r, d, n);
      }
    }
  }
}
