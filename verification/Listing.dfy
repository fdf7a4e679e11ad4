/** Directory listing: CollectPersistentDentViews on every server, then the client's
    k-way merge in LoadMergedDirents. */
module Listing {
  import opened DentRegions
  import opened WalEvents
  import opened Directories

  // ── strcmp ──

  /** strcmp(a, b) < 0 */
  predicate Less(a: string, b: string) {
    b != "" && (a == "" || a[0] < b[0] || (a[0] == b[0] && Less(a[1..], b[1..])))
  }

  /** The order by the first character that differs, a proper prefix first. */
  ghost predicate Precedes(a: string, b: string, k: nat) {
    k <= |a| && k < |b| && a[..k] == b[..k] && (k == |a| || a[k] < b[k])
  }

  lemma SameStart(a: string, b: string, k: nat)
    requires Precedes(a, b, k)
    ensures k == 0 || (a != "" && a[0] == b[0])
  {
    if k > 0 {
      assert a[..k][0] == b[..k][0];
    }
  }

  lemma LessMeans(a: string, b: string)
    ensures Less(a, b) <==> exists k: nat :: Precedes(a, b, k)
  {
    if a == "" || b == "" || a[0] != b[0] {
      if k: nat :| Precedes(a, b, k) {
        SameStart(a, b, k);
      }
      assert Less(a, b) ==> Precedes(a, b, 0);
    } else {
      LessMeans(a[1..], b[1..]);
      if k: nat :| Precedes(a[1..], b[1..], k) {
        assert a[..k + 1] == [a[0]] + a[1..][..k] && b[..k + 1] == [b[0]] + b[1..][..k];
        assert Precedes(a, b, k + 1);
      }
      if k: nat :| Precedes(a, b, k) {
        assert k > 0;
        assert a[1..][..k - 1] == a[..k][1..] && b[1..][..k - 1] == b[..k][1..];
        assert Precedes(a[1..], b[1..], k - 1);
      }
    }
  }

  lemma LessTotal(a: string, b: string)
    ensures a == b || Less(a, b) || Less(b, a)
    ensures !(Less(a, b) && Less(b, a)) && !Less(a, a)
  {
    if a != "" && b != "" && a[0] == b[0] {
      LessTotal(a[1..], b[1..]);
      assert a == [a[0]] + a[1..] && b == [b[0]] + b[1..];
    }
    if a != "" {
      LessTotal(a[1..], a[1..]);
    }
  }

  lemma LessTrans(a: string, b: string, c: string)
    requires Less(a, b) && Less(b, c)
    ensures Less(a, c)
  {
    if a != "" && a[0] == b[0] == c[0] {
      LessTrans(a[1..], b[1..], c[1..]);
    }
  }

  // ── server side: sort and dedup ──

  /** The sort order: name ascending, then version descending. */
  predicate Before(a: Dent, b: Dent) {
    Less(a.name, b.name) || (a.name == b.name && a.version >= b.version)
  }

  predicate Sorted(s: seq<Dent>) {
    forall i, j :: 0 <= i < j < |s| ==> Before(s[i], s[j])
  }

  function Insert(s: seq<Dent>, d: Dent): seq<Dent> {
    if s == [] then [d]
    else if Before(d, s[0]) then [d] + s
    else [s[0]] + Insert(s[1..], d)
  }

  lemma BeforeTotal(a: Dent, b: Dent)
    ensures Before(a, b) || Before(b, a)
  {
    LessTotal(a.name, b.name);
  }

  lemma BeforeTrans(a: Dent, b: Dent, c: Dent)
    requires Before(a, b) && Before(b, c)
    ensures Before(a, c)
  {
    if Less(a.name, b.name) && Less(b.name, c.name) {
      LessTrans(a.name, b.name, c.name);
    }
  }

  lemma {:induction false} InsertItems(s: seq<Dent>, d: Dent)
    ensures multiset(Insert(s, d)) == multiset(s) + multiset{d}
  {
    hide Before;
    if s != [] {
      assert s == [s[0]] + s[1..];
      if !Before(d, s[0]) {
        InsertItems(s[1..], d);
      }
    }
  }

  lemma {:induction false} InsertMember(s: seq<Dent>, d: Dent, x: Dent)
    ensures x in Insert(s, d) <==> x == d || x in s
  {
    hide Before;
    if s != [] {
      assert s == [s[0]] + s[1..];
      if !Before(d, s[0]) {
        InsertMember(s[1..], d, x);
      }
    }
  }

  lemma {:induction false} InsertSorted(s: seq<Dent>, d: Dent)
    requires Sorted(s)
    ensures Sorted(Insert(s, d))
  {
    hide Before;
    if s != [] {
      if Before(d, s[0]) {
        forall j | 0 <= j < |s| ensures Before(d, s[j]) {
          if j > 0 { BeforeTrans(d, s[0], s[j]); }
        }
      } else {
        InsertSorted(s[1..], d);
        BeforeTotal(d, s[0]);
        var t := Insert(s[1..], d);
        forall j | 0 <= j < |t| ensures Before(s[0], t[j]) {
          InsertMember(s[1..], d, t[j]);
        }
      }
    }
  }

  /** std::sort with the comparison of CollectPersistentDentViews. */
  method SortViews(s: seq<Dent>) returns (r: seq<Dent>)
    ensures Sorted(r) && multiset(r) == multiset(s)
  {
    r := [];
    for i := 0 to |s|
      invariant Sorted(r) && multiset(r) == multiset(s[..i])
    {
      InsertSorted(r, s[i]);
      InsertItems(r, s[i]);
      r := Insert(r, s[i]);
      assert s[..i + 1] == s[..i] + [s[i]];
    }
    assert s[..|s|] == s;
  }

  predicate Ascending(s: seq<Dent>) {
    forall i, j :: 0 <= i < j < |s| ==> Less(s[i].name, s[j].name)
  }

  /** For every name among `evs` exactly one entry, of highest version, in name order. */
  ghost predicate Winners(entries: seq<Dent>, evs: set<Dent>) {
    && Ascending(entries)
    && (forall i :: 0 <= i < |entries| ==> entries[i] in evs)
    && (forall e :: e in evs ==> Covered(entries, e))
  }

  /** Some entry has the event's name and at least its version. */
  ghost predicate Covered(entries: seq<Dent>, e: Dent) {
    exists i :: 0 <= i < |entries| && entries[i].name == e.name && e.version <= entries[i].version
  }

  lemma LastLess(s: seq<Dent>, i: nat, entries: seq<Dent>)
    requires Sorted(s) && 0 < i < |s| && Ascending(entries) && |entries| > 0
    requires entries[|entries| - 1].name == s[i - 1].name != s[i].name
    ensures Ascending(entries + [s[i]])
  {
    hide Less;
    assert Before(s[i - 1], s[i]);
    forall j | 0 <= j < |entries| ensures Less(entries[j].name, s[i].name) {
      if j < |entries| - 1 {
        LessTrans(entries[j].name, entries[|entries| - 1].name, s[i].name);
      }
    }
  }

  lemma LastWins(s: seq<Dent>, i: nat, entries: seq<Dent>)
    requires Sorted(s) && i < |s| && |entries| > 0 && entries[|entries| - 1] in Elems(s[..i])
    requires entries[|entries| - 1].name == s[i].name
    ensures s[i].version <= entries[|entries| - 1].version
  {
    hide Less;
    var k :| 0 <= k < i && s[..i][k] == entries[|entries| - 1];
    assert Before(s[k], s[i]);
    LessTotal(s[i].name, s[i].name);
  }

  lemma CoveredMore(entries: seq<Dent>, d: Dent, evs: set<Dent>)
    requires forall e :: e in evs ==> Covered(entries, e)
    ensures forall e :: e in evs ==> Covered(entries + [d], e)
    ensures Covered(entries + [d], d)
  {
    var more := entries + [d];
    assert more[|entries|] == d;
    forall e | e in evs ensures Covered(more, e) {
      assert Covered(entries, e);
      var i :| 0 <= i < |entries| && entries[i].name == e.name && e.version <= entries[i].version;
      assert more[i] == entries[i];
    }
  }

  /** What the dedup has after the first i records. */
  ghost predicate Deduped(entries: seq<Dent>, s: seq<Dent>, i: nat)
    requires i <= |s|
  {
    && Winners(entries, Elems(s[..i]))
    && (|entries| > 0 <==> i > 0)
    && (i > 0 ==> entries[|entries| - 1].name == s[i - 1].name)
  }

  lemma DedupStep(entries: seq<Dent>, s: seq<Dent>, i: nat)
    requires Sorted(s) && i < |s| && Deduped(entries, s, i)
    ensures if entries == [] || s[i].name != entries[|entries| - 1].name then Deduped(entries + [s[i]], s, i + 1)
            else Deduped(entries, s, i + 1)
  {
    hide Sorted, Less, Ascending, Covered;
    var view := s[i];
    assert Elems(s[..i + 1]) == Elems(s[..i]) + {view} by { assert s[..i + 1] == s[..i] + [view]; }
    if entries == [] || view.name != entries[|entries| - 1].name {
      if entries != [] {
        LastLess(s, i, entries);
      } else {
        NoneAscending();
        assert entries + [view] == [view];
      }
      CoveredMore(entries, view, Elems(s[..i]));
    } else {
      LastWins(s, i, entries);
      CoveredByLast(entries, view);
    }
  }

  lemma DedupStart(s: seq<Dent>)
    ensures Deduped([], s, 0)
  {
  }

  /** The linear dedup: the first record of each name wins. */
  method Dedup(s: seq<Dent>) returns (entries: seq<Dent>)
    requires Sorted(s)
    ensures Winners(entries, Elems(s))
  {
    hide Sorted, Winners;
    entries := [];
    DedupStart(s);
    for i := 0 to |s|
      invariant Deduped(entries, s, i)
    {
      DedupStep(entries, s, i);
      if entries == [] || s[i].name != entries[|entries| - 1].name {
        entries := entries + [s[i]];
      }
    }
    assert s[..|s|] == s;
  }

  lemma {:induction false} DedupForm(s: seq<Dent>, i: nat) returns (entries: seq<Dent>)
    requires Sorted(s) && i <= |s|
    ensures Deduped(entries, s, i)
  {
    hide Sorted, Deduped;
    if i == 0 {
      DedupStart(s);
      entries := [];
    } else {
      entries := DedupForm(s, i - 1);
      DedupStep(entries, s, i - 1);
      if entries == [] || s[i - 1].name != entries[|entries| - 1].name {
        entries := entries + [s[i - 1]];
      }
    }
  }

  lemma {:induction false} SortedForm(s: seq<Dent>) returns (r: seq<Dent>)
    ensures Sorted(r) && multiset(r) == multiset(s)
  {
    hide Before;
    if s == [] {
      r := [];
    } else {
      var n := |s| - 1;
      var t := SortedForm(s[..n]);
      InsertSorted(t, s[n]);
      InsertItems(t, s[n]);
      r := Insert(t, s[n]);
      assert s == s[..n] + [s[n]];
    }
  }

  /** Every collection of events has a listing. */
  lemma WinnersExist(s: seq<Dent>) returns (entries: seq<Dent>)
    ensures Winners(entries, Elems(s))
  {
    hide Sorted, Winners;
    var r := SortedForm(s);
    entries := DedupForm(r, |r|);
    assert r[..|r|] == r;
    ElemsEq(r, s);
  }

  lemma NoneAscending()
    ensures Ascending([]) && forall d :: Ascending([d])
  {}

  lemma CoveredByLast(entries: seq<Dent>, d: Dent)
    requires |entries| > 0 && entries[|entries| - 1].name == d.name && d.version <= entries[|entries| - 1].version
    ensures Covered(entries, d)
  {}

  /** The WAL-tail scan: every event of the directory up to the cutoff, as push_view adds them. */
  method ScanTail(tail: seq<LogOp>, dir: nat, cutoff: nat) returns (views: seq<Dent>)
    ensures views == UpTo(History(tail, dir), cutoff)
    ensures PlayAll(map[], views) == Contents(OpsUpTo(tail, cutoff), dir)
  {
    hide History, UpTo, PlayAll, Contents, OpsUpTo;
    views := [];
    TailStart(dir, cutoff);
    for i := 0 to |tail|
      invariant views == UpTo(History(tail[..i], dir), cutoff)
    {
      var op := tail[i];
      assert tail[..i + 1][..i] == tail[..i];
      TailStep(tail[..i + 1], dir, cutoff);
      match op {
        case Create(inode, parent, _, _, _, kind, name, v) =>
          if v <= cutoff && parent == dir {
            views := views + [Dent(inode, v, kind, false, name)];
          }
        case Unlink(inode, parent, name, v) =>
          if v <= cutoff && parent == dir {
            views := views + [Dent(inode, v, DT_UNKNOWN, true, name)];
          }
        case Rename(inode, parent, newParent, name, newName, kind, v) =>
          var oldMatch, newMatch := v <= cutoff && parent == dir, v <= cutoff && newParent == dir;
          if oldMatch {
            views := views + [Dent(inode, v, DT_UNKNOWN, true, name)];
          }
          if newMatch {
            views := views + [Dent(inode, v, kind, false, newName)];
          }
        case Setattr(_, _, _) =>
        case Link(inode, parent, name, kind, v) =>
          if v <= cutoff && parent == dir {
            views := views + [Dent(inode, v, kind, false, name)];
          }
      }
    }
    assert tail[..|tail|] == tail;
    TailMeans(tail, dir, cutoff);
  }

  /** Cutting the events and cutting the entries is the same. */
  lemma {:induction false} CutOps(ops: seq<LogOp>, dir: nat, cutoff: nat)
    ensures UpTo(History(ops, dir), cutoff) == History(OpsUpTo(ops, cutoff), dir)
  {
    hide History, UpTo, EventsOf;
    if ops == [] {
      TailStart(dir, cutoff);
      HistoryNone(dir);
    } else {
      var r, op := ops[..|ops| - 1], ops[|ops| - 1];
      CutOps(r, dir, cutoff);
      TailStep(ops, dir, cutoff);
      HistoryNext(OpsUpTo(r, cutoff), op, dir);
      assert OpsUpTo(r, cutoff) + [] == OpsUpTo(r, cutoff) && History(OpsUpTo(r, cutoff), dir) + [] == History(OpsUpTo(r, cutoff), dir);
    }
  }

  lemma TailMeans(tail: seq<LogOp>, dir: nat, cutoff: nat)
    ensures PlayAll(map[], UpTo(History(tail, dir), cutoff)) == Contents(OpsUpTo(tail, cutoff), dir)
  {
    hide History, UpTo, PlayAll, Contents, OpsUpTo;
    CutOps(tail, dir, cutoff);
    HistoryMeans(OpsUpTo(tail, cutoff), dir);
  }

  lemma TailStart(dir: nat, cutoff: nat)
    ensures forall tail: seq<LogOp> :: |tail| == 0 ==> UpTo(History(tail, dir), cutoff) == []
  {}

  /** The events of one record that pass the cutoff. */
  lemma TailStep(tail: seq<LogOp>, dir: nat, cutoff: nat)
    requires |tail| > 0
    ensures var op := tail[|tail| - 1];
            UpTo(History(tail, dir), cutoff)
            == UpTo(History(tail[..|tail| - 1], dir), cutoff) + if op.version <= cutoff then EventsOf(op, dir) else []
  {
    var op := tail[|tail| - 1];
    UpToAppend(History(tail[..|tail| - 1], dir), EventsOf(op, dir), cutoff);
    UpToUniform(EventsOf(op, dir), op.version, cutoff);
  }

  lemma UpToUniform(evs: seq<Dent>, v: nat, cutoff: nat)
    requires forall i :: 0 <= i < |evs| ==> evs[i].version == v
    ensures UpTo(evs, cutoff) == if v <= cutoff then evs else []
  {
    if evs != [] {
      UpToUniform(evs[..|evs| - 1], v, cutoff);
      assert evs == evs[..|evs| - 1] + [evs[|evs| - 1]];
    }
  }

  /** CollectPersistentDentViews.  `ops` is the server's whole log; its region holds the
      events of the first `replayed` records, of which only the first `cleared` are gone from
      the WAL, so that those between appear twice.  The reply has, in name order, one highest-version entry for every name of the
      server's whole history up to the cutoff, tombstones included. */
  method CollectDentViews(region: DentRegion, dir: nat, cutoff: nat, wal: seq<LogOp>, ghost ops: seq<LogOp>, ghost cleared: nat, ghost replayed: nat)
    returns (entries: seq<Dent>)
    requires region.Valid() && cleared <= replayed <= |ops| && wal == ops[cleared..]
    requires region.Events(dir) == History(ops[..replayed], dir)
    ensures Winners(entries, Elems(UpTo(History(ops, dir), cutoff)))
    ensures VersionsApart(ops) && Settled(ops, dir, cutoff) ==> Binds(entries, Contents(InOrder([ops], cutoff), dir))
  {
    hide History, UpTo, Sorted, Winners, Binds, Contents, InOrder, Settled, VersionsApart, PlayAll, OpsUpTo;
    var flat := region.ReadDirLatestFlat(dir, cutoff);
    var tail := ScanTail(wal, dir, cutoff);
    var sorted := SortViews(flat + tail);
    entries := Dedup(sorted);
    ElemsEq(sorted, flat + tail);
    ElemsEq(flat, UpTo(region.Events(dir), cutoff));
    CutOverlap(ops, dir, cleared, replayed, cutoff);
    assert Elems(flat + tail) == Elems(flat) + Elems(tail);
    if VersionsApart(ops) && Settled(ops, dir, cutoff) {
      CollectedBinds(entries, ops, dir, cutoff);
    }
  }

  lemma ElemsEq(a: seq<Dent>, b: seq<Dent>)
    requires multiset(a) == multiset(b)
    ensures Elems(a) == Elems(b)
  {
    forall d ensures d in a <==> d in b {
      assert d in multiset(a) <==> d in multiset(b);
    }
  }

  lemma {:induction false} UpToMember(log: seq<Dent>, cutoff: nat, d: Dent)
    ensures d in UpTo(log, cutoff) <==> d in log && d.version <= cutoff
  {
    if log != [] {
      UpToMember(log[..|log| - 1], cutoff, d);
      assert log == log[..|log| - 1] + [log[|log| - 1]];
    }
  }

  lemma CutOverlap(ops: seq<LogOp>, d: nat, cleared: nat, replayed: nat, cutoff: nat)
    requires cleared <= replayed <= |ops|
    ensures Elems(UpTo(History(ops[..replayed], d), cutoff)) + Elems(UpTo(History(ops[cleared..], d), cutoff))
            == Elems(UpTo(History(ops, d), cutoff))
  {
    hide History, UpTo;
    var a, b, c := History(ops[..replayed], d), History(ops[cleared..], d), History(ops, d);
    HistoryOverlap(ops, d, cleared, replayed);
    var left, right := Elems(UpTo(a, cutoff)) + Elems(UpTo(b, cutoff)), Elems(UpTo(c, cutoff));
    forall x ensures x in left <==> x in right {
      UpToMember(a, cutoff, x);
      UpToMember(b, cutoff, x);
      UpToMember(c, cutoff, x);
      assert x in Elems(c) <==> x in Elems(a) || x in Elems(b);
    }
  }

  // ── client side: k-way merge ──

  /** In strictly increasing name order, exactly the highest-version events that are puts. */
  ghost predicate Visible(out: seq<Dent>, evs: set<Dent>) {
    Ascending(out) && forall d :: d in out <==> Top(d, evs) && !d.tomb
  }

  /** Two events of one name and version are the same event. */
  ghost predicate Consistent(evs: set<Dent>) {
    forall a, b :: a in evs && b in evs && a.name == b.name && a.version == b.version ==> a == b
  }

  ghost predicate CursorsOk(streams: seq<seq<Dent>>, cur: seq<nat>) {
    && |cur| == |streams|
    && (forall m :: 0 <= m < |streams| ==> cur[m] <= |streams[m]| && Ascending(streams[m]))
  }

  /** The records the cursors have passed. */
  ghost function Taken(streams: seq<seq<Dent>>, cur: seq<nat>): set<Dent>
    requires CursorsOk(streams, cur)
  {
    set m, i | 0 <= m < |streams| && 0 <= i < cur[m] :: streams[m][i]
  }

  /** Every passed name is smaller than every name still ahead. */
  ghost predicate Ahead(streams: seq<seq<Dent>>, cur: seq<nat>)
    requires CursorsOk(streams, cur)
  {
    forall d, m, i :: d in Taken(streams, cur) && 0 <= m < |streams| && cur[m] <= i < |streams[m]| ==>
                        Less(d.name, streams[m][i].name)
  }

  predicate Valid(streams: seq<seq<Dent>>, cur: seq<nat>, m: int)
    requires |cur| == |streams|
  {
    0 <= m < |streams| && cur[m] < |streams[m]|
  }

  /** First inner loop: the cursor with the smallest name, or -1. */
  method MinCursor(streams: seq<seq<Dent>>, cur: seq<nat>) returns (k: int)
    requires CursorsOk(streams, cur)
    ensures k == -1 ==> forall m :: 0 <= m < |streams| ==> !Valid(streams, cur, m)
    ensures k != -1 ==> Valid(streams, cur, k)
    ensures k != -1 ==> forall m :: Valid(streams, cur, m) ==> !Less(streams[m][cur[m]].name, streams[k][cur[k]].name)
  {
    hide Less, Ascending;
    k := -1;
    for i := 0 to |streams|
      invariant k == -1 ==> forall m :: 0 <= m < i ==> !Valid(streams, cur, m)
      invariant k != -1 ==> Valid(streams, cur, k)
      invariant k != -1 ==> forall m :: 0 <= m < i && Valid(streams, cur, m) ==> !Less(streams[m][cur[m]].name, streams[k][cur[k]].name)
    {
      if Valid(streams, cur, i) {
        if k < 0 || Less(streams[i][cur[i]].name, streams[k][cur[k]].name) {
          forall m | 0 <= m <= i && Valid(streams, cur, m) ensures !Less(streams[m][cur[m]].name, streams[i][cur[i]].name) {
            LessTotal(streams[i][cur[i]].name, streams[i][cur[i]].name);
            if m < i {
              NotLessTrans(streams[m][cur[m]].name, streams[k][cur[k]].name, streams[i][cur[i]].name);
            }
          }
          k := i;
        }
      }
    }
  }

  lemma NotLessTrans(a: string, b: string, c: string)
    requires !Less(a, b) && Less(c, b)
    ensures !Less(a, c)
  {
    LessTotal(a, b);
    if Less(a, c) {
      LessTrans(a, c, b);
    }
  }

  /** The records under the cursors that carry name `n`. */
  ghost function Batch(streams: seq<seq<Dent>>, cur: seq<nat>, n: string): set<Dent>
    requires |cur| == |streams|
  {
    set m | 0 <= m < |streams| && Valid(streams, cur, m) && streams[m][cur[m]].name == n :: streams[m][cur[m]]
  }

  /** Second inner loop: the highest version among the cursors on the smallest name. */
  method Winner(streams: seq<seq<Dent>>, cur: seq<nat>, k: nat) returns (w: Dent)
    requires CursorsOk(streams, cur) && Valid(streams, cur, k)
    ensures Top(w, Batch(streams, cur, streams[k][cur[k]].name))
  {
    hide Less, Ascending;
    w := streams[k][cur[k]];
    for i := 0 to |streams|
      invariant w in Batch(streams, cur, streams[k][cur[k]].name)
      invariant w.version >= streams[k][cur[k]].version
      invariant forall m :: 0 <= m < i && Valid(streams, cur, m) && streams[m][cur[m]].name == w.name ==> streams[m][cur[m]].version <= w.version
    {
      if i != k && Valid(streams, cur, i) {
        var v := streams[i][cur[i]];
        if v.name == w.name && v.version > w.version {
          w := v;
        }
      }
    }
  }

  ghost predicate Moved(streams: seq<seq<Dent>>, cur: seq<nat>, next: seq<nat>, n: string)
    requires |cur| == |streams|
  {
    && |next| == |cur|
    && forall m :: 0 <= m < |cur| ==> next[m] == if Valid(streams, cur, m) && streams[m][cur[m]].name == n then cur[m] + 1 else cur[m]
  }

  /** Third inner loop: advance every cursor that sits on the name. */
  method Advance(streams: seq<seq<Dent>>, cur: seq<nat>, n: string) returns (next: seq<nat>)
    requires CursorsOk(streams, cur)
    ensures Moved(streams, cur, next, n)
  {
    next := cur;
    for i := 0 to |streams|
      invariant |next| == |cur|
      invariant forall m :: 0 <= m < i ==> next[m] == if Valid(streams, cur, m) && streams[m][cur[m]].name == n then cur[m] + 1 else cur[m]
      invariant forall m :: i <= m < |cur| ==> next[m] == cur[m]
    {
      if Valid(streams, cur, i) && streams[i][cur[i]].name == n {
        next := next[i := next[i] + 1];
      }
    }
  }

  lemma TakenStep(streams: seq<seq<Dent>>, cur: seq<nat>, next: seq<nat>, n: string)
    requires CursorsOk(streams, cur) && Moved(streams, cur, next, n)
    ensures CursorsOk(streams, next) && Taken(streams, next) == Taken(streams, cur) + Batch(streams, cur, n)
  {
    hide Less, Ascending;
    assert CursorsOk(streams, next);
    forall d | d in Taken(streams, next) ensures d in Taken(streams, cur) + Batch(streams, cur, n) {
      var m, i :| 0 <= m < |streams| && 0 <= i < next[m] && streams[m][i] == d;
      if i >= cur[m] {
        assert i == cur[m];
      }
    }
    forall d | d in Taken(streams, cur) ensures d in Taken(streams, next) {
      var m, i :| 0 <= m < |streams| && 0 <= i < cur[m] && streams[m][i] == d;
      assert i < next[m];
    }
    forall d | d in Batch(streams, cur, n) ensures d in Taken(streams, next) {
      var m :| 0 <= m < |streams| && Valid(streams, cur, m) && streams[m][cur[m]].name == n && streams[m][cur[m]] == d;
      assert cur[m] < next[m];
    }
  }

  /** Passing the smallest name keeps passed names below the rest. */
  lemma AheadStep(streams: seq<seq<Dent>>, cur: seq<nat>, next: seq<nat>, k: nat)
    requires CursorsOk(streams, cur) && Ahead(streams, cur) && Valid(streams, cur, k)
    requires Moved(streams, cur, next, streams[k][cur[k]].name) && CursorsOk(streams, next)
    requires forall m :: Valid(streams, cur, m) ==> !Less(streams[m][cur[m]].name, streams[k][cur[k]].name)
    requires Taken(streams, next) == Taken(streams, cur) + Batch(streams, cur, streams[k][cur[k]].name)
    ensures Ahead(streams, next)
  {
    hide Less, Taken;
    var n := streams[k][cur[k]].name;
    forall d, m, i | d in Taken(streams, next) && 0 <= m < |streams| && next[m] <= i < |streams[m]|
      ensures Less(d.name, streams[m][i].name)
    {
      if d !in Taken(streams, cur) {
        assert d.name == n;
        assert Valid(streams, cur, m);
        LessTotal(streams[m][cur[m]].name, n);
        if i > cur[m] {
          assert Less(streams[m][cur[m]].name, streams[m][i].name);
          if streams[m][cur[m]].name != n {
            LessTrans(n, streams[m][cur[m]].name, streams[m][i].name);
          }
        }
      }
    }
  }

  /** Deciding a batch of one new name extends the visible listing by at most its winner. */
  lemma VisibleStep(out: seq<Dent>, taken: set<Dent>, batch: set<Dent>, w: Dent, n: string)
    requires Visible(out, taken) && Top(w, batch) && Consistent(taken + batch)
    requires forall d :: d in batch ==> d.name == n
    requires forall d :: d in taken ==> Less(d.name, n)
    ensures Visible(if w.tomb then out else out + [w], taken + batch)
  {
    hide Less;
    LessTotal(n, n);
    var all := taken + batch;
    forall d ensures Top(d, all) <==> Top(d, taken) || d == w {
      if d in batch {
        assert d !in taken;
        if Top(d, all) {
          assert w.version <= d.version && d.version <= w.version;
        }
      }
    }
    assert w !in out;
    if !w.tomb {
      forall i | 0 <= i < |out| ensures Less(out[i].name, w.name) {
        assert out[i] in out;
      }
    }
  }

  /** Records still ahead of the cursors. */
  function Left(streams: seq<seq<Dent>>, cur: seq<nat>): nat
    requires |cur| == |streams| && forall m :: 0 <= m < |streams| ==> cur[m] <= |streams[m]|
  {
    if streams == [] then 0
    else
      var n := |streams| - 1;
      Left(streams[..n], cur[..n]) + (|streams[n]| - cur[n])
  }

  lemma {:induction false} LeftDrops(streams: seq<seq<Dent>>, cur: seq<nat>, next: seq<nat>)
    requires |cur| == |next| == |streams|
    requires forall m :: 0 <= m < |streams| ==> cur[m] <= next[m] <= |streams[m]|
    ensures Left(streams, next) <= Left(streams, cur)
    ensures (exists m :: 0 <= m < |streams| && cur[m] < next[m]) ==> Left(streams, next) < Left(streams, cur)
  {
    if streams != [] {
      var n := |streams| - 1;
      LeftDrops(streams[..n], cur[..n], next[..n]);
      if m :| 0 <= m < |streams| && cur[m] < next[m] {
        assert m < n ==> cur[..n][m] < next[..n][m];
      }
    }
  }

  /** All records of all streams. */
  ghost function Records(streams: seq<seq<Dent>>): set<Dent> {
    set m, i | 0 <= m < |streams| && 0 <= i < |streams[m]| :: streams[m][i]
  }

  /** One iteration of the merge loop. */
  lemma MergeStep(streams: seq<seq<Dent>>, cur: seq<nat>, next: seq<nat>, k: nat, w: Dent, out: seq<Dent>)
    requires CursorsOk(streams, cur) && Ahead(streams, cur) && Valid(streams, cur, k)
    requires forall m :: Valid(streams, cur, m) ==> !Less(streams[m][cur[m]].name, streams[k][cur[k]].name)
    requires Top(w, Batch(streams, cur, streams[k][cur[k]].name)) && Moved(streams, cur, next, streams[k][cur[k]].name)
    requires Consistent(Records(streams)) && Visible(out, Taken(streams, cur))
    ensures CursorsOk(streams, next) && Ahead(streams, next) && Left(streams, next) < Left(streams, cur)
    ensures Visible(if w.tomb then out else out + [w], Taken(streams, next))
  {
    hide Less, Ascending, Left, Visible, Taken, Ahead;
    var n := streams[k][cur[k]].name;
    TakenStep(streams, cur, next, n);
    AheadStep(streams, cur, next, k);
    TakenInside(streams, next);
    HeadLess(streams, cur, k);
    VisibleStep(out, Taken(streams, cur), Batch(streams, cur, n), w, n);
    assert cur[k] < next[k];
    LeftDrops(streams, cur, next);
  }

  lemma WinnerName(streams: seq<seq<Dent>>, cur: seq<nat>, n: string, w: Dent)
    requires |cur| == |streams| && Top(w, Batch(streams, cur, n))
    ensures w.name == n
  {}

  /** The merge loop of LoadMergedDirents. */
  method Merge(streams: seq<seq<Dent>>) returns (out: seq<Dent>)
    requires forall m :: 0 <= m < |streams| ==> Ascending(streams[m])
    requires Consistent(Records(streams))
    ensures Visible(out, Records(streams))
  {
    hide Less, Ascending, Left, Visible, Taken, Ahead, Records, Consistent, Batch, Top, Moved;
    out := [];
    var cur := seq(|streams|, m => 0);
    MergeStart(streams, cur);
    while true
      invariant CursorsOk(streams, cur) && Ahead(streams, cur)
      invariant Visible(out, Taken(streams, cur))
      decreases Left(streams, cur)
    {
      var k := MinCursor(streams, cur);
      if k < 0 {
        break;
      }
      var w := Winner(streams, cur, k);
      WinnerName(streams, cur, streams[k][cur[k]].name, w);
      var next := Advance(streams, cur, w.name);
      MergeStep(streams, cur, next, k, w, out);
      if !w.tomb {
        out := out + [w];
      }
      cur := next;
    }
    AllTaken(streams, cur);
  }

  lemma MergeStart(streams: seq<seq<Dent>>, cur: seq<nat>)
    requires CursorsOk(streams, cur) && forall m :: 0 <= m < |cur| ==> cur[m] == 0
    ensures Taken(streams, cur) == {} && Ahead(streams, cur) && Visible([], {})
  {}

  lemma TakenInside(streams: seq<seq<Dent>>, cur: seq<nat>)
    requires CursorsOk(streams, cur)
    ensures Taken(streams, cur) <= Records(streams)
  {
    hide Less, Ascending;
  }

  lemma HeadLess(streams: seq<seq<Dent>>, cur: seq<nat>, k: nat)
    requires CursorsOk(streams, cur) && Ahead(streams, cur) && Valid(streams, cur, k)
    ensures forall d :: d in Taken(streams, cur) ==> Less(d.name, streams[k][cur[k]].name)
  {
    hide Less, Ascending;
  }

  lemma AllTaken(streams: seq<seq<Dent>>, cur: seq<nat>)
    requires CursorsOk(streams, cur) && forall m :: 0 <= m < |streams| ==> !Valid(streams, cur, m)
    ensures Taken(streams, cur) == Records(streams)
  {
    hide Less, Ascending;
    forall m, i | 0 <= m < |streams| && 0 <= i < |streams[m]| ensures streams[m][i] in Taken(streams, cur) {
      assert !Valid(streams, cur, m);
    }
  }

  // ── the whole listing ──

  ghost function Union(evs: seq<set<Dent>>): set<Dent> {
    set m, d | 0 <= m < |evs| && d in evs[m] :: d
  }

  /** For every name only one event has the highest version. */
  ghost predicate Decided(evs: set<Dent>) {
    forall a, b :: Top(a, evs) && Top(b, evs) && a.name == b.name ==> a == b
  }

  /** No version occurs on two servers. */
  ghost predicate Foreign(evs: seq<set<Dent>>) {
    forall m, k, a, b :: 0 <= m < k < |evs| && a in evs[m] && b in evs[k] ==> a.version != b.version
  }

  lemma WinnerIsTop(l: seq<Dent>, evs: set<Dent>, i: nat)
    requires Winners(l, evs) && i < |l|
    ensures Top(l[i], evs)
  {
    hide Less;
    forall e | e in evs && e.name == l[i].name ensures e.version <= l[i].version {
      assert Covered(l, e);
      var j :| 0 <= j < |l| && l[j].name == e.name && e.version <= l[j].version;
      NameOnce(l, i, j);
    }
  }

  lemma NameOnce(l: seq<Dent>, i: nat, j: nat)
    requires Ascending(l) && i < |l| && j < |l| && l[i].name == l[j].name
    ensures i == j
  {
    hide Less;
    LessTotal(l[i].name, l[i].name);
  }

  lemma {:induction false} AscendingUnique(a: seq<Dent>, b: seq<Dent>)
    requires Ascending(a) && Ascending(b) && forall d :: d in a <==> d in b
    ensures a == b
  {
    hide Ascending;
    BothEmpty(a, b);
    if a != [] {
      SameLast(a, b);
      var r, t := a[..|a| - 1], b[..|b| - 1];
      forall d ensures d in r <==> d in t {
        LastOnce(a, d);
        LastOnce(b, d);
      }
      AscendingInit(a);
      AscendingInit(b);
      AscendingUnique(r, t);
      assert a == r + [a[|a| - 1]] && b == t + [b[|b| - 1]];
    }
  }

  lemma BothEmpty(a: seq<Dent>, b: seq<Dent>)
    requires forall d :: d in a <==> d in b
    ensures a == [] <==> b == []
  {
    if a != [] {
      assert a[0] in a;
    }
    if b != [] {
      assert b[0] in b;
    }
  }

  lemma AscendingInit(a: seq<Dent>)
    requires Ascending(a) && a != []
    ensures Ascending(a[..|a| - 1])
  {
  }

  lemma LastOnce(a: seq<Dent>, d: Dent)
    requires Ascending(a) && a != []
    ensures d in a[..|a| - 1] <==> d in a && d != a[|a| - 1]
  {
    hide Less;
    var n := |a| - 1;
    assert a == a[..n] + [a[n]];
    if d in a[..n] {
      var i :| 0 <= i < n && a[i] == d;
      LessTotal(d.name, d.name);
    }
  }

  lemma SameLast(a: seq<Dent>, b: seq<Dent>)
    requires Ascending(a) && Ascending(b) && a != [] && b != [] && forall d :: d in a <==> d in b
    ensures a[|a| - 1] == b[|b| - 1]
  {
    hide Less;
    var x, y := a[|a| - 1], b[|b| - 1];
    assert x in b && y in a;
    var i :| 0 <= i < |b| && b[i] == x;
    var j :| 0 <= j < |a| && a[j] == y;
    if x != y {
      LessTrans(x.name, y.name, x.name);
      LessTotal(x.name, x.name);
    }
  }

  /** A decided set of events has only one listing. */
  lemma WinnersUnique(a: seq<Dent>, b: seq<Dent>, evs: set<Dent>)
    requires Winners(a, evs) && Winners(b, evs) && Decided(evs)
    ensures a == b
  {
    hide Less, Ascending;
    forall d | d in a ensures d in b { WinnerInOther(a, b, evs, d); }
    forall d | d in b ensures d in a { WinnerInOther(b, a, evs, d); }
    AscendingUnique(a, b);
  }

  lemma WinnerInOther(a: seq<Dent>, b: seq<Dent>, evs: set<Dent>, d: Dent)
    requires Winners(a, evs) && Winners(b, evs) && Decided(evs) && d in a
    ensures d in b
  {
    hide Less, Ascending;
    var i :| 0 <= i < |a| && a[i] == d;
    WinnerIsTop(a, evs, i);
    assert Covered(b, d);
    var j :| 0 <= j < |b| && b[j].name == d.name && d.version <= b[j].version;
    WinnerIsTop(b, evs, j);
  }

  lemma SameNames(a: seq<Dent>, b: seq<Dent>)
    requires Ascending(a) && |a| == |b| && forall i :: 0 <= i < |a| ==> a[i].name == b[i].name
    ensures Ascending(b)
  {
    hide Less;
  }

  lemma Replaced(l: seq<Dent>, evs: set<Dent>, i: nat, x: Dent)
    requires Winners(l, evs) && i < |l| && Top(x, evs) && l[i].name == x.name
    ensures Winners(l[i := x], evs)
  {
    hide Ascending, Covered;
    var other := l[i := x];
    SameNames(l, other);
    forall e | e in evs ensures Covered(other, e) {
      CoveredStill(l, evs, i, x, e);
    }
  }

  /** And only then: a tie at the top gives a second listing. */
  lemma TwoListings(l: seq<Dent>, evs: set<Dent>) returns (other: seq<Dent>)
    requires Winners(l, evs) && !Decided(evs)
    ensures Winners(other, evs) && other != l
  {
    hide Ascending, Top;
    var a, b :| Top(a, evs) && Top(b, evs) && a.name == b.name && a != b;
    var i := CoverOf(l, evs, a);
    var x := if l[i] == a then b else a;
    Replaced(l, evs, i, x);
    other := l[i := x];
    assert other[i] != l[i];
  }

  lemma CoverOf(l: seq<Dent>, evs: set<Dent>, a: Dent) returns (i: nat)
    requires Winners(l, evs) && Top(a, evs)
    ensures i < |l| && l[i].name == a.name
  {
    hide Ascending;
    assert Covered(l, a);
    i :| 0 <= i < |l| && l[i].name == a.name && a.version <= l[i].version;
  }

  lemma CoveredStill(l: seq<Dent>, evs: set<Dent>, i: nat, x: Dent, e: Dent)
    requires i < |l| && Top(x, evs) && l[i].name == x.name && e in evs && Covered(l, e)
    ensures Covered(l[i := x], e)
  {
    var j :| 0 <= j < |l| && l[j].name == e.name && e.version <= l[j].version;
    var other := l[i := x];
    assert other[j].name == e.name && e.version <= other[j].version;
  }

  lemma NotTied(ops: seq<LogOp>, d: nat, cutoff: nat, a: Dent, b: Dent)
    requires VersionsApart(ops) && Settled(ops, d, cutoff)
    requires var evs := Elems(UpTo(History(ops, d), cutoff)); Top(a, evs) && Top(b, evs)
    requires a.name == b.name
    ensures a == b
  {
    hide History, UpTo, VersionsApart;
    var h := History(ops, d);
    UpToMember(h, cutoff, a);
    UpToMember(h, cutoff, b);
    if a != b {
      var op := TieIsSelfRename(ops, d, a, b);
      assert Outdone(ops, d, cutoff, op.name, op.version);
      var e :| e in h && e.name == op.name && op.version < e.version <= cutoff;
      UpToMember(h, cutoff, e);
    }
  }

  lemma Tied(ops: seq<LogOp>, d: nat, cutoff: nat, op: LogOp)
    requires op in ops && SelfRename(op, d) && op.version <= cutoff && !Outdone(ops, d, cutoff, op.name, op.version)
    ensures !Decided(Elems(UpTo(History(ops, d), cutoff)))
  {
    hide History, UpTo;
    var h := History(ops, d);
    var evs := Elems(UpTo(h, cutoff));
    var a, b := SelfRenameTies(ops, d, op);
    UpToMember(h, cutoff, a);
    UpToMember(h, cutoff, b);
    forall e | e in evs && e.name == op.name ensures e.version <= op.version {
      UpToMember(h, cutoff, e);
    }
    assert Top(a, evs) && Top(b, evs);
  }

  /** In terms of the log: the listing is decided if and only if every self-rename is outdone. */
  lemma DecidedIff(ops: seq<LogOp>, d: nat, cutoff: nat)
    requires VersionsApart(ops)
    ensures Decided(Elems(UpTo(History(ops, d), cutoff))) <==> Settled(ops, d, cutoff)
  {
    hide History, UpTo, VersionsApart;
    var evs := Elems(UpTo(History(ops, d), cutoff));
    if Settled(ops, d, cutoff) {
      forall a, b | Top(a, evs) && Top(b, evs) && a.name == b.name ensures a == b {
        NotTied(ops, d, cutoff, a, b);
      }
    } else {
      var op :| op in ops && SelfRename(op, d) && op.version <= cutoff && !Outdone(ops, d, cutoff, op.name, op.version);
      Tied(ops, d, cutoff, op);
    }
  }

  lemma InUnion(evs: seq<set<Dent>>, m: nat, d: Dent)
    requires m < |evs| && d in evs[m]
    ensures d in Union(evs)
  {
  }

  /** Every event is outdone by, or is, a record of its server's winners. */
  lemma RecordFor(streams: seq<seq<Dent>>, evs: seq<set<Dent>>, e: Dent) returns (r: Dent)
    requires |streams| == |evs| && forall m :: 0 <= m < |evs| ==> Winners(streams[m], evs[m]) && Decided(evs[m])
    requires e in Union(evs)
    ensures r in Records(streams) && r in Union(evs) && r.name == e.name && e.version <= r.version
    ensures Top(e, Union(evs)) ==> r == e
  {
    hide Less, Ascending;
    var m :| 0 <= m < |evs| && e in evs[m];
    assert Covered(streams[m], e);
    var i :| 0 <= i < |streams[m]| && streams[m][i].name == e.name && e.version <= streams[m][i].version;
    r := streams[m][i];
    WinnerIsTop(streams[m], evs[m], i);
    InUnion(evs, m, r);
    if Top(e, Union(evs)) {
      forall x | x in evs[m] && x.name == e.name ensures x.version <= e.version { InUnion(evs, m, x); }
      assert Top(e, evs[m]);
    }
  }

  lemma RecordsInside(streams: seq<seq<Dent>>, evs: seq<set<Dent>>)
    requires |streams| == |evs| && forall m :: 0 <= m < |evs| ==> Winners(streams[m], evs[m])
    ensures Records(streams) <= Union(evs)
  {
    hide Less, Ascending;
    forall r | r in Records(streams) ensures r in Union(evs) {
      var m, i :| 0 <= m < |streams| && 0 <= i < |streams[m]| && r == streams[m][i];
      InUnion(evs, m, r);
    }
  }

  /** Merging per-server winners is the same as merging the servers' whole histories. */
  lemma WinnersSuffice(streams: seq<seq<Dent>>, evs: seq<set<Dent>>, d: Dent)
    requires |streams| == |evs| && forall m :: 0 <= m < |evs| ==> Winners(streams[m], evs[m]) && Decided(evs[m])
    ensures Top(d, Records(streams)) <==> Top(d, Union(evs))
  {
    hide Winners, Decided, Records, Union;
    RecordsInside(streams, evs);
    if Top(d, Records(streams)) {
      forall e | e in Union(evs) && e.name == d.name ensures e.version <= d.version {
        var r := RecordFor(streams, evs, e);
      }
    } else if Top(d, Union(evs)) {
      var r := RecordFor(streams, evs, d);
    }
  }

  lemma MergeReady(streams: seq<seq<Dent>>, evs: seq<set<Dent>>)
    requires |streams| == |evs| && forall m :: 0 <= m < |evs| ==> Winners(streams[m], evs[m])
    requires Foreign(evs)
    ensures Consistent(Records(streams)) && forall m :: 0 <= m < |streams| ==> Ascending(streams[m])
  {
    hide Less, Ascending, Covered;
    forall a, b | a in Records(streams) && b in Records(streams) && a.name == b.name && a.version == b.version ensures a == b {
      var m, i :| 0 <= m < |streams| && 0 <= i < |streams[m]| && a == streams[m][i];
      var k, j :| 0 <= k < |streams| && 0 <= j < |streams[k]| && b == streams[k][j];
      assert a in evs[m] && b in evs[k];
      if m == k {
        NameOnce(streams[m], i, j);
      }
    }
  }

  lemma VisibleAll(streams: seq<seq<Dent>>, evs: seq<set<Dent>>, out: seq<Dent>)
    requires |streams| == |evs| && forall m :: 0 <= m < |evs| ==> Winners(streams[m], evs[m]) && Decided(evs[m])
    requires Visible(out, Records(streams))
    ensures Visible(out, Union(evs))
  {
    hide Less, Ascending, Top, Records, Union, Winners, Decided;
    forall d ensures d in out <==> Top(d, Union(evs)) && !d.tomb {
      WinnersSuffice(streams, evs, d);
    }
  }

  // ── the directory that a listing shows ──

  /** The puts among `entries` are exactly the bindings of the directory: name, inode and type. */
  ghost predicate Binds(entries: seq<Dent>, m: Bindings) {
    && (forall i :: 0 <= i < |entries| && !entries[i].tomb ==>
          entries[i].name in m && m[entries[i].name] == Target(entries[i].inode, entries[i].kind))
    && (forall n :: n in m ==> exists i :: 0 <= i < |entries| && entries[i].name == n && !entries[i].tomb)
  }

  /** In strictly increasing name order, the bindings of the directory and nothing else. */
  ghost predicate Shows(out: seq<Dent>, m: Bindings) {
    Ascending(out) && (forall i :: 0 <= i < |out| ==> !out[i].tomb) && Binds(out, m)
  }

  /** One name: a newest event that is unique decides it. */
  lemma TopDecides(e: Dent, s: seq<LogOp>, d: nat)
    requires Increasing(s) && Decided(Elems(History(s, d))) && Top(e, Elems(History(s, d)))
    ensures e.tomb <==> e.name !in Contents(s, d)
    ensures !e.tomb ==> Contents(s, d)[e.name] == Target(e.inode, e.kind)
  {
    hide Contents, History, Increasing;
    var found, x := Newest(s, d, e.name);
    assert found ==> x == e;
  }

  lemma BoundHasTop(n: string, s: seq<LogOp>, d: nat) returns (e: Dent)
    requires Increasing(s) && n in Contents(s, d)
    ensures Top(e, Elems(History(s, d))) && e.name == n && !e.tomb
  {
    hide Contents, History, Increasing;
    var found, x := Newest(s, d, n);
    e := x;
  }

  lemma VisibleShows(out: seq<Dent>, s: seq<LogOp>, d: nat)
    requires Increasing(s) && Decided(Elems(History(s, d))) && Visible(out, Elems(History(s, d)))
    ensures Shows(out, Contents(s, d))
  {
    hide Contents, History, Increasing, Ascending, Decided, Top;
    var m := Contents(s, d);
    forall i | 0 <= i < |out| ensures !out[i].tomb && out[i].name in m && m[out[i].name] == Target(out[i].inode, out[i].kind) {
      assert out[i] in out;
      TopDecides(out[i], s, d);
    }
    forall n | n in m ensures exists i :: 0 <= i < |out| && out[i].name == n && !out[i].tomb {
      var e := BoundHasTop(n, s, d);
      assert e in out;
    }
  }

  lemma WinnersBind(entries: seq<Dent>, s: seq<LogOp>, d: nat)
    requires Increasing(s) && Decided(Elems(History(s, d))) && Winners(entries, Elems(History(s, d)))
    ensures Binds(entries, Contents(s, d))
  {
    hide Contents, History, Increasing, Ascending, Decided, Top;
    var m, evs := Contents(s, d), Elems(History(s, d));
    forall i | 0 <= i < |entries| ensures !entries[i].tomb ==> entries[i].name in m && m[entries[i].name] == Target(entries[i].inode, entries[i].kind) {
      WinnerIsTop(entries, evs, i);
      TopDecides(entries[i], s, d);
    }
    forall n | n in m ensures exists i :: 0 <= i < |entries| && entries[i].name == n && !entries[i].tomb {
      var e := BoundHasTop(n, s, d);
      var i := CoverOf(entries, evs, e);
      WinnerIsTop(entries, evs, i);
      TopDecides(entries[i], s, d);
    }
  }

  /** The events of the entries in version order are those of the single logs. */
  lemma OrderedEvents(logs: seq<seq<LogOp>>, cutoff: nat, d: nat, e: Dent)
    ensures e in History(InOrder(logs, cutoff), d) <==> exists m :: 0 <= m < |logs| && e in UpTo(History(logs[m], d), cutoff)
  {
    hide History, UpTo, InOrder, EventsOf;
    var s := InOrder(logs, cutoff);
    HistoryMember(s, d, e);
    if i :| 0 <= i < |s| && e in EventsOf(s[i], d) {
      InOrderMember(logs, cutoff, s[i]);
      var m :| 0 <= m < |logs| && s[i] in logs[m];
      var k :| 0 <= k < |logs[m]| && logs[m][k] == s[i];
      EventFrom(logs[m], k, d, cutoff, e);
    }
    if m :| 0 <= m < |logs| && e in UpTo(History(logs[m], d), cutoff) {
      var k := EventAt(logs[m], d, cutoff, e);
      InOrderMember(logs, cutoff, logs[m][k]);
      assert logs[m][k] in s;
    }
  }

  lemma EventFrom(log: seq<LogOp>, k: nat, d: nat, cutoff: nat, e: Dent)
    requires k < |log| && e in EventsOf(log[k], d) && log[k].version <= cutoff
    ensures e in UpTo(History(log, d), cutoff)
  {
    hide History, UpTo, EventsOf;
    OneRecord(log[k], d, e, e);
    HistoryMember(log, d, e);
    UpToMember(History(log, d), cutoff, e);
  }

  lemma EventAt(log: seq<LogOp>, d: nat, cutoff: nat, e: Dent) returns (k: nat)
    requires e in UpTo(History(log, d), cutoff)
    ensures k < |log| && e in EventsOf(log[k], d) && log[k].version <= cutoff
  {
    hide History, UpTo, EventsOf;
    UpToMember(History(log, d), cutoff, e);
    HistoryMember(log, d, e);
    k :| 0 <= k < |log| && e in EventsOf(log[k], d);
    OneRecord(log[k], d, e, e);
  }

  /** What one server collects is its part of the directory. */
  lemma CollectedBinds(entries: seq<Dent>, ops: seq<LogOp>, d: nat, cutoff: nat)
    requires Winners(entries, Elems(UpTo(History(ops, d), cutoff))) && VersionsApart(ops) && Settled(ops, d, cutoff)
    ensures Binds(entries, Contents(InOrder([ops], cutoff), d))
  {
    hide History, UpTo, InOrder, Winners, Decided, Settled, Binds, Contents, Increasing;
    var s := InOrder([ops], cutoff);
    DecidedIff(ops, d, cutoff);
    assert Unique([ops]);
    InOrderIncreasing([ops], cutoff);
    forall e ensures e in History(s, d) <==> e in UpTo(History(ops, d), cutoff) {
      OrderedEvents([ops], cutoff, d, e);
      assert [ops][0] == ops;
    }
    assert Elems(History(s, d)) == Elems(UpTo(History(ops, d), cutoff));
    WinnersBind(entries, s, d);
  }

  lemma TopThere(evs: seq<set<Dent>>, a: Dent) returns (m: nat)
    requires Top(a, Union(evs))
    ensures m < |evs| && Top(a, evs[m])
  {
    m :| 0 <= m < |evs| && a in evs[m];
    forall x | x in evs[m] ensures x in Union(evs) { InUnion(evs, m, x); }
  }

  lemma SameServer(evs: seq<set<Dent>>, a: Dent, b: Dent, m: nat, k: nat)
    requires Foreign(evs) && m < |evs| && k < |evs| && a in evs[m] && b in evs[k] && a.version == b.version
    ensures m == k
  {
  }

  /** Decided on every server is decided over all. */
  lemma DecidedAll(evs: seq<set<Dent>>)
    requires Foreign(evs) && forall m :: 0 <= m < |evs| ==> Decided(evs[m])
    ensures Decided(Union(evs))
  {
    hide Union, Foreign;
    forall a, b | Top(a, Union(evs)) && Top(b, Union(evs)) && a.name == b.name ensures a == b {
      var m := TopThere(evs, a);
      var k := TopThere(evs, b);
      SameServer(evs, a, b, m, k);
      assert Decided(evs[m]);
    }
  }

  /** What the client merges is the directory: the fold of all servers' entries in version order. */
  lemma MergedShows(out: seq<Dent>, logs: seq<seq<LogOp>>, evs: seq<set<Dent>>, d: nat, cutoff: nat)
    requires |logs| == |evs| && forall m :: 0 <= m < |logs| ==> evs[m] == Elems(UpTo(History(logs[m], d), cutoff)) && Decided(evs[m])
    requires Unique(logs) && Foreign(evs) && Visible(out, Union(evs))
    ensures Shows(out, Contents(InOrder(logs, cutoff), d))
  {
    hide History, UpTo, InOrder, Decided, Contents, Increasing, Foreign, Unique, Visible, Shows;
    var s := InOrder(logs, cutoff);
    InOrderIncreasing(logs, cutoff);
    DecidedAll(evs);
    forall e ensures e in Elems(History(s, d)) <==> e in Union(evs) {
      OrderedEvents(logs, cutoff, d, e);
      if m :| 0 <= m < |logs| && e in UpTo(History(logs[m], d), cutoff) {
        InUnion(evs, m, e);
      }
    }
    assert Elems(History(s, d)) == Union(evs);
    VisibleShows(out, s, d);
  }

  lemma SoleName(e: Dent, evs: set<Dent>)
    requires e in evs && forall x :: x in evs ==> x.name == e.name && x.version <= e.version
    ensures Winners([e], evs) && Top(e, evs)
  {
    forall x | x in evs ensures Covered([e], x) {
      assert [e][0].name == x.name;
    }
  }

  /** A rename of "a" onto itself leaves the directory undecided: both listings are possible, and
      one shows the name and the other does not. */
  lemma SelfRenameUndecided()
    ensures var op := Rename(5, 1, 1, "a", "a", 8, 7);
            var evs := Elems(History([op], 1));
            && VersionsApart([op]) && !Settled([op], 1, 7) && !Decided(evs)
            && Winners([Dent(5, 7, DT_UNKNOWN, true, "a")], evs)
            && Winners([Dent(5, 7, 8, false, "a")], evs)
  {
    hide Winners, UpTo;
    var op := Rename(5, 1, 1, "a", "a", 8, 7);
    var gone, put := Dent(5, 7, DT_UNKNOWN, true, "a"), Dent(5, 7, 8, false, "a");
    HistoryNone(1);
    HistoryNext([], op, 1);
    assert [] + [op] == [op];
    assert History([op], 1) == [gone, put];
    var evs := Elems(History([op], 1));
    SoleName(gone, evs);
    SoleName(put, evs);
    assert op in [op] && !Outdone([op], 1, 7, "a", 7);
  }
}
