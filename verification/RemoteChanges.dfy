/** Inode changes forwarded between metadata servers, what they do to a persisted inode, and when
    two batches of changes mean the same. */
module RemoteChanges {
  import opened InodeRegions
  import HybridClock

  const WORD: int := 0x1_0000_0000

  datatype ChangeOp = Noop | UnlinkInode | LinkInode | SetMode | TouchCtime | BlocksDelta

  datatype Change = Change(op: ChangeOp, inode: nat, value: int, version: nat)

  datatype Latest = NoChange | Newest(change: Change)

  /** VersionSeconds: the version's physical milliseconds, in seconds. */
  function Seconds(version: nat): nat { version / 0x40_0000 / 1000 }

  /** The seconds of a version are those of the clock that handed it out. */
  lemma SecondsOf(state: nat, id: nat)
    requires state < HybridClock.STATE_LIMIT && id < HybridClock.META
    ensures Seconds(HybridClock.VersionOf(state, id)) == HybridClock.Physical(state) / 1000
  {
    HybridClock.VersionValue(state, id);
    var v := HybridClock.VersionOf(state, id);
    assert v / 0x40_0000 == v / HybridClock.META / HybridClock.LOGICAL;
  }

  /** Truncation to 32 bits. */
  function Wrap(n: int): uint32 { n % WORD }

  /** ApplyPersistedBlocksDelta on the 32-bit child count: below zero it clamps. */
  function AddClamped(x: uint32, d: int): uint32 {
    if d < 0 && x < -d then 0 else Wrap(x + d)
  }

  /** apply_one on a non-empty slot. */
  function ApplyChange(e: Change, i: Inode): Inode {
    match e.op
    case Noop => i
    case UnlinkInode => i.(nlink := if i.nlink > 0 then i.nlink - 1 else 0, ctime := Seconds(e.version))
    case LinkInode => i.(nlink := i.nlink + 1, ctime := Seconds(e.version))
    case SetMode => i.(mode := Wrap(e.value), ctime := Seconds(e.version))
    case TouchCtime => i.(ctime := Seconds(e.version))
    case BlocksDelta => i.(extra := AddClamped(i.extra, e.value))
  }

  /** The changes applied one after the other. */
  function Replay(s: seq<Change>, i: Inode): Inode {
    if s == [] then i else ApplyChange(s[|s| - 1], Replay(s[..|s| - 1], i))
  }

  // ---- (inode, version) order ----

  predicate Before(a: Change, b: Change) {
    a.inode < b.inode || (a.inode == b.inode && a.version <= b.version)
  }

  predicate Sorted(s: seq<Change>) {
    forall i, j :: 0 <= i < j < |s| ==> Before(s[i], s[j])
  }

  function Insert(s: seq<Change>, e: Change): seq<Change> {
    if s == [] || Before(s[|s| - 1], e) then s + [e]
    else Insert(s[..|s| - 1], e) + [s[|s| - 1]]
  }

  function Sort(s: seq<Change>): seq<Change> {
    if s == [] then [] else Insert(Sort(s[..|s| - 1]), s[|s| - 1])
  }

  lemma {:induction false} InsertMember(s: seq<Change>, e: Change, x: Change)
    ensures x in Insert(s, e) <==> x == e || x in s
  {
    if s != [] && !Before(s[|s| - 1], e) {
      InsertMember(s[..|s| - 1], e, x);
      assert s == s[..|s| - 1] + [s[|s| - 1]];
    }
  }

  lemma {:induction false} InsertSorted(s: seq<Change>, e: Change)
    requires Sorted(s)
    ensures Sorted(Insert(s, e))
  {
    if s != [] && !Before(s[|s| - 1], e) {
      var n := |s| - 1;
      InsertSorted(s[..n], e);
      var t := Insert(s[..n], e);
      forall i | 0 <= i < |t| ensures Before(t[i], s[n]) {
        InsertMember(s[..n], e, t[i]);
      }
    }
  }

  lemma {:induction false} SortSorted(s: seq<Change>)
    ensures Sorted(Sort(s))
  {
    if s != [] {
      SortSorted(s[..|s| - 1]);
      InsertSorted(Sort(s[..|s| - 1]), s[|s| - 1]);
    }
  }

  lemma {:induction false} SortMember(s: seq<Change>, x: Change)
    ensures x in Sort(s) <==> x in s
  {
    if s != [] {
      var n := |s| - 1;
      SortMember(s[..n], x);
      InsertMember(Sort(s[..n]), s[n], x);
      assert s == s[..n] + [s[n]];
    }
  }

  lemma {:induction false} InsertItems(s: seq<Change>, e: Change)
    ensures multiset(Insert(s, e)) == multiset(s) + multiset{e}
  {
    if s != [] && !Before(s[|s| - 1], e) {
      InsertItems(s[..|s| - 1], e);
      assert s == s[..|s| - 1] + [s[|s| - 1]];
    }
  }

  /** Sorting keeps every change as often as it occurs. */
  lemma {:induction false} SortItems(s: seq<Change>)
    ensures multiset(Sort(s)) == multiset(s)
  {
    if s != [] {
      var n := |s| - 1;
      SortItems(s[..n]);
      InsertItems(Sort(s[..n]), s[n]);
      assert s == s[..n] + [s[n]];
    }
  }

  lemma {:induction false} SortIdempotent(s: seq<Change>)
    requires Sorted(s)
    ensures Sort(s) == s
  {
    hide Insert;
    if s != [] {
      var r, e := s[..|s| - 1], s[|s| - 1];
      SortIdempotent(r);
      InsertEnd(r, e);
      assert s == r + [e];
    }
  }

  // ---- Filters ----

  function Keep(s: seq<Change>, p: Change -> bool): seq<Change> {
    if s == [] then []
    else Keep(s[..|s| - 1], p) + if p(s[|s| - 1]) then [s[|s| - 1]] else []
  }

  lemma KeepAppend(s: seq<Change>, e: Change, p: Change -> bool)
    ensures Keep(s + [e], p) == if p(e) then Keep(s, p) + [e] else Keep(s, p)
  {
    assert (s + [e])[..|s|] == s;
  }

  lemma {:induction false} KeepMember(s: seq<Change>, p: Change -> bool, x: Change)
    ensures x in Keep(s, p) <==> x in s && p(x)
  {
    if s != [] {
      KeepMember(s[..|s| - 1], p, x);
      assert s == s[..|s| - 1] + [s[|s| - 1]];
    }
  }

  lemma {:induction false} KeepNothing(s: seq<Change>, p: Change -> bool)
    requires forall x :: x in s ==> !p(x)
    ensures Keep(s, p) == []
  {
    if s != [] {
      assert s[|s| - 1] in s;
      KeepNothing(s[..|s| - 1], p);
    }
  }

  lemma {:induction false} KeepSame(s: seq<Change>, p: Change -> bool, q: Change -> bool)
    requires forall x :: x in s ==> p(x) == q(x)
    ensures Keep(s, p) == Keep(s, q)
  {
    if s != [] {
      assert s[|s| - 1] in s;
      KeepSame(s[..|s| - 1], p, q);
    }
  }

  /** A filter weaker than the next one has no effect. */
  lemma {:induction false} KeepTwice(s: seq<Change>, p: Change -> bool, q: Change -> bool)
    requires forall x :: x in s && q(x) ==> p(x)
    ensures Keep(Keep(s, p), q) == Keep(s, q)
  {
    if s != [] {
      var r, e := s[..|s| - 1], s[|s| - 1];
      assert s == r + [e] && e in s;
      KeepTwice(r, p, q);
      KeepAppend(r, e, p);
      KeepAppend(r, e, q);
      if p(e) {
        KeepAppend(Keep(r, p), e, q);
      }
    }
  }

  lemma {:induction false} KeepConcat(s: seq<Change>, t: seq<Change>, p: Change -> bool)
    ensures Keep(s + t, p) == Keep(s, p) + Keep(t, p)
  {
    if t == [] {
      assert s + t == s;
    } else {
      var r, e := t[..|t| - 1], t[|t| - 1];
      KeepConcat(s, r, p);
      assert s + t == s + r + [e];
      KeepAppend(s + r, e, p);
    }
  }

  /** Two elements of a filtered sequence stand in the same order in the sequence. */
  lemma {:induction false} KeepOrder(s: seq<Change>, p: Change -> bool, i: nat, j: nat) returns (i': nat, j': nat)
    requires i < j < |Keep(s, p)|
    ensures i' < j' < |s| && s[i'] == Keep(s, p)[i] && s[j'] == Keep(s, p)[j]
  {
    var r := s[..|s| - 1];
    if j < |Keep(r, p)| {
      i', j' := KeepOrder(r, p, i, j);
    } else {
      var x := Keep(r, p)[i];
      assert x in Keep(r, p);
      KeepMember(r, p, x);
      i' :| 0 <= i' < |r| && r[i'] == x;
      j' := |s| - 1;
    }
  }

  lemma InsertEnd(s: seq<Change>, e: Change)
    requires s == [] || Before(s[|s| - 1], e)
    ensures Insert(s, e) == s + [e]
  {
  }

  lemma InsertInner(s: seq<Change>, last: Change, e: Change)
    requires !Before(last, e)
    ensures Insert(s + [last], e) == Insert(s, e) + [last]
  {
    assert (s + [last])[..|s|] == s;
  }

  lemma SortAppend(s: seq<Change>, e: Change)
    ensures Sort(s + [e]) == Insert(Sort(s), e)
  {
    assert (s + [e])[..|s|] == s;
  }

  /** Dropping elements of a sorted sequence does not change where an element is inserted. */
  lemma {:induction false} KeepInsert(s: seq<Change>, e: Change, p: Change -> bool)
    requires Sorted(s)
    ensures Keep(Insert(s, e), p) == if p(e) then Insert(Keep(s, p), e) else Keep(s, p)
  {
    hide Keep, Insert;
    if s == [] || Before(s[|s| - 1], e) {
      KeepAppend(s, e, p);
      InsertEnd(s, e);
      KeepBefore(s, e, p);
      if p(e) {
        InsertEnd(Keep(s, p), e);
      }
    } else {
      var r, last := s[..|s| - 1], s[|s| - 1];
      assert s == r + [last];
      KeepInsert(r, e, p);
      InsertInner(r, last, e);
      KeepAppend(Insert(r, e), last, p);
      KeepAppend(r, last, p);
      InsertInner(Keep(r, p), last, e);
    }
  }

  lemma KeepBefore(s: seq<Change>, e: Change, p: Change -> bool)
    requires Sorted(s) && (s == [] || Before(s[|s| - 1], e))
    ensures var k := Keep(s, p); k == [] || Before(k[|k| - 1], e)
  {
    hide Keep;
    var k := Keep(s, p);
    if k != [] {
      KeepMember(s, p, k[|k| - 1]);
    } else if s == [] {
      KeepNone(p);
    }
  }

  lemma KeepNone(p: Change -> bool)
    ensures Keep([], p) == []
  {
  }

  lemma {:induction false} KeepSort(s: seq<Change>, p: Change -> bool)
    ensures Keep(Sort(s), p) == Sort(Keep(s, p))
  {
    hide Keep, Insert, Sorted;
    if s == [] {
      KeepNone(p);
    } else {
      var r, e := s[..|s| - 1], s[|s| - 1];
      assert s == r + [e];
      KeepSort(r, p);
      SortSorted(r);
      SortAppend(r, e);
      KeepInsert(Sort(r), e, p);
      KeepAppend(r, e, p);
      SortAppend(Keep(r, p), e);
    }
  }

  // ---- What a batch means ----

  function IsLink(): Change -> bool { (e: Change) => e.op.UnlinkInode? || e.op.LinkInode? }

  /** The link count changes of a batch. */
  function Links(s: seq<Change>): seq<Change> { Keep(s, IsLink()) }

  function Pick(cur: Latest, e: Change): Latest {
    if cur.Newest? && e.version <= cur.change.version then cur else Newest(e)
  }

  /** The change of kind `op` with the highest version, the first of them if several. */
  function LatestOf(s: seq<Change>, op: ChangeOp): Latest {
    if s == [] then NoChange
    else
      var rest := LatestOf(s[..|s| - 1], op);
      if s[|s| - 1].op == op then Pick(rest, s[|s| - 1]) else rest
  }

  /** The child count deltas of a batch, in order. */
  function Deltas(s: seq<Change>): seq<int> {
    if s == [] then []
    else Deltas(s[..|s| - 1]) + if s[|s| - 1].op.BlocksDelta? then [s[|s| - 1].value] else []
  }

  function Sum(ds: seq<int>): int {
    if ds == [] then 0 else Sum(ds[..|ds| - 1]) + ds[|ds| - 1]
  }

  function Total(s: seq<Change>): int { Sum(Deltas(s)) }

  lemma BatchAppend(s: seq<Change>, e: Change)
    ensures Links(s + [e]) == if e.op.UnlinkInode? || e.op.LinkInode? then Links(s) + [e] else Links(s)
    ensures LatestOf(s + [e], SetMode) == if e.op.SetMode? then Pick(LatestOf(s, SetMode), e) else LatestOf(s, SetMode)
    ensures LatestOf(s + [e], TouchCtime) == if e.op.TouchCtime? then Pick(LatestOf(s, TouchCtime), e) else LatestOf(s, TouchCtime)
    ensures Deltas(s + [e]) == if e.op.BlocksDelta? then Deltas(s) + [e.value] else Deltas(s)
    ensures Total(s + [e]) == Total(s) + if e.op.BlocksDelta? then e.value else 0
  {
    assert (s + [e])[..|s|] == s;
    var ds := Deltas(s);
    assert (ds + [e.value])[..|ds|] == ds;
  }

  lemma LatestAppend(s: seq<Change>, e: Change, op: ChangeOp)
    ensures LatestOf(s + [e], op) == if e.op == op then Pick(LatestOf(s, op), e) else LatestOf(s, op)
  {
    assert (s + [e])[..|s|] == s;
  }

  /** Two batches for one inode mean the same: the same link changes in version order, the same
      newest mode and touch, the same net child count. */
  ghost predicate Same(a: seq<Change>, b: seq<Change>) {
    && Sort(Links(a)) == Sort(Links(b))
    && LatestOf(a, SetMode) == LatestOf(b, SetMode)
    && LatestOf(a, TouchCtime) == LatestOf(b, TouchCtime)
    && Total(a) == Total(b)
  }

  lemma SameAppend(a: seq<Change>, b: seq<Change>, e: Change)
    requires Same(a, b)
    ensures Same(a + [e], b + [e])
  {
    hide Sort, Insert, Links, LatestOf, Total;
    BatchAppend(a, e);
    BatchAppend(b, e);
    SortAppend(Links(a), e);
    SortAppend(Links(b), e);
  }

  lemma {:induction false} SameExtend(a: seq<Change>, b: seq<Change>, c: seq<Change>)
    requires Same(a, b)
    ensures Same(a + c, b + c)
  {
    hide Same;
    if c == [] {
      assert a + c == a && b + c == b;
    } else {
      var n := |c| - 1;
      SameExtend(a, b, c[..n]);
      SameAppend(a + c[..n], b + c[..n], c[n]);
      assert a + c == a + c[..n] + [c[n]] && b + c == b + c[..n] + [c[n]];
    }
  }

  /** The kinds of which only the newest counts. */
  predicate Overwrites(op: ChangeOp) { op.SetMode? || op.TouchCtime? }

  ghost predicate Clash(a: Change, b: Change) {
    a.op == b.op && Overwrites(a.op) && a.version == b.version
  }

  /** No two mode changes and no two touches carry the same version. */
  ghost predicate Distinct(s: seq<Change>) {
    forall i, j :: 0 <= i < j < |s| ==> !Clash(s[i], s[j])
  }

  lemma {:induction false} DistinctInsert(s: seq<Change>, e: Change)
    requires Distinct(s) && forall x :: x in s ==> !Clash(x, e)
    ensures Distinct(Insert(s, e))
  {
    if s != [] && !Before(s[|s| - 1], e) {
      var r, last := s[..|s| - 1], s[|s| - 1];
      DistinctInsert(r, e);
      var t := Insert(r, e);
      forall i | 0 <= i < |t| ensures !Clash(t[i], last) {
        InsertMember(r, e, t[i]);
        assert last in s;
      }
    }
  }

  lemma {:induction false} DistinctSort(s: seq<Change>)
    requires Distinct(s)
    ensures Distinct(Sort(s))
  {
    if s != [] {
      var n := |s| - 1;
      DistinctSort(s[..n]);
      forall x | x in Sort(s[..n]) ensures !Clash(x, s[n]) {
        SortMember(s[..n], x);
      }
      DistinctInsert(Sort(s[..n]), s[n]);
    }
  }

  lemma {:induction false} LatestInsert(s: seq<Change>, e: Change, op: ChangeOp)
    requires Overwrites(op) && forall x :: x in s ==> !Clash(x, e)
    ensures LatestOf(Insert(s, e), op) == if e.op == op then Pick(LatestOf(s, op), e) else LatestOf(s, op)
  {
    hide LatestOf, Insert, Links, Deltas, Total;
    if s == [] || Before(s[|s| - 1], e) {
      LatestAppend(s, e, op);
      InsertEnd(s, e);
    } else {
      var r, last := s[..|s| - 1], s[|s| - 1];
      assert s == r + [last];
      LatestInsert(r, e, op);
      InsertInner(r, last, e);
      LatestAppend(Insert(r, e), last, op);
      LatestAppend(r, last, op);
      assert last in s;
    }
  }

  lemma {:induction false} LatestSort(s: seq<Change>, op: ChangeOp)
    requires Overwrites(op) && Distinct(s)
    ensures LatestOf(Sort(s), op) == LatestOf(s, op)
  {
    if s != [] {
      var n := |s| - 1;
      LatestSort(s[..n], op);
      forall x | x in Sort(s[..n]) ensures !Clash(x, s[n]) {
        SortMember(s[..n], x);
      }
      LatestInsert(Sort(s[..n]), s[n], op);
    }
  }

  lemma {:induction false} TotalInsert(s: seq<Change>, e: Change)
    ensures Total(Insert(s, e)) == Total(s) + if e.op.BlocksDelta? then e.value else 0
    ensures |Deltas(Insert(s, e))| == |Deltas(s)| + if e.op.BlocksDelta? then 1 else 0
  {
    hide Sum, Deltas;
    if s == [] || Before(s[|s| - 1], e) {
      BatchAppend(s, e);
    } else {
      var n := |s| - 1;
      TotalInsert(s[..n], e);
      BatchAppend(Insert(s[..n], e), s[n]);
      BatchAppend(s[..n], s[n]);
      assert s == s[..n] + [s[n]];
    }
  }

  lemma {:induction false} TotalSort(s: seq<Change>)
    ensures Total(Sort(s)) == Total(s) && |Deltas(Sort(s))| == |Deltas(s)|
  {
    hide Sum, Deltas;
    if s != [] {
      var n := |s| - 1;
      TotalSort(s[..n]);
      TotalInsert(Sort(s[..n]), s[n]);
      BatchAppend(s[..n], s[n]);
      assert s == s[..n] + [s[n]];
    }
  }

  /** Sorting a batch does not change what it means. */
  lemma SameSort(s: seq<Change>)
    requires Distinct(s)
    ensures Same(s, Sort(s))
  {
    KeepSort(s, IsLink());
    SortSorted(Links(s));
    SortIdempotent(Sort(Links(s)));
    LatestSort(s, SetMode);
    LatestSort(s, TouchCtime);
    TotalSort(s);
  }

  // ---- The link count ----

  function Sign(e: Change): seq<int> {
    if e.op.LinkInode? then [1] else if e.op.UnlinkInode? then [-1] else []
  }

  /** The link changes of a batch as steps up and down. */
  function Steps(s: seq<Change>): seq<int> {
    if s == [] then [] else Steps(s[..|s| - 1]) + Sign(s[|s| - 1])
  }

  function Ups(s: seq<Change>): nat {
    if s == [] then 0 else Ups(s[..|s| - 1]) + if s[|s| - 1].op.LinkInode? then 1 else 0
  }

  function Downs(s: seq<Change>): nat {
    if s == [] then 0 else Downs(s[..|s| - 1]) + if s[|s| - 1].op.UnlinkInode? then 1 else 0
  }

  /** How far below zero plain addition falls on the way: the least amount that would have kept it
      from falling. */
  function Shortfall(n: nat, ds: seq<int>): (d: nat)
    ensures forall k :: 0 <= k <= |ds| ==> n + Sum(ds[..k]) + d >= 0
    ensures d > 0 ==> exists k :: 0 <= k <= |ds| && n + Sum(ds[..k]) + d == 0
  {
    if ds == [] then 0
    else
      var m := |ds| - 1;
      var r := Shortfall(n, ds[..m]);
      assert forall k :: 0 <= k <= m ==> ds[..m][..k] == ds[..k];
      assert ds[..|ds|] == ds;
      if n + Sum(ds) + r < 0 then -(n + Sum(ds)) else r
  }

  /** The count after steps that stop at zero. */
  function Counted(n: nat, ds: seq<int>): (c: nat)
  {
    assert ds[..|ds|] == ds;
    n + Sum(ds) + Shortfall(n, ds)
  }

  lemma CountedStep(n: nat, ds: seq<int>, d: int)
    requires d == 1 || d == -1
    ensures Counted(n, ds + [d]) == if d == 1 then Counted(n, ds) + 1 else if Counted(n, ds) > 0 then Counted(n, ds) - 1 else 0
  {
    assert (ds + [d])[..|ds|] == ds;
  }

  /** The link count that a batch leaves. */
  lemma {:induction false} LinkReplay(s: seq<Change>, i: Inode)
    ensures Replay(s, i).nlink == Counted(i.nlink, Steps(s))
  {
    hide Counted, Seconds, AddClamped;
    if s == [] {
      CountedNone(i.nlink);
    } else {
      var r, e := s[..|s| - 1], s[|s| - 1];
      LinkReplay(r, i);
      if e.op.LinkInode? {
        CountedStep(i.nlink, Steps(r), 1);
      } else if e.op.UnlinkInode? {
        CountedStep(i.nlink, Steps(r), -1);
      } else {
        assert Steps(r) + [] == Steps(r);
      }
    }
  }

  lemma CountedNone(n: nat)
    ensures Counted(n, []) == n
  {
  }

  lemma {:induction false} StepsOfLinks(s: seq<Change>)
    requires forall x :: x in s ==> IsLink()(x)
    ensures |Steps(s)| == |s| && forall k :: 0 <= k <= |s| ==> Steps(s)[..k] == Steps(s[..k])
  {
    if s != [] {
      var m := |s| - 1;
      assert s[m] in s;
      StepsOfLinks(s[..m]);
      assert forall k :: 0 <= k <= m ==> s[..m][..k] == s[..k];
      assert s[..|s|] == s;
    }
  }

  lemma {:induction false} StepsSum(s: seq<Change>)
    ensures Sum(Steps(s)) == Ups(s) - Downs(s)
  {
    if s != [] {
      var r, e := s[..|s| - 1], s[|s| - 1];
      StepsSum(r);
      var ds := Steps(r);
      assert ds + [] == ds && (ds + [1])[..|ds|] == ds && (ds + [-1])[..|ds|] == ds;
    }
  }

  lemma {:induction false} UpsConcat(a: seq<Change>, b: seq<Change>)
    ensures Ups(a + b) == Ups(a) + Ups(b) && Downs(a + b) == Downs(a) + Downs(b)
  {
    if b == [] {
      assert a + b == a;
    } else {
      UpsConcat(a, b[..|b| - 1]);
      assert (a + b)[..|a + b| - 1] == a + b[..|b| - 1];
    }
  }

  /** Links minus unlinks among changes k up to j. */
  function LinkNet(ls: seq<Change>, k: nat, j: nat): int
    requires k <= j <= |ls|
  {
    Ups(ls[k..j]) - Downs(ls[k..j])
  }

  lemma NetSum(ls: seq<Change>, k: nat, j: nat)
    requires k <= j <= |ls| && forall x :: x in ls ==> IsLink()(x)
    ensures |Steps(ls)| == |ls| && LinkNet(ls, k, j) == Sum(Steps(ls)[..j]) - Sum(Steps(ls)[..k])
  {
    hide Sum, Ups, Downs, Steps;
    StepsOfLinks(ls);
    StepsSum(ls[..k]);
    StepsSum(ls[..j]);
    UpsConcat(ls[..k], ls[k..j]);
    assert ls[..k] + ls[k..j] == ls[..j];
  }

  lemma NetParts(ls: seq<Change>, k: nat, j: nat)
    requires k <= j <= |ls|
    ensures LinkNet(ls, 0, j) == LinkNet(ls, 0, k) + LinkNet(ls, k, j)
  {
    hide Ups, Downs;
    UpsConcat(ls[..k], ls[k..j]);
    assert ls[..k] + ls[k..j] == ls[0..j];
  }

  /** The shortfall in terms of links and unlinks; k is where it is deepest. */
  lemma Deepest(ls: seq<Change>, n: nat) returns (d: nat, k: nat)
    requires forall x :: x in ls ==> IsLink()(x)
    ensures Counted(n, Steps(ls)) == n + LinkNet(ls, 0, |ls|) + d
    ensures forall j :: 0 <= j <= |ls| ==> n + LinkNet(ls, 0, j) + d >= 0
    ensures k <= |ls| && (d > 0 ==> k > 0 && n + LinkNet(ls, 0, k) + d == 0)
  {
    hide Sum, LinkNet, Steps;
    var ds := Steps(ls);
    d := Shortfall(n, ds);
    NetSum(ls, 0, |ls|);
    SumNone(ds);
    assert ds[..|ls|] == ds;
    forall j | 0 <= j <= |ls| ensures n + LinkNet(ls, 0, j) + d >= 0 {
      NetSum(ls, 0, j);
      assert n + Sum(ds[..j]) + d >= 0;
    }
    k := 0;
    if d > 0 {
      k :| 0 <= k <= |ds| && n + Sum(ds[..k]) + d == 0;
      NetSum(ls, 0, k);
    }
  }

  /** L links and U unlinks give n + L - U if and only if no prefix of them goes below zero.  Otherwise
      there is a last time the count stopped at zero, and it is the count since then. */
  lemma LinkCount(ls: seq<Change>, n: nat)
    requires forall x :: x in ls ==> IsLink()(x)
    ensures var c := Counted(n, Steps(ls));
            && (c == n + LinkNet(ls, 0, |ls|) <==> forall k :: 0 <= k <= |ls| ==> n + LinkNet(ls, 0, k) >= 0)
            && (c != n + LinkNet(ls, 0, |ls|) ==>
                  exists k :: 0 < k <= |ls| && c == LinkNet(ls, k, |ls|) && forall j :: k <= j <= |ls| ==> LinkNet(ls, k, j) >= 0)
  {
    hide LinkNet, Steps, Counted;
    var d, k := Deepest(ls, n);
    if d > 0 {
      NetParts(ls, k, |ls|);
      forall j | k <= j <= |ls| ensures LinkNet(ls, k, j) >= 0 {
        NetParts(ls, k, j);
        assert n + LinkNet(ls, 0, j) + d >= 0;
      }
      assert n + LinkNet(ls, 0, k) < 0;
    }
  }

  lemma SumNone(ds: seq<int>)
    ensures Sum(ds[..0]) == 0
  {
  }

  // ---- The inode a batch produces ----

  function Newer(t: int, l: Latest): int {
    if l.Newest? && l.change.version > t then l.change.version else t
  }

  /** Version of the last change that stamps ctime, -1 if there is none. */
  function StampOf(links: seq<Change>, mode: Latest, touch: Latest): int {
    Newer(Newer(if links == [] then -1 else links[|links| - 1].version, mode), touch)
  }

  function CountFold(x: uint32, ds: seq<int>): uint32 {
    if ds == [] then x else AddClamped(CountFold(x, ds[..|ds| - 1]), ds[|ds| - 1])
  }

  /** The inode in terms of what a batch means and its final child count. */
  ghost function Outcome(links: seq<Change>, mode: Latest, touch: Latest, extra: uint32, i: Inode): Inode {
    var stamp := StampOf(links, mode, touch);
    i.(nlink := Counted(i.nlink, Steps(links)),
    mode := if mode.Newest? then Wrap(mode.change.value) else i.mode,
    extra := extra,
    ctime := if stamp < 0 then i.ctime else Seconds(stamp))
  }

  lemma ReplayAppend(s: seq<Change>, e: Change, i: Inode)
    ensures Replay(s + [e], i) == ApplyChange(e, Replay(s, i))
  {
    assert (s + [e])[..|s|] == s;
  }

  /** Every version in a batch is at most v. */
  ghost predicate Below(s: seq<Change>, v: nat) {
    forall x :: x in s ==> x.version <= v
  }

  lemma {:induction false} LatestMember(s: seq<Change>, op: ChangeOp)
    ensures var l := LatestOf(s, op); l.Newest? ==> l.change in s && l.change.op == op
  {
    if s != [] {
      LatestMember(s[..|s| - 1], op);
    }
  }

  lemma StampBelow(s: seq<Change>, v: nat)
    requires Below(s, v)
    ensures StampOf(Links(s), LatestOf(s, SetMode), LatestOf(s, TouchCtime)) <= v
  {
    LatestMember(s, SetMode);
    LatestMember(s, TouchCtime);
    var k := Links(s);
    if k != [] {
      KeepMember(s, IsLink(), k[|k| - 1]);
    }
  }

  /** One inode's changes applied in version order. */
  lemma {:induction false} SortedReplay(s: seq<Change>, i: Inode)
    requires Sorted(s) && Distinct(s) && forall x, y :: x in s && y in s ==> x.inode == y.inode
    ensures Replay(s, i) == Outcome(Links(s), LatestOf(s, SetMode), LatestOf(s, TouchCtime), CountFold(i.extra, Deltas(s)), i)
  {
    if s != [] {
      var n := |s| - 1;
      var r, e := s[..n], s[n];
      SortedReplay(r, i);
      assert s == r + [e];
      BatchAppend(r, e);
      assert Below(r, e.version) by {
        forall x | x in r ensures x.version <= e.version {
          assert x in s;
        }
      }
      StampBelow(r, e.version);
      LatestMember(r, e.op);
      ReplayStep(r, e, i);
    }
  }

  lemma {:induction false} ReplayStep(r: seq<Change>, e: Change, i: Inode)
    requires Replay(r, i) == Outcome(Links(r), LatestOf(r, SetMode), LatestOf(r, TouchCtime), CountFold(i.extra, Deltas(r)), i)
    requires StampOf(Links(r), LatestOf(r, SetMode), LatestOf(r, TouchCtime)) <= e.version
    requires Overwrites(e.op) && LatestOf(r, e.op).Newest? ==> LatestOf(r, e.op).change.version != e.version
    ensures Replay(r + [e], i)
         == Outcome(Links(r + [e]), LatestOf(r + [e], SetMode), LatestOf(r + [e], TouchCtime), CountFold(i.extra, Deltas(r + [e])), i)
  {
    hide LatestOf, Links, Deltas, Total, Replay, CountFold, Outcome, ApplyChange, StampOf;
    BatchAppend(r, e);
    ReplayAppend(r, e, i);
    CountAppend(i.extra, Deltas(r), e.value);
    OutcomeStep(Links(r), LatestOf(r, SetMode), LatestOf(r, TouchCtime), CountFold(i.extra, Deltas(r)), i, e);
  }

  lemma OutcomeStep(links: seq<Change>, mode: Latest, touch: Latest, extra: uint32, i: Inode, e: Change)
    requires StampOf(links, mode, touch) <= e.version
    requires e.op.SetMode? && mode.Newest? ==> mode.change.version != e.version
    requires e.op.TouchCtime? && touch.Newest? ==> touch.change.version != e.version
    ensures ApplyChange(e, Outcome(links, mode, touch, extra, i))
         == Outcome(if e.op.UnlinkInode? || e.op.LinkInode? then links + [e] else links,
                    if e.op.SetMode? then Pick(mode, e) else mode,
                    if e.op.TouchCtime? then Pick(touch, e) else touch,
                    if e.op.BlocksDelta? then AddClamped(extra, e.value) else extra, i)
  {
    hide Seconds, AddClamped, StampOf, Counted;
    StampNow(links, mode, touch, e);
    assert (links + [e])[..|links|] == links;
    if e.op.UnlinkInode? || e.op.LinkInode? {
      CountedStep(i.nlink, Steps(links), if e.op.LinkInode? then 1 else -1);
    }
  }

  /** A change at least as new as all before it sets the stamp. */
  lemma StampNow(links: seq<Change>, mode: Latest, touch: Latest, e: Change)
    requires StampOf(links, mode, touch) <= e.version
    ensures StampOf(links + [e], mode, touch) == e.version
    ensures (mode.Newest? ==> mode.change.version != e.version) ==>
              Pick(mode, e) == Newest(e) && StampOf(links, Newest(e), touch) == e.version
    ensures (touch.Newest? ==> touch.change.version != e.version) ==>
              Pick(touch, e) == Newest(e) && StampOf(links, mode, Newest(e)) == e.version
  {
  }

  lemma CountAppend(x: uint32, ds: seq<int>, d: int)
    ensures CountFold(x, ds + [d]) == AddClamped(CountFold(x, ds), d)
  {
    assert (ds + [d])[..|ds|] == ds;
  }

  // ---- The child count ----

  /** Number of deltas up to and including the last one that clamps, 0 if none does. */
  function LastClamp(x: uint32, ds: seq<int>): (k: nat)
    ensures k <= |ds|
  {
    if ds == [] then 0
    else
      var n := |ds| - 1;
      if ds[n] < 0 && CountFold(x, ds[..n]) < -ds[n] then |ds| else LastClamp(x, ds[..n])
  }

  lemma WrapAdd(n: int, d: int)
    ensures Wrap(Wrap(n) + d) == Wrap(n + d)
  {
  }

  lemma WrapSame(a: int, b: int)
    ensures Wrap(a) == Wrap(b) <==> Wrap(a - b) == 0
  {
  }

  /** The count since the last clamp is a plain sum. */
  lemma {:induction false} CountShape(x: uint32, ds: seq<int>)
    ensures var k := LastClamp(x, ds);
            && (k == 0 ==> x + Sum(ds) >= 0 && CountFold(x, ds) == Wrap(x + Sum(ds)))
            && (k > 0 ==> Sum(ds) >= Sum(ds[..k]) && CountFold(x, ds) == Wrap(Sum(ds) - Sum(ds[..k])))
            && CountFold(x, ds) <= if k == 0 then x + Sum(ds) else Sum(ds) - Sum(ds[..k])
  {
    hide Wrap;
    if ds == [] {
      WrapSmall(x);
    } else {
      var n := |ds| - 1;
      CountShape(x, ds[..n]);
      var k := LastClamp(x, ds[..n]);
      assert ds[..n][..k] == ds[..k] && ds[..|ds|] == ds;
      var whole := if k == 0 then x + Sum(ds[..n]) else Sum(ds[..n]) - Sum(ds[..k]);
      WrapAdd(whole, ds[n]);
      WrapBelow(CountFold(x, ds[..n]) + ds[n]);
      WrapSmall(0);
    }
  }

  lemma WrapSmall(x: uint32)
    ensures Wrap(x) == x
  {
  }

  lemma WrapBelow(n: int)
    ensures n >= 0 ==> Wrap(n) <= n
  {
  }

  /** When one addition of the net delta gives what adding the deltas one by one gives: if nothing
      clamps on the way, or the deltas after the last clamp cancel out and so does the net count,
      or the count at the last clamp was zero anyway (all modulo the 32-bit width). */
  predicate NetIsExact(x: uint32, ds: seq<int>) {
    var k := LastClamp(x, ds);
    || k == 0
    || (if x + Sum(ds) < 0 then Wrap(Sum(ds) - Sum(ds[..k])) == 0 else Wrap(x + Sum(ds[..k])) == 0)
  }

  lemma {:induction false} NetCount(x: uint32, ds: seq<int>)
    ensures AddClamped(x, Sum(ds)) == CountFold(x, ds) <==> NetIsExact(x, ds)
  {
    hide Wrap, Sum, CountFold, LastClamp;
    CountShape(x, ds);
    WrapSame(x + Sum(ds), Sum(ds) - Sum(ds[..LastClamp(x, ds)]));
  }

  /** The net delta does lose information: an empty directory that sees -1 and then +1. */
  lemma NetLosesClamp()
    ensures AddClamped(0, Sum([-1, 1])) == 0 && CountFold(0, [-1, 1]) == 1
  {
    assert [-1, 1][..1] == [-1] && [-1][..0] == [];
  }

  // ---- Coalesced batches ----

  predicate Coalescable(op: ChangeOp) { op.SetMode? || op.TouchCtime? || op.BlocksDelta? }

  /** At most one change per inode and coalescable kind. */
  ghost predicate OnePerKey(s: seq<Change>) {
    forall i, j :: 0 <= i < j < |s| && s[i].inode == s[j].inode && s[i].op == s[j].op ==> !Coalescable(s[i].op)
  }

  ghost predicate OneInode(s: seq<Change>) {
    forall x, y :: x in s && y in s ==> x.inode == y.inode
  }

  lemma {:induction false} NoDeltas(s: seq<Change>)
    requires forall x :: x in s ==> !x.op.BlocksDelta?
    ensures Deltas(s) == []
  {
    if s != [] {
      NoDeltas(s[..|s| - 1]);
      assert s[|s| - 1] in s;
    }
  }

  lemma {:induction false} OneDelta(s: seq<Change>)
    requires OnePerKey(s) && OneInode(s)
    ensures |Deltas(s)| <= 1
  {
    if s != [] {
      var n := |s| - 1;
      if s[n].op.BlocksDelta? {
        forall x | x in s[..n] ensures !x.op.BlocksDelta? {
          assert x in s && s[n] in s;
        }
        NoDeltas(s[..n]);
      } else {
        OneDelta(s[..n]);
      }
    }
  }

  lemma OneInodeSort(s: seq<Change>)
    requires OneInode(s)
    ensures OneInode(Sort(s))
  {
    forall x, y | x in Sort(s) && y in Sort(s) ensures x.inode == y.inode {
      SortMember(s, x);
      SortMember(s, y);
    }
  }

  lemma OneInodeDistinct(s: seq<Change>)
    requires OnePerKey(s) && OneInode(s)
    ensures Distinct(s)
  {
    forall i, j | 0 <= i < j < |s| ensures !Clash(s[i], s[j]) {
      assert s[i] in s && s[j] in s;
    }
  }

  lemma OneCount(x: uint32, ds: seq<int>)
    requires |ds| <= 1
    ensures CountFold(x, ds) == AddClamped(x, Sum(ds))
  {
    if ds != [] {
      assert ds == [ds[0]] && ds[..0] == [];
    }
  }

  /** One inode's changes in version order. */
  lemma InVersionOrder(s: seq<Change>, i: Inode)
    requires Distinct(s) && OneInode(s)
    ensures Replay(Sort(s), i)
         == Outcome(Sort(Links(s)), LatestOf(s, SetMode), LatestOf(s, TouchCtime), CountFold(i.extra, Deltas(Sort(s))), i)
  {
    hide Replay, Sort, LatestOf, Distinct, CountFold, Deltas, Outcome;
    SortSorted(s);
    DistinctSort(s);
    OneInodeSort(s);
    SortedReplay(Sort(s), i);
    KeepSort(s, IsLink());
    LatestSort(s, SetMode);
    LatestSort(s, TouchCtime);
  }

  /** A coalesced batch, applied in version order, makes the same inode as the batch it stands for,
      but for adding the net child delta at once; it is the very same inode if and only if that
      net delta is exact. */
  lemma CoalescedReplay(a: seq<Change>, b: seq<Change>, i: Inode)
    requires Same(a, b) && Distinct(a) && OneInode(a) && OneInode(b) && OnePerKey(b)
    ensures Replay(Sort(b), i) == Replay(Sort(a), i).(extra := AddClamped(i.extra, Total(a)))
    ensures Replay(Sort(b), i) == Replay(Sort(a), i) <==> NetIsExact(i.extra, Deltas(Sort(a)))
  {
    hide Replay, Sort, LatestOf, Distinct, CountFold, Deltas, Links, OnePerKey, OneInode, AddClamped, StampOf, Sum, NetIsExact;
    OneInodeDistinct(b);
    InVersionOrder(a, i);
    InVersionOrder(b, i);
    OneDelta(b);
    TotalSort(a);
    TotalSort(b);
    OneCount(i.extra, Deltas(Sort(b)));
    NetCount(i.extra, Deltas(Sort(a)));
  }
}
