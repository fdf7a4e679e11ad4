/** Progressive resize of the shared table by N metadata servers.

    Every public operation of a server, with its pre_op and post_op, is one step; the
    steps of different servers interleave in any order.  A compare-and-swap or a
    version poll inside a step therefore sees no other server. */
module ProgressiveResize {
  import opened Buckets
  import opened LevelTables
  import TagHints

  datatype Phase = Normal | Migrating

  /** ResizeMeta in shared memory, with its control word unpacked. */
  datatype ResizeMeta = ResizeMeta(state: Phase, initiator: nat, nMds: nat, done: nat,
                                   version: nat, tl: Level, bl: Level, ob: Level)

  /** One server: its layout, migration_begun_ and LocalResizeCache. */
  datatype Server = Server(lay: Layout, begun: bool, state: Phase, ver: nat,
                           cursor: nat, rangeEnd: nat, rangeDone: bool, reported: bool)

  const NO_LEVEL := Level(0, 0)

  /** The layout that the shared meta describes. */
  function LayoutOf(m: ResizeMeta): Layout {
    var active := m.state == Migrating;
    Layout(m.tl, m.bl, if active then m.ob else NO_LEVEL, active)
  }

  // ── migration ranges ──

  function RangeLo(size: nat, n: nat, j: nat): nat
    requires n > 0
  {
    j * (size / n)
  }

  function RangeHi(size: nat, n: nat, j: nat): nat
    requires n > 0
  {
    if j == n - 1 then size else (j + 1) * (size / n)
  }

  predicate Owns(size: nat, n: nat, j: nat, i: nat)
    requires n > 0
  {
    RangeLo(size, n, j) <= i < RangeHi(size, n, j)
  }

  lemma Scale(x: nat, y: nat, z: nat)
    requires x <= y
    ensures x * z <= y * z
  {}

  /** Every bucket of old_BL belongs to the range of exactly one of the n servers. */
  lemma RangesPartition(size: nat, n: nat, i: nat)
    requires n > 0 && i < size
    ensures exists j :: 0 <= j < n && Owns(size, n, j, i)
    ensures forall j, k :: 0 <= j < n && 0 <= k < n && Owns(size, n, j, i) && Owns(size, n, k, i) ==> j == k
  {
    var chunk := size / n;
    var j := if chunk > 0 && i / chunk < n then i / chunk else n - 1;
    assert Owns(size, n, j, i) by {
      if chunk > 0 {
        assert i == chunk * (i / chunk) + i % chunk;
        if i / chunk >= n {
          Scale(n - 1, i / chunk, chunk);
        }
      }
    }
    forall j: nat, k: nat | j < k < n ensures !(Owns(size, n, j, i) && Owns(size, n, k, i)) {
      Scale(j + 1, k, chunk);
    }
  }

  lemma RangeInside(size: nat, n: nat, j: nat)
    requires j < n
    ensures RangeLo(size, n, j) <= RangeHi(size, n, j) <= size
  {
    Scale(j, j + 1, size / n);
    Scale(j + 1, n, size / n);
    assert size == n * (size / n) + size % n;
  }

  // ── counting ──

  function Sum(s: seq<int>): int {
    if s == [] then 0 else Sum(s[..|s| - 1]) + s[|s| - 1]
  }

  lemma {:induction false} SumSet(s: seq<int>, i: nat, x: int)
    requires i < |s|
    ensures Sum(s[i := x]) == Sum(s) - s[i] + x
  {
    var n := |s| - 1;
    if i == n {
      assert s[i := x][..n] == s[..n];
    } else {
      SumSet(s[..n], i, x);
      assert s[i := x][..n] == s[..n][i := x];
    }
  }

  predicate Reported(s: Server, version: nat) {
    s.ver == version && s.state == Migrating && s.reported
  }

  function CountDone(srv: seq<Server>, version: nat): (c: nat)
    ensures c <= |srv|
  {
    if srv == [] then 0
    else CountDone(srv[..|srv| - 1], version) + if Reported(srv[|srv| - 1], version) then 1 else 0
  }

  lemma {:induction false} CountSet(srv: seq<Server>, i: nat, s: Server, version: nat)
    requires i < |srv|
    ensures CountDone(srv[i := s], version)
            == CountDone(srv, version) - (if Reported(srv[i], version) then 1 else 0) + (if Reported(s, version) then 1 else 0)
  {
    var n := |srv| - 1;
    if i == n {
      assert srv[i := s][..n] == srv[..n];
    } else {
      CountSet(srv[..n], i, s, version);
      assert srv[i := s][..n] == srv[..n][i := s];
    }
  }

  /** The done count reaches N only when every single server has reported. */
  lemma {:induction false} CountAll(srv: seq<Server>, version: nat, j: nat)
    requires CountDone(srv, version) == |srv| && j < |srv|
    ensures Reported(srv[j], version)
  {
    var n := |srv| - 1;
    if j < n {
      CountAll(srv[..n], version, j);
      assert srv[..n][j] == srv[j];
    }
  }

  lemma {:induction false} CountNone(srv: seq<Server>, version: nat)
    requires forall j :: 0 <= j < |srv| ==> !Reported(srv[j], version)
    ensures CountDone(srv, version) == 0
  {
    if srv != [] {
      CountNone(srv[..|srv| - 1], version);
    }
  }

  // ── memory facts ──

  ghost predicate NoneIn(m: Memory, lo: int, hi: int) {
    0 <= lo <= hi <= |m| && forall a :: lo <= a < hi ==> BucketEmpty(m[a])
  }

  /** No bucket of old_BL gained an entry. */
  ghost predicate NoNewIn(m: Memory, m': Memory, v: Level) {
    |m| == |m'| && forall a :: 0 <= a < |m| && InLevel(v, a) && BucketEmpty(m[a]) ==> BucketEmpty(m'[a])
  }

  lemma FrameUnlocked(lay: Layout, m: Memory, m': Memory)
    requires LayoutOk(lay, |m|) && Frame(lay, m, m') && Unlocked(m)
    ensures Unlocked(m') && (lay.active ==> NoNewIn(m, m', lay.ob))
  {}

  lemma DrainedUnlocked(lay: Layout, m: Memory, m': Memory, a: nat)
    requires LayoutOk(lay, |m|) && Drained(lay, m, m', a) && Unlocked(m) && a < |m|
    requires lay.active && !BucketEmpty(m[a])
    ensures Unlocked(m') && NoNewIn(m, m', lay.ob)
  {}

  lemma EditNoNew(m: Memory, m': Memory, k: Key, e: Edit, was: Option<Value>, v: Level)
    requires EditOutcome(m, m', k, e, was)
    ensures NoNewIn(m, m', v)
  {}

  lemma NoneInKept(m: Memory, m': Memory, v: Level, lo: int, hi: int)
    requires NoneIn(m, lo, hi) && NoNewIn(m, m', v) && v.off <= lo && hi <= v.off + v.n
    ensures NoneIn(m', lo, hi)
  {}

  /** Emptied old_BL can be dropped from the layout. */
  lemma DropOld(hs: Hashing, lay: Layout, m: Memory, lay': Layout)
    requires Placed(hs, lay, m) && lay.active && LayoutOk(lay, |m|) && NoneIn(m, lay.ob.off, lay.ob.off + lay.ob.n)
    requires lay'.tl == lay.tl && lay'.bl == lay.bl && !lay'.active
    ensures Placed(hs, lay', m)
  {
    hide MakeFp, FIdx, SIdx;
    forall a | 0 <= a < |m| ensures BucketOk(hs, lay', a, m[a]) {
      assert BucketOk(hs, lay, a, m[a]);
    }
  }

  /** A resize turns TL into BL and BL into old_BL under a fresh empty TL. */
  lemma GrowPlaced(hs: Hashing, lay: Layout, m: Memory, lay': Layout, e: Memory)
    requires Placed(hs, lay, m) && !lay.active
    requires lay'.active && lay'.bl == lay.tl && lay'.ob == lay.bl
    requires forall a :: 0 <= a < |e| ==> e[a].slots == seq(SLOTS, i => Empty) && e[a].ver < VERSIONS
    ensures Placed(hs, lay', m + e)
  {
    hide MakeFp, FIdx, SIdx;
    forall a | 0 <= a < |m + e| ensures BucketOk(hs, lay', a, (m + e)[a]) {
      if a < |m| {
        assert BucketOk(hs, lay, a, m[a]);
      }
    }
  }

  // ── the cluster invariant ──

  /** A server whose cached version is current works on the current layout, and has emptied
      its range of old_BL up to its cursor. */
  ghost predicate Synced(m: Memory, meta: ResizeMeta, n: nat, j: nat, s: Server)
    requires n > 0
  {
    && s.lay == LayoutOf(meta) && s.state == meta.state
    && (meta.state == Migrating ==>
          && RangeLo(meta.ob.n, n, j) <= s.cursor <= s.rangeEnd == RangeHi(meta.ob.n, n, j)
          && s.rangeDone == s.reported
          && (s.reported ==> s.cursor == s.rangeEnd)
          && NoneIn(m, meta.ob.off + RangeLo(meta.ob.n, n, j), meta.ob.off + s.cursor))
  }

  ghost predicate ServerInv(m: Memory, meta: ResizeMeta, n: nat, j: nat, s: Server)
    requires n > 0
  {
    && s.ver <= meta.version
    && s.begun == s.lay.active
    && (!s.lay.active ==> s.lay.ob == NO_LEVEL)
    && (s.ver == meta.version ==> Synced(m, meta, n, j, s))
    && (s.ver < meta.version && meta.state == Normal && s.begun ==> s.lay.tl == meta.tl && s.lay.bl == meta.bl)
  }

  ghost predicate StateInv(hs: Hashing, m: Memory, meta: ResizeMeta, n: nat, notify: seq<nat>, srv: seq<Server>, size: seq<int>) {
    && 0 < n < 256 && |srv| == |notify| == |size| == n
    && LayoutOk(LayoutOf(meta), |m|) && Placed(hs, LayoutOf(meta), m) && Unlocked(m)
    && (forall j :: 0 <= j < n ==> notify[j] == meta.version)
    && (forall j :: 0 <= j < n ==> ServerInv(m, meta, n, j, srv[j]))
    && (meta.state == Migrating ==>
          meta.nMds == n && meta.initiator < n && meta.done == CountDone(srv, meta.version))
    && Sum(size) == |All(m)|
  }

  /** A server that missed the end of one resize and finds the next already under way is
      lost: check_resize reacts only to NORMAL while migration_begun_ is set. */
  predicate Current(meta: ResizeMeta, s: Server) {
    s.ver == meta.version || meta.state == Normal || !s.begun
  }

  /** How an operation of server i moves the shared meta: each new version is one switch between NORMAL
      and MIGRATING; a migration ends only when every server has taken part; and its initiator
      does not leave it unfinished once all have reported. */
  ghost predicate Acted(m: ResizeMeta, m': ResizeMeta, srv': seq<Server>, i: nat)
    requires i < |srv'|
  {
    && m.version <= m'.version <= m.version + 2
    && (m'.version == m.version ==> m'.state == m.state && m'.initiator == m.initiator && m'.nMds == m.nMds)
    && (m'.version == m.version + 1 ==> m'.state != m.state && m'.initiator == i && (m.state == Migrating ==> m.initiator == i))
    && (m'.version == m.version + 2 ==> m'.state == m.state == Normal)
    && (m'.version != m.version && m'.state == Normal ==> forall j :: 0 <= j < |srv'| ==> srv'[j].ver + 1 >= m'.version)
    && !(srv'[i].begun && srv'[i].rangeDone && m'.initiator == i && m'.done >= m'.nMds)
  }

  /** The first resize after version v0: not begun, under way, or just over.  No server is lost. */
  ghost predicate FirstEpisode(meta: ResizeMeta, srv: seq<Server>, v0: int) {
    && v0 <= meta.version <= v0 + 2
    && (meta.version == v0 ==> meta.state == Normal && forall j :: 0 <= j < |srv| ==> !srv[j].begun)
    && (meta.version == v0 + 1 ==> meta.state == Migrating && forall j :: 0 <= j < |srv| && srv[j].begun ==> srv[j].ver == meta.version)
    && (meta.version == v0 + 2 ==> meta.state == Normal)
  }

  lemma NotLost(meta: ResizeMeta, srv: seq<Server>, i: nat, v0: int)
    requires i < |srv|
    ensures FirstEpisode(meta, srv, v0) ==> Current(meta, srv[i])
  {
  }

  /** An operation of server i stays in the first episode or begins a second one. */
  lemma EpisodeStep(meta: ResizeMeta, meta': ResizeMeta, srv: seq<Server>, srv': seq<Server>, i: nat, v0: int)
    requires FirstEpisode(meta, srv, v0) && i < |srv| == |srv'| && Acted(meta, meta', srv', i)
    requires forall j :: 0 <= j < |srv| && j != i ==> srv'[j] == srv[j]
    requires srv'[i].ver == meta'.version && (meta'.state == Normal ==> !srv'[i].begun)
    ensures FirstEpisode(meta', srv', v0) || meta'.version >= v0 + 3
  {
  }

  lemma MemStep(hs: Hashing, m: Memory, m': Memory, meta: ResizeMeta, n: nat, notify: seq<nat>, srv: seq<Server>,
                size: seq<int>, size': seq<int>)
    requires StateInv(hs, m, meta, n, notify, srv, size)
    requires |m| == |m'| && Placed(hs, LayoutOf(meta), m') && Unlocked(m')
    requires meta.state == Migrating ==> NoNewIn(m, m', meta.ob)
    requires |size'| == |size| && Sum(size') - Sum(size) == |All(m')| - |All(m)|
    ensures StateInv(hs, m', meta, n, notify, srv, size')
  {
    hide Placed, Unlocked, NoNewIn, RangeLo, RangeHi, LayoutOk, All, NoneIn, CountDone, Sum;
    forall j | 0 <= j < n ensures ServerInv(m', meta, n, j, srv[j]) {
      ServerKept(m, m', meta, n, j, srv[j]);
    }
  }

  lemma ServerKept(m: Memory, m': Memory, meta: ResizeMeta, n: nat, j: nat, s: Server)
    requires j < n && ServerInv(m, meta, n, j, s)
    requires meta.state == Migrating ==> NoNewIn(m, m', meta.ob)
    ensures ServerInv(m', meta, n, j, s)
  {
    hide NoNewIn, NoneIn, RangeLo, RangeHi;
    if meta.state == Migrating && s.ver == meta.version {
      RangeInside(meta.ob.n, n, j);
      NoneInKept(m, m', meta.ob, meta.ob.off + RangeLo(meta.ob.n, n, j), meta.ob.off + s.cursor);
    }
  }

  lemma ServerStep(hs: Hashing, m: Memory, meta: ResizeMeta, n: nat, notify: seq<nat>, srv: seq<Server>, size: seq<int>,
                   i: nat, s: Server, meta': ResizeMeta)
    requires StateInv(hs, m, meta, n, notify, srv, size) && i < n && ServerInv(m, meta, n, i, s)
    requires meta' == if Reported(s, meta.version) && !Reported(srv[i], meta.version) then meta.(done := meta.done + 1) else meta
    requires Reported(srv[i], meta.version) ==> Reported(s, meta.version)
    ensures StateInv(hs, m, meta', n, notify, srv[i := s], size)
  {
    hide Placed, Unlocked, RangeLo, RangeHi, LayoutOk, All, NoneIn, CountDone, Sum;
    CountSet(srv, i, s, meta.version);
    var srv' := srv[i := s];
    forall j | 0 <= j < n ensures ServerInv(m, meta', n, j, srv'[j]) {
      assert ServerInv(m, meta, n, j, srv[j]);
    }
  }

  /** When every server has reported, old_BL holds nothing. */
  lemma AllReportedEmpty(hs: Hashing, m: Memory, meta: ResizeMeta, n: nat, notify: seq<nat>, srv: seq<Server>, size: seq<int>)
    requires StateInv(hs, m, meta, n, notify, srv, size) && meta.state == Migrating && meta.done >= n
    ensures NoneIn(m, meta.ob.off, meta.ob.off + meta.ob.n)
    ensures forall j :: 0 <= j < n ==> srv[j].ver == meta.version
  {
    hide Placed, RangeLo, RangeHi, All;
    forall j | 0 <= j < n ensures Reported(srv[j], meta.version) {
      CountAll(srv, meta.version, j);
    }
    forall a | meta.ob.off <= a < meta.ob.off + meta.ob.n ensures BucketEmpty(m[a]) {
      RangesPartition(meta.ob.n, n, a - meta.ob.off);
      var j :| 0 <= j < n && Owns(meta.ob.n, n, j, a - meta.ob.off);
      assert ServerInv(m, meta, n, j, srv[j]);
    }
  }

  /** check_finalize: the switch back to NORMAL loses nothing. */
  lemma FinalizeStep(hs: Hashing, m: Memory, meta: ResizeMeta, n: nat, notify: seq<nat>, srv: seq<Server>, size: seq<int>,
                     i: nat, s: Server)
    requires StateInv(hs, m, meta, n, notify, srv, size) && i < n && meta.state == Migrating && meta.done >= n
    requires s == EndMigration(Refresh(srv[i], meta.(state := Normal, version := meta.version + 1), i)).(begun := false)
    ensures StateInv(hs, m, meta.(state := Normal, version := meta.version + 1), n,
                     seq(n, j => meta.version + 1), srv[i := s], size)
  {
    hide Placed, RangeLo, RangeHi, All, NoneIn;
    var meta' := meta.(state := Normal, version := meta.version + 1);
    AllReportedEmpty(hs, m, meta, n, notify, srv, size);
    DropOld(hs, LayoutOf(meta), m, LayoutOf(meta'));
    var srv' := srv[i := s];
    forall j | 0 <= j < n ensures ServerInv(m, meta', n, j, srv'[j]) {
      assert ServerInv(m, meta, n, j, srv[j]);
    }
  }

  /** try_initiate_resize: every server other than the initiator becomes stale. */
  lemma GrowStep(hs: Hashing, m: Memory, meta: ResizeMeta, n: nat, notify: seq<nat>, srv: seq<Server>, size: seq<int>,
                 i: nat, meta': ResizeMeta, s: Server)
    requires StateInv(hs, m, meta, n, notify, srv, size) && i < n && meta.state == Normal
    requires meta' == ResizeMeta(Migrating, i, n, 0, meta.version + 1, Level(|m|, 2 * meta.tl.n), meta.tl, meta.bl)
    requires s == BeginMigration(Refresh(srv[i], meta', i), meta')
    ensures StateInv(hs, m + ZeroLevel(2 * meta.tl.n), meta', n, seq(n, j => meta'.version), srv[i := s], size)
    ensures All(m + ZeroLevel(2 * meta.tl.n)) == All(m)
  {
    hide Placed, RangeLo, RangeHi, All, ZeroLevel;
    var e := ZeroLevel(2 * meta.tl.n);
    GrowPlaced(hs, LayoutOf(meta), m, LayoutOf(meta'), e);
    AllAppendEmpty(m, e);
    RangeInside(meta'.ob.n, n, i);
    var srv' := srv[i := s];
    forall j | 0 <= j < n ensures ServerInv(m + e, meta', n, j, srv'[j]) && !Reported(srv'[j], meta'.version)
    {
      assert ServerInv(m, meta, n, j, srv[j]);
    }
    CountNone(srv', meta'.version);
  }

  // ── local state changes ──

  /** refresh_cache */
  function Refresh(s: Server, m: ResizeMeta, me: nat): Server {
    var s1 := s.(state := m.state, ver := m.version);
    if m.state == Migrating && m.ob.n > 0 && m.nMds > 0 then
      s1.(rangeEnd := RangeHi(m.ob.n, m.nMds, me), cursor := RangeLo(m.ob.n, m.nMds, me), rangeDone := false, reported := false)
    else s1.(rangeDone := true)
  }

  /** begin_migration, with migration_begun_ set. */
  function BeginMigration(s: Server, m: ResizeMeta): Server {
    s.(lay := Layout(m.tl, m.bl, m.ob, true), begun := true)
  }

  /** end_migration: the old_BL window is never read again while inactive. */
  function EndMigration(s: Server): Server {
    s.(lay := s.lay.(active := false, ob := NO_LEVEL))
  }

  /** adopt_layout */
  function Adopt(s: Server, m: ResizeMeta): Server {
    s.(lay := Layout(m.tl, m.bl, s.lay.ob, s.lay.active))
  }

  /** check_resize on the server's own state, given the version word it polls. */
  function Poll(s: Server, m: ResizeMeta, polled: nat, me: nat): Server {
    if s.begun then
      if polled != s.ver && m.state == Normal then EndMigration(Refresh(s, m, me)).(begun := false) else s
    else if polled == s.ver then s
    else if m.state == Migrating then BeginMigration(Refresh(s, m, me), m)
    else Adopt(Refresh(s, m, me), m)
  }

  /** Polling brings a server up to date if and only if it is current; otherwise it is left as it was. */
  lemma PollCatchesUp(m: Memory, meta: ResizeMeta, n: nat, j: nat, s: Server)
    requires j < n && ServerInv(m, meta, n, j, s)
    requires meta.state == Migrating ==> meta.nMds == n && meta.ob.n > 0 && meta.ob.off + meta.ob.n <= |m|
    ensures ServerInv(m, meta, n, j, Poll(s, meta, meta.version, j))
    ensures Poll(s, meta, meta.version, j).ver == meta.version <==> Current(meta, s)
    ensures !Current(meta, s) ==> Poll(s, meta, meta.version, j) == s
    ensures Reported(Poll(s, meta, meta.version, j), meta.version) <==> Reported(s, meta.version)
  {
    RangeInside(meta.ob.n, n, j);
  }

  // ── operations ──

  datatype Op = Insert(val: Value) | Find(k: Key) | Change(k: Key, e: Edit)
  datatype Outcome = Stored(ok: bool) | Got(r: Option<Value>)

  /** The table as a multiset of values: what one operation may answer and leave behind. */
  ghost predicate AbsStep(c: multiset<Value>, op: Op, out: Outcome, c': multiset<Value>) {
    match op
    case Insert(val) =>
      out.Stored? && c' == if out.ok then c + multiset{val} else c
    case Find(k) =>
      out.Got? && c' == c && Hit(c, k, out.r)
    case Change(k, e) =>
      out.Got? && Hit(c, k, out.r)
      && c' == (if out.r.None? then c
                else c - multiset{out.r.value} + (if e.Remove? then multiset{} else multiset{e.f(out.r.value)}))
  }

  /** The table at one moment of a run. */
  datatype Instant = Instant(mem: Memory, lay: Layout)

  /** A lookup succeeds exactly when the key is present, with one of its values. */
  ghost predicate Hit(c: multiset<Value>, k: Key, r: Option<Value>) {
    && (r.None? ==> forall v :: v in c ==> v.key != k)
    && (r.Some? ==> r.value in c && r.value.key == k)
  }

  ghost predicate OpOk(op: Op) {
    op.Change? ==> KeepsKey(op.e)
  }

  lemma AbsentHit(m: Memory, k: Key)
    requires Absent(m, k)
    ensures Hit(All(m), k, None)
  {
    hide All;
    forall v | v in All(m) ensures v.key != k {
      AllMember(m, v);
    }
  }

  /** What an edit leaves of the value it found. */
  ghost function Left(e: Edit, v: Value): multiset<Value> {
    if e.Remove? then multiset{} else multiset{e.f(v)}
  }

  lemma EditFound(m: Memory, m': Memory, k: Key, e: Edit, was: Value)
    requires EditOutcome(m, m', k, e, Some(was))
    ensures was in All(m) && was.key == k && All(m') == All(m) - multiset{was} + Left(e, was)
  {
    hide All, Absent, KeepsKey;
    var a: nat, s: nat :| Edited(m, m', a, s, e) && m[a].slots[s].val == was;
    EditContents(m, m', a, s, e);
  }

  lemma EditHit(m: Memory, m': Memory, k: Key, e: Edit, was: Option<Value>)
    requires EditOutcome(m, m', k, e, was)
    ensures AbsStep(All(m), Change(k, e), Got(was), All(m'))
    ensures |All(m')| == |All(m)| - if was.Some? && e.Remove? then 1 else 0
  {
    hide All, Absent, KeepsKey, Edited, SameSlots;
    if was.None? {
      AbsentHit(m, k);
      AllSame(m, m');
    } else {
      EditFound(m, m', k, e, was.value);
      ChangeCard(All(m'), All(m), was.value, Left(e, was.value));
    }
  }

  lemma ChangeCard(after: multiset<Value>, before: multiset<Value>, v: Value, x: multiset<Value>)
    requires v in before && after == before - multiset{v} + x
    ensures |after| == |before| - 1 + |x|
  {}

  lemma {:induction false} SumZero(n: nat)
    ensures Sum(seq(n, j => 0)) == 0
  {
    if n > 0 {
      SumZero(n - 1);
      assert seq(n, j => 0)[..n - 1] == seq(n - 1, j => 0);
    }
  }

  lemma NoneInExtend(m: Memory, lo: int, hi: int)
    requires NoneIn(m, lo, hi) && hi < |m| && BucketEmpty(m[hi])
    ensures NoneIn(m, lo, hi + 1)
  {}

  /** One migration step of a server: report at the end of its range, else move on if and only if
      the bucket under the cursor is now empty. */
  ghost predicate Moved(s: Server, s': Server, m: Memory) {
    if s.state != Migrating || s.rangeDone then s' == s
    else if s.cursor >= s.rangeEnd then s' == s.(reported := true, rangeDone := true)
    else
      var a := s.lay.ob.off + s.cursor;
      a < |m| && s' == if BucketEmpty(m[a]) then s.(cursor := s.cursor + 1) else s
  }

  class Cluster {
    const tab: Table
    const n: nat
    var meta: ResizeMeta
    /** The version word each server polls in its own notification buffer. */
    var notify: seq<nat>
    var srv: seq<Server>

    ghost predicate Valid()
      reads this, tab
    {
      StateInv(tab.hs, tab.mem, meta, n, notify, srv, tab.size) && |tab.hints| == n
    }

    ghost predicate IsSynced(i: nat)
      reads this
    {
      i < |srv| && srv[i].ver == meta.version
    }

    ghost predicate IsCurrent(i: nat)
      reads this
    {
      i < |srv| && Current(meta, srv[i])
    }

    /** check_resize */
    method CheckResize(i: nat)
      requires Valid() && IsCurrent(i)
      modifies `srv, `meta, tab`hints
      ensures Valid() && IsSynced(i) && meta == old(meta) && (old(IsSynced(i)) ==> srv == old(srv))
      ensures forall j :: 0 <= j < n && j != i ==> srv[j] == old(srv[j])
    {
      hide StateInv, All, Placed, RangeLo, RangeHi, Refresh;
      ServerAt(i);
      PollCatchesUp(tab.mem, meta, n, i, srv[i]);
      if !srv[i].begun && notify[i] != srv[i].ver {
        tab.hints := tab.hints[i := TagHints.Fresh(meta.tl.n + meta.bl.n)];
      }
      SetServer(i, Poll(srv[i], meta, notify[i], i));
    }

    /** The servers' size_ counters add up to the number of entries. */
    lemma Accounted()
      requires Valid()
      ensures |srv| == |tab.size| == n && Sum(tab.size) == |All(tab.mem)|
      ensures n == 1 ==> tab.size[0] == |All(tab.mem)|
    {
      if n == 1 {
        assert tab.size == [tab.size[0]];
      }
    }

    lemma ServerAt(i: nat)
      requires Valid() && i < |srv|
      ensures i < n && |notify| == |srv| == n && 0 < n && notify[i] == meta.version && ServerInv(tab.mem, meta, n, i, srv[i])
      ensures meta.state == Migrating ==> meta.nMds == n && meta.ob.n > 0 && meta.ob.off + meta.ob.n <= |tab.mem|
      ensures |tab.hints| == n
    {}

    /** Store server `i`'s state; a first report also increments the shared done count. */
    method SetServer(i: nat, s: Server)
      requires Valid() && i < |srv| && 0 < n && ServerInv(tab.mem, meta, n, i, s)
      requires Reported(srv[i], meta.version) ==> Reported(s, meta.version)
      modifies `srv, `meta
      ensures Valid() && srv == old(srv)[i := s]
      ensures meta == if Reported(s, meta.version) && !Reported(old(srv)[i], meta.version)
                      then old(meta).(done := old(meta).done + 1) else old(meta)
    {
      hide Placed, All, CountDone, RangeLo, RangeHi;
      var first := Reported(s, meta.version) && !Reported(srv[i], meta.version);
      var meta' := if first then meta.(done := meta.done + 1) else meta;
      ServerStep(tab.hs, tab.mem, meta, n, notify, srv, tab.size, i, s, meta');
      srv, meta := srv[i := s], meta';
    }

    constructor (hs: Hashing, tlBuckets: nat, nMds: nat)
      requires tlBuckets >= 4 && 0 < nMds < 256
      ensures Valid() && n == nMds && All(tab.mem) == multiset{} && fresh(tab)
      ensures meta.version == 0 && FirstEpisode(meta, srv, 0) && forall j :: 0 <= j < n ==> IsSynced(j)
    {
      tab := new Table(hs, tlBuckets, nMds);
      n := nMds;
      var tl, bl := Level(0, tlBuckets), Level(tlBuckets, tlBuckets / 2);
      meta := ResizeMeta(Normal, 0, 0, 0, 0, tl, bl, NO_LEVEL);
      notify := seq(nMds, j => 0);
      srv := seq(nMds, j => Server(Layout(tl, bl, NO_LEVEL, false), false, Normal, 0, 0, 0, true, false));
      new;
      SumZero(nMds);
    }

    /** do_resize and try_initiate_resize, reached when an insert found no room in NORMAL state. */
    method DoResize(i: nat)
      requires Valid() && IsSynced(i) && meta.state == Normal
      modifies this, tab
      ensures Valid() && IsSynced(i) && meta.state == Migrating && meta.initiator == i && |tab.mem| > old(|tab.mem|)
      ensures meta.version == old(meta.version) + 1
      ensures NoneIn(tab.mem, meta.tl.off, meta.tl.off + meta.tl.n)
      ensures All(tab.mem) == old(All(tab.mem)) && tab.size == old(tab.size)
      ensures forall j :: 0 <= j < n && j != i ==> srv[j] == old(srv[j]) && srv[j].ver < meta.version
    {
      hide Placed, All, CountDone, RangeLo, RangeHi, ZeroLevel;
      var meta' := ResizeMeta(Migrating, i, n, 0, meta.version + 1, Level(|tab.mem|, 2 * meta.tl.n), meta.tl, meta.bl);
      var s := BeginMigration(Refresh(srv[i], meta', i), meta');
      ghost var hints := tab.hints;
      GrowStep(tab.hs, tab.mem, meta, n, notify, srv, tab.size, i, meta', s);
      forall j | 0 <= j < n ensures srv[j].ver <= meta.version {
        assert ServerInv(tab.mem, meta, n, j, srv[j]);
      }
      tab.mem := tab.mem + ZeroLevel(2 * meta.tl.n);
      tab.hints := tab.hints[i := TagHints.Fresh(2 * meta.tl.n + meta.tl.n)];
      meta := meta';
      notify := seq(n, j => meta'.version);
      srv := srv[i := s];
    }

    /** migrate_step */
    method MigrateStep(i: nat)
      requires Valid() && IsSynced(i)
      modifies this, tab
      ensures Valid() && IsSynced(i)
      ensures All(tab.mem) == old(All(tab.mem)) && tab.size == old(tab.size) && |tab.mem| == old(|tab.mem|)
      ensures meta.(done := 0) == old(meta).(done := 0)
      ensures forall j :: 0 <= j < n && j != i ==> srv[j] == old(srv[j])
      ensures Moved(old(srv[i]), srv[i], tab.mem)
      ensures var s := old(srv[i]); s.state == Migrating && !s.rangeDone && s.cursor < s.rangeEnd ==>
                tab.LeftOver(s.lay, old(tab.mem), tab.mem, s.lay.ob.off + s.cursor)
    {
      hide StateInv, All, Placed, RangeLo, RangeHi, Table.Tried;
      ServerAt(i);
      var s := srv[i];
      if s.state != Migrating || s.rangeDone {
        return;
      }
      var c := s.cursor;
      if c >= s.rangeEnd {
        SetServer(i, s.(reported := true, rangeDone := true));
        return;
      }
      var a := s.lay.ob.off + c;
      var done := true;
      RangeInside(meta.ob.n, n, i);
      TableAt(i);
      if exists j :: 0 <= j < |tab.mem[a].slots| && tab.mem[a].slots[j].Full? {
        ghost var m0 := tab.mem;
        done := tab.MigrateBucket(i, s.lay, a);
        DrainedUnlocked(s.lay, m0, tab.mem, a);
        MemStep(tab.hs, m0, tab.mem, meta, n, notify, srv, tab.size, tab.size);
        ServerAt(i);
      }
      if done {
        NoneInExtend(tab.mem, meta.ob.off + RangeLo(meta.ob.n, n, i), a);
        SetServer(i, s.(cursor := c + 1));
      }
    }

    /** A server that is up to date works on a migration exactly while there is one. */
    lemma Idle(i: nat)
      requires Valid() && IsSynced(i)
      ensures srv[i].begun <==> meta.state == Migrating
    {
      assert ServerInv(tab.mem, meta, n, i, srv[i]);
    }

    lemma TableAt(i: nat)
      requires Valid() && IsSynced(i)
      ensures tab.Ready(i, srv[i].lay) && Unlocked(tab.mem) && srv[i].lay == LayoutOf(meta)
    {
      assert ServerInv(tab.mem, meta, n, i, srv[i]);
    }

    /** check_finalize */
    method CheckFinalize(i: nat)
      requires Valid() && IsSynced(i)
      modifies `meta, `notify, `srv
      ensures Valid() && IsSynced(i) && Acted(old(meta), meta, srv, i)
      ensures forall j :: 0 <= j < n && j != i ==> srv[j] == old(srv[j])
      ensures var s := old(srv[i]);
              meta == if s.begun && s.rangeDone && old(meta).initiator == i && old(meta).done >= old(meta).nMds
                      then old(meta).(state := Normal, version := old(meta).version + 1) else old(meta)
      ensures meta == old(meta) ==> srv == old(srv)
      ensures meta != old(meta) ==> !srv[i].begun
    {
      hide Placed, All, CountDone, RangeLo, RangeHi, NoneIn, LayoutOk;
      var s := srv[i];
      assert ServerInv(tab.mem, meta, n, i, s);
      if !s.begun || !s.rangeDone || meta.initiator != i || meta.done < meta.nMds {
        return;
      }
      var meta' := meta.(state := Normal, version := meta.version + 1);
      var s' := EndMigration(Refresh(s, meta', i)).(begun := false);
      FinalizeStep(tab.hs, tab.mem, meta, n, notify, srv, tab.size, i, s');
      AllReportedEmpty(tab.hs, tab.mem, meta, n, notify, srv, tab.size);
      meta := meta';
      notify := seq(n, j => meta'.version);
      srv := srv[i := s'];
    }

    /** post_op */
    method PostOp(i: nat)
      requires Valid() && IsSynced(i)
      modifies this, tab
      ensures Valid() && IsSynced(i) && Acted(old(meta), meta, srv, i)
      ensures All(tab.mem) == old(All(tab.mem)) && tab.size == old(tab.size) && |tab.mem| == old(|tab.mem|)
      ensures forall j :: 0 <= j < n && j != i ==> srv[j] == old(srv[j])
      ensures forall j :: 0 <= j < n && old(IsCurrent(j)) ==> IsCurrent(j)
      ensures meta.version == old(meta.version) ==> Moved(old(srv[i]), srv[i], tab.mem)
    {
      hide StateInv, All;
      ServerAt(i);
      Idle(i);
      if srv[i].begun {
        MigrateStep(i);
        ServerAt(i);
        CheckFinalize(i);
        ServerAt(i);
      }
    }

    method InsertOnce(i: nat, val: Value) returns (ok: bool)
      requires Valid() && IsSynced(i)
      modifies tab
      ensures Valid() && |tab.mem| == old(|tab.mem|)
      ensures All(tab.mem) == if ok then old(All(tab.mem)) + multiset{val} else old(All(tab.mem))
      ensures ok ==> tab.size == old(tab.size)[i := old(tab.size)[i] + 1]
      ensures !ok ==> tab.size == old(tab.size) && SameSlots(old(tab.mem), tab.mem)
      ensures !ok ==> tab.NoPlace(old(tab.mem), srv[i].lay, val.key)
    {
      hide StateInv, All, Placed, Sum, Table.NoPlace;
      ghost var m0, z0 := tab.mem, tab.size;
      TableAt(i);
      ServerAt(i);
      ok := tab.InsertImpl(i, srv[i].lay, val);
      FrameUnlocked(srv[i].lay, m0, tab.mem);
      if ok {
        SumSet(z0, i, z0[i] + 1);
      } else {
        AllSame(m0, tab.mem);
      }
      MemStep(tab.hs, m0, tab.mem, meta, n, notify, srv, z0, tab.size);
    }

    /** insert: it can fail only during a migration, and only if no candidate bucket of the key has a
        free slot and no occupant of one can move. */
    method Insert(i: nat, val: Value) returns (ok: bool)
      requires Valid() && IsCurrent(i)
      modifies this, tab
      ensures Valid() && IsSynced(i) && Acted(old(meta), meta, srv, i)
      ensures !ok ==> old(meta.state) == Migrating && tab.NoPlace(old(tab.mem), LayoutOf(old(meta)), val.key)
      ensures AbsStep(old(All(tab.mem)), Op.Insert(val), Stored(ok), All(tab.mem))
      ensures forall j :: 0 <= j < n && j != i ==> srv[j] == old(srv[j])
      ensures forall j :: 0 <= j < n && old(IsCurrent(j)) && (|tab.mem| == old(|tab.mem|) || !old(srv[j].begun)) ==> IsCurrent(j)
    {
      hide StateInv, All, Table.Stuck;
      CheckResize(i);
      TableAt(i);
      ok := InsertOnce(i, val);
      ServerAt(i);
      if !ok && !srv[i].lay.active {
        DoResize(i);
        TableAt(i);
        tab.RoomAtTop(tab.mem, srv[i].lay, val.key);
        ok := InsertOnce(i, val);
      }
      ServerAt(i);
      PostOp(i);
    }

    /** find */
    method Find(i: nat, k: Key) returns (r: Option<Value>)
      requires Valid() && IsCurrent(i)
      modifies this, tab
      ensures Valid() && IsSynced(i) && Acted(old(meta), meta, srv, i)
      ensures AbsStep(old(All(tab.mem)), Op.Find(k), Got(r), All(tab.mem))
      ensures forall j :: 0 <= j < n && j != i ==> srv[j] == old(srv[j])
      ensures forall j :: 0 <= j < n && old(IsCurrent(j)) ==> IsCurrent(j)
      ensures old(IsSynced(i)) && meta.version == old(meta.version) ==> Moved(old(srv[i]), srv[i], tab.mem)
    {
      hide StateInv, All;
      CheckResize(i);
      TableAt(i);
      ServerAt(i);
      r := tab.FindImpl(i, srv[i].lay, k);
      if r.None? {
        AbsentHit(tab.mem, k);
      }
      PostOp(i);
    }

    /** update_fn and erase */
    method Change(i: nat, k: Key, e: Edit) returns (was: Option<Value>)
      requires Valid() && IsCurrent(i) && KeepsKey(e)
      modifies this, tab
      ensures Valid() && IsSynced(i) && Acted(old(meta), meta, srv, i)
      ensures AbsStep(old(All(tab.mem)), Op.Change(k, e), Got(was), All(tab.mem))
      ensures forall j :: 0 <= j < n && j != i ==> srv[j] == old(srv[j])
      ensures forall j :: 0 <= j < n && old(IsCurrent(j)) ==> IsCurrent(j)
    {
      hide StateInv, All, Sum, Placed, AbsStep, EditOutcome, KeepsKey;
      CheckResize(i);
      TableAt(i);
      ServerAt(i);
      ghost var m0, z0 := tab.mem, tab.size;
      was := tab.EditImpl(i, srv[i].lay, k, e);
      EditHit(m0, tab.mem, k, e, was);
      EditNoNew(m0, tab.mem, k, e, was, meta.ob);
      if was.Some? && e.Remove? {
        SumSet(z0, i, z0[i] - 1);
      }
      MemStep(tab.hs, m0, tab.mem, meta, n, notify, srv, z0, tab.size);
      PostOp(i);
    }

    /** One operation of server i. */
    method Act(i: nat, op: Op) returns (out: Outcome)
      requires Valid() && IsCurrent(i) && OpOk(op)
      modifies this, tab
      ensures Valid() && IsSynced(i) && |srv| == |old(srv)| && Acted(old(meta), meta, srv, i)
      ensures AbsStep(old(All(tab.mem)), op, out, All(tab.mem))
      ensures out == Stored(false) ==> op.Insert? && old(meta.state) == Migrating && tab.NoPlace(old(tab.mem), LayoutOf(old(meta)), op.val.key)
      ensures forall j :: 0 <= j < n && j != i ==> srv[j] == old(srv[j])
      ensures forall v0: int :: old(FirstEpisode(meta, srv, v0)) ==> FirstEpisode(meta, srv, v0) || meta.version >= v0 + 3
    {
      hide StateInv, All, FirstEpisode, Table.NoPlace;
      ServerAt(i);
      match op {
        case Insert(v) =>
          var ok := Insert(i, v);
          out := Stored(ok);
        case Find(k) =>
          var r := Find(i, k);
          out := Got(r);
        case Change(k, e) =>
          var r := Change(i, k, e);
          out := Got(r);
      }
      ServerAt(i);
      Idle(i);
      forall v0: int | old(FirstEpisode(meta, srv, v0)) ensures FirstEpisode(meta, srv, v0) || meta.version >= v0 + 3 {
        EpisodeStep(old(meta), meta, old(srv), srv, i, v0);
      }
    }

    /** Any schedule of operations by any servers, each a step of the multiset.  An insert is refused only
        when there was no place for it at that moment.  The run stops early only if the server
        whose turn it is has missed the end of a resize before the next one began. */
    method Run(sched: seq<(nat, Op)>) returns (outs: seq<Outcome>, ghost states: seq<Instant>)
      requires Valid() && forall j :: 0 <= j < n ==> IsCurrent(j)
      requires forall t :: 0 <= t < |sched| ==> sched[t].0 < n && OpOk(sched[t].1)
      modifies this, tab
      ensures Valid() && |outs| <= |sched| && |states| == |outs| + 1
      ensures states[0] == old(Instant(tab.mem, LayoutOf(meta))) && states[|outs|] == Instant(tab.mem, LayoutOf(meta))
      ensures forall t :: 0 <= t < |outs| ==> AbsStep(All(states[t].mem), sched[t].1, outs[t], All(states[t + 1].mem))
      ensures forall t :: 0 <= t < |outs| && outs[t] == Stored(false) ==>
                sched[t].1.Insert? && states[t].lay.active && tab.NoPlace(states[t].mem, states[t].lay, sched[t].1.val.key)
      ensures |outs| < |sched| ==> !IsCurrent(sched[|outs|].0)
      ensures forall v0: int :: old(FirstEpisode(meta, srv, v0)) && |outs| < |sched| ==> meta.version >= v0 + 3
      ensures n == 1 ==> |outs| == |sched| && tab.size[0] == |All(tab.mem)|
    {
      hide StateInv, All, AbsStep, FirstEpisode, Table.NoPlace, OpOk;
      outs, states := [], [Instant(tab.mem, LayoutOf(meta))];
      assert |srv| == n by { Accounted(); }
      while |outs| < |sched|
        invariant Valid() && |outs| <= |sched| && |states| == |outs| + 1 && |srv| == n
        invariant states[0] == old(Instant(tab.mem, LayoutOf(meta))) && states[|outs|] == Instant(tab.mem, LayoutOf(meta))
        invariant forall t :: 0 <= t < |outs| ==> AbsStep(All(states[t].mem), sched[t].1, outs[t], All(states[t + 1].mem))
        invariant forall t :: 0 <= t < |outs| && outs[t] == Stored(false) ==>
                    sched[t].1.Insert? && states[t].lay.active && tab.NoPlace(states[t].mem, states[t].lay, sched[t].1.val.key)
        invariant n == 1 ==> IsCurrent(0)
        invariant forall v0: int :: old(FirstEpisode(meta, srv, v0)) ==> FirstEpisode(meta, srv, v0) || meta.version >= v0 + 3
        decreases |sched| - |outs|
      {
        var i, op := sched[|outs|].0, sched[|outs|].1;
        if !Current(meta, srv[i]) {
          Accounted();
          forall v0: int ensures !FirstEpisode(meta, srv, v0) { NotLost(meta, srv, i, v0); }
          return;
        }
        var out := Act(i, op);
        outs, states := outs + [out], states + [Instant(tab.mem, LayoutOf(meta))];
      }
      Accounted();
    }
  }
}
