/** The remote half of a checkpoint cycle: coalescing of drained changes, page buckets, and the
    deferral of changes whose inode is not there yet or whose page misses the deadline. */
module Coalescing {
  import opened InodeRegions
  import opened PageCaches
  import opened RemoteChanges

  type Key = (nat, ChangeOp)

  function Of(id: nat): Change -> bool { (e: Change) => e.inode == id }

  // ---- consume and materialise ----

  function Merged(cur: Change, e: Change): Change {
    if e.op.BlocksDelta? then
      cur.(value := cur.value + e.value, version := if e.version > cur.version then e.version else cur.version)
    else if e.version > cur.version then cur.(value := e.value, version := e.version)
    else cur
  }

  ghost function Held(co: map<Key, Change>, k: Key): Latest {
    if k in co then Newest(co[k]) else NoChange
  }

  /** Everything `s` says about inode `id` is in the uncoalesced list and the coalesced map. */
  ghost predicate Summarises(s: seq<Change>, plain: seq<Change>, co: map<Key, Change>, id: nat) {
    var mine := Keep(s, Of(id));
    && Links(mine) == Links(Keep(plain, Of(id)))
    && LatestOf(mine, SetMode) == Held(co, (id, SetMode))
    && LatestOf(mine, TouchCtime) == Held(co, (id, TouchCtime))
    && Total(mine) == if (id, BlocksDelta) in co then co[(id, BlocksDelta)].value else 0
  }

  ghost predicate KeysOk(co: map<Key, Change>) {
    forall k :: k in co ==> co[k].inode == k.0 && co[k].op == k.1 && Coalescable(k.1)
  }

  ghost predicate AllPlain(s: seq<Change>) {
    forall x :: x in s ==> !Coalescable(x.op)
  }

  lemma PlainStep(s: seq<Change>, plain: seq<Change>, co: map<Key, Change>, e: Change, id: nat)
    requires Summarises(s, plain, co, id) && !Coalescable(e.op)
    ensures Summarises(s + [e], plain + [e], co, id)
  {
    hide Keep, Links, LatestOf, Total;
    KeepAppend(s, e, Of(id));
    KeepAppend(plain, e, Of(id));
    BatchAppend(Keep(s, Of(id)), e);
    BatchAppend(Keep(plain, Of(id)), e);
  }

  lemma KeyStep(s: seq<Change>, plain: seq<Change>, co: map<Key, Change>, e: Change, id: nat)
    requires Summarises(s, plain, co, id) && Coalescable(e.op) && KeysOk(co)
    ensures var k := (e.inode, e.op);
            Summarises(s + [e], plain, co[k := if k in co then Merged(co[k], e) else e], id)
  {
    hide Keep, Links, LatestOf, Total;
    KeepAppend(s, e, Of(id));
    BatchAppend(Keep(s, Of(id)), e);
  }

  lemma {:induction false} PlainOnly(plain: seq<Change>, id: nat)
    requires AllPlain(plain)
    ensures Summarises(plain, plain, map[], id)
  {
    hide Keep, Links, LatestOf, Total;
    if plain == [] {
      Nothing(Of(id));
    } else {
      var r, e := plain[..|plain| - 1], plain[|plain| - 1];
      assert plain == r + [e] && e in plain;
      PlainOnly(r, id);
      PlainStep(r, r, map[], e, id);
    }
  }

  lemma Nothing(p: Change -> bool)
    ensures Keep([], p) == [] && Links([]) == [] && Total([]) == 0
    ensures LatestOf([], SetMode) == LatestOf([], TouchCtime) == NoChange
  {
  }

  lemma SummariesAgree(a: seq<Change>, b: seq<Change>, plain: seq<Change>, co: map<Key, Change>, id: nat)
    requires Summarises(a, plain, co, id) && Summarises(b, plain, co, id)
    ensures Same(Keep(a, Of(id)), Keep(b, Of(id)))
  {
  }

  ghost function Inodes(s: seq<Change>): set<nat> {
    set e | e in s :: e.inode
  }

  ghost function KeyInodes(co: map<Key, Change>): set<nat> {
    set k | k in co :: k.0
  }

  lemma NoInodes()
    ensures Inodes([]) == {} && KeyInodes(map[]) == {}
  {
  }

  lemma InodesAppend(s: seq<Change>, e: Change)
    ensures Inodes(s + [e]) == Inodes(s) + {e.inode}
  {
    var t := s + [e];
    forall id | id in Inodes(s) + {e.inode} ensures id in Inodes(t) {
      if id == e.inode {
        assert e in t;
      } else {
        var x :| x in s && x.inode == id;
        assert x in t;
      }
    }
  }

  lemma KeyInodesSet(co: map<Key, Change>, k: Key, e: Change)
    ensures KeyInodes(co[k := e]) == KeyInodes(co) + {k.0}
  {
    var m := co[k := e];
    forall id | id in KeyInodes(co) + {k.0} ensures id in KeyInodes(m) {
      if id == k.0 {
        assert k in m;
      } else {
        var j :| j in co && j.0 == id;
        assert j in m;
      }
    }
  }

  /** The two buckets of a cycle's entries, merged into one list again: at most one change per
      inode and coalescable kind, with the meaning of the entries for every inode. */
  method Coalesce(entries: seq<Change>) returns (out: seq<Change>)
    ensures OnePerKey(out) && Inodes(out) == Inodes(entries)
    ensures forall id :: Same(Keep(entries, Of(id)), Keep(out, Of(id)))
  {
    hide Summarises, Same, Keep, Inodes, KeyInodes, OnePerKey;
    NoInodes();
    var plain: seq<Change>, co: map<Key, Change> := [], map[];
    forall id ensures Summarises([], [], map[], id) { PlainOnly([], id); }
    for k := 0 to |entries|
      invariant KeysOk(co) && AllPlain(plain) && Inodes(plain) + KeyInodes(co) == Inodes(entries[..k])
      invariant forall id :: Summarises(entries[..k], plain, co, id)
    {
      var e := entries[k];
      ghost var seen := entries[..k];
      ghost var next := entries[..k + 1];
      assert next == seen + [e];
      InodesAppend(seen, e);
      if !Coalescable(e.op) {
        ghost var before := plain;
        InodesAppend(plain, e);
        plain := plain + [e];
        forall id ensures Summarises(next, plain, co, id) { PlainStep(seen, before, co, e, id); }
      } else {
        var key := (e.inode, e.op);
        var co' := co[key := if key in co then Merged(co[key], e) else e];
        KeyInodesSet(co, key, if key in co then Merged(co[key], e) else e);
        forall id ensures Summarises(next, plain, co', id) { KeyStep(seen, plain, co, e, id); }
        co := co';
      }
    }
    assert entries[..|entries|] == entries;
    out := Materialise(plain, co);
    forall id ensures Same(Keep(entries, Of(id)), Keep(out, Of(id))) { SummariesAgree(entries, out, plain, co, id); }
  }

  /** The uncoalesced changes, then the values of the map in any order. */
  method Materialise(plain: seq<Change>, co: map<Key, Change>) returns (out: seq<Change>)
    requires KeysOk(co) && AllPlain(plain)
    ensures OnePerKey(out) && Inodes(out) == Inodes(plain) + KeyInodes(co)
    ensures forall id :: Summarises(out, plain, co, id)
  {
    hide Summarises, Inodes, KeyInodes;
    NoInodes();
    out := plain;
    var left := co.Keys;
    ghost var emitted: map<Key, Change> := map[];
    forall id ensures Summarises(out, plain, emitted, id) { PlainOnly(plain, id); }
    while left != {}
      invariant left <= co.Keys && emitted.Keys == co.Keys - left && forall k :: k in emitted ==> emitted[k] == co[k]
      invariant OnePerKey(out) && Inodes(out) == Inodes(plain) + KeyInodes(emitted)
      invariant forall x :: x in out && Coalescable(x.op) ==> (x.inode, x.op) in emitted
      invariant forall id :: Summarises(out, plain, emitted, id)
    {
      var k :| k in left;
      var e := co[k];
      assert (e.inode, e.op) == k && k !in emitted;
      ghost var before, was := out, emitted;
      InodesAppend(out, e);
      KeyInodesSet(emitted, k, e);
      out, left, emitted := out + [e], left - {k}, emitted[k := e];
      forall id ensures Summarises(out, plain, emitted, id) { KeyStep(before, plain, was, e, id); }
    }
    assert emitted == co;
  }

  // ---- Page buckets ----

  function SlotOf(e: Change, max: nat): (n: nat)
    requires max > 0
    ensures n < max
  {
    e.inode % max
  }

  function InSlot(n: nat, max: nat): Change -> bool
    requires max > 0
  {
    (e: Change) => SlotOf(e, max) == n
  }

  function InPageOf(p: nat, max: nat): Change -> bool
    requires max > 0
  {
    (e: Change) => PageOf(SlotOf(e, max)) == p
  }

  ghost predicate BucketsOk(buckets: map<nat, seq<Change>>, entries: seq<Change>, max: nat)
    requires max > 0
  {
    forall p :: Keep(entries, InPageOf(p, max)) == if p in buckets then buckets[p] else []
  }

  lemma BucketStep(buckets: map<nat, seq<Change>>, entries: seq<Change>, e: Change, max: nat)
    requires max > 0 && BucketsOk(buckets, entries, max)
    ensures var p := PageOf(SlotOf(e, max));
            BucketsOk(buckets[p := (if p in buckets then buckets[p] else []) + [e]], entries + [e], max)
  {
    hide Keep, PageOf, SlotOf;
    var p := PageOf(SlotOf(e, max));
    var buckets', entries' := buckets[p := (if p in buckets then buckets[p] else []) + [e]], entries + [e];
    forall q ensures Keep(entries', InPageOf(q, max)) == if q in buckets' then buckets'[q] else [] {
      KeepAppend(entries, e, InPageOf(q, max));
    }
  }

  /** page_buckets */
  method BucketByPage(entries: seq<Change>, max: nat) returns (buckets: map<nat, seq<Change>>)
    requires max > 0
    ensures BucketsOk(buckets, entries, max)
  {
    hide BucketsOk, PageOf, SlotOf;
    buckets := map[];
    NoBuckets(max);
    for k := 0 to |entries|
      invariant BucketsOk(buckets, entries[..k], max)
    {
      var e := entries[k];
      BucketStep(buckets, entries[..k], e, max);
      assert entries[..k + 1] == entries[..k] + [e];
      var p := PageOf(SlotOf(e, max));
      buckets := buckets[p := (if p in buckets then buckets[p] else []) + [e]];
    }
    assert entries[..|entries|] == entries;
  }

  lemma NoBuckets(max: nat)
    requires max > 0
    ensures BucketsOk(map[], [], max)
  {
  }

  // ---- Applying and deferring ----

  /** What a batch does to one slot: nothing if the slot is empty. */
  function Applied(s: seq<Change>, i: Inode): Inode {
    if i.id == 0 then i else Replay(s, i)
  }

  lemma {:induction false} ReplayKeepsId(s: seq<Change>, i: Inode)
    ensures Replay(s, i).id == i.id
  {
    hide Wrap, AddClamped, Seconds;
    if s != [] {
      ReplayKeepsId(s[..|s| - 1], i);
    }
  }

  /** One slot after a prefix of a bucket, and the changes of the slot deferred so far. */
  ghost predicate SlotState(s: seq<Change>, was: Inode, now: Inode, deferred0: seq<Change>, deferred: seq<Change>) {
    && now == Applied(s, was)
    && deferred == deferred0 + if was.id == 0 then s else []
  }

  lemma SlotStep(s: seq<Change>, was: Inode, now: Inode, deferred0: seq<Change>, deferred: seq<Change>, e: Change)
    requires SlotState(s, was, now, deferred0, deferred)
    ensures now.id == 0 <==> was.id == 0
    ensures now.id != 0 ==> SlotState(s + [e], was, ApplyChange(e, now), deferred0, deferred)
    ensures now.id == 0 ==> SlotState(s + [e], was, now, deferred0, deferred + [e])
  {
    hide Replay, ApplyChange;
    ReplayKeepsId(s, was);
    ReplayAppend(s, e, was);
  }

  /** Slot n after the changes in `s`, relative to the slots and deferred changes before. */
  ghost predicate StateAt(n: nat, s: seq<Change>, was: seq<Inode>, now: seq<Inode>, deferred0: seq<Change>, deferred: seq<Change>)
    requires n < |was| == |now|
  {
    SlotState(Keep(s, InSlot(n, |was|)), was[n], now[n], Keep(deferred0, InSlot(n, |was|)), Keep(deferred, InSlot(n, |was|)))
  }

  ghost predicate States(s: seq<Change>, was: seq<Inode>, now: seq<Inode>, deferred0: seq<Change>, deferred: seq<Change>) {
    |was| == |now| && forall n :: 0 <= n < |was| ==> StateAt(n, s, was, now, deferred0, deferred)
  }

  lemma StatesStart(was: seq<Inode>, deferred: seq<Change>)
    ensures States([], was, was, deferred, deferred)
  {
  }

  lemma StatesStep(s: seq<Change>, was: seq<Inode>, now: seq<Inode>, next: seq<Inode>, deferred0: seq<Change>, deferred: seq<Change>, e: Change, ok: bool)
    requires |was| > 0 && States(s, was, now, deferred0, deferred)
    requires ok == (now[SlotOf(e, |was|)].id != 0)
    requires var n := SlotOf(e, |was|); next == if ok then now[n := ApplyChange(e, now[n])] else now
    ensures States(s + [e], was, next, deferred0, if ok then deferred else deferred + [e])
  {
    hide Keep, SlotOf, SlotState, ApplyChange;
    var s', deferred' := s + [e], if ok then deferred else deferred + [e];
    forall n | 0 <= n < |was| ensures StateAt(n, s', was, next, deferred0, deferred') {
      var p := InSlot(n, |was|);
      assert StateAt(n, s, was, now, deferred0, deferred);
      KeepAppend(s, e, p);
      KeepAppend(deferred, e, p);
      SlotStep(Keep(s, p), was[n], now[n], Keep(deferred0, p), Keep(deferred, p), e);
    }
  }

  /** One bucket, in (inode, version) order: every slot gets its changes, or, while it is empty,
      all of them are deferred. */
  method ApplyBucket(region: InodeRegion, bucket: seq<Change>, deferred0: seq<Change>) returns (deferred: seq<Change>)
    requires region.Valid()
    modifies region.cache, region.cache.pool, region.cache.pageSlots
    ensures region.Valid() && region.MaxInodes() == old(region.MaxInodes())
    ensures States(bucket, old(region.Slots()), region.Slots(), deferred0, deferred)
    ensures LinksCounted(bucket, old(region.Slots()), region.Slots())
  {
    hide States, ApplyChange, Linked, Chained, Partition, Indexed, View, Flat;
    deferred := deferred0;
    ghost var was := region.Slots();
    StatesStart(was, deferred0);
    for k := 0 to |bucket|
      invariant region.Valid() && region.MaxInodes() == old(region.MaxInodes())
      invariant States(bucket[..k], was, region.Slots(), deferred0, deferred)
    {
      var e := bucket[k];
      ghost var now := region.Slots();
      var ok := region.MutateInode(e.inode, i => ApplyChange(e, i));
      StatesStep(bucket[..k], was, now, region.Slots(), deferred0, deferred, e, ok);
      assert bucket[..k + 1] == bucket[..k] + [e];
      if !ok {
        deferred := deferred + [e];
      }
    }
    assert bucket[..|bucket|] == bucket;
    StatesCounted(bucket, was, region.Slots(), deferred0, deferred);
  }

  /** The link count of every occupied slot follows the links and unlinks among its changes. */
  ghost predicate LinksCounted(s: seq<Change>, was: seq<Inode>, now: seq<Inode>) {
    |was| == |now| && forall n :: 0 <= n < |was| && was[n].id != 0 ==> now[n].nlink == Counted(was[n].nlink, Steps(Keep(s, InSlot(n, |was|))))
  }

  lemma StatesCounted(s: seq<Change>, was: seq<Inode>, now: seq<Inode>, deferred0: seq<Change>, deferred: seq<Change>)
    requires States(s, was, now, deferred0, deferred)
    ensures LinksCounted(s, was, now)
  {
    hide Keep, Replay, Counted, Steps;
    forall n | 0 <= n < |was| && was[n].id != 0 ensures now[n].nlink == Counted(was[n].nlink, Steps(Keep(s, InSlot(n, |was|)))) {
      assert StateAt(n, s, was, now, deferred0, deferred);
      LinkReplay(Keep(s, InSlot(n, |was|)), was[n]);
    }
  }

  /** The changes of slot n in the order they are applied. */
  ghost function Queue(entries: seq<Change>, n: nat, max: nat): seq<Change>
    requires max > 0
  {
    Sort(Keep(entries, InSlot(n, max)))
  }

  ghost predicate PageState(n: nat, entries: seq<Change>, done: set<nat>, was: seq<Inode>, now: seq<Inode>, deferred: seq<Change>)
    requires n < |was| == |now|
  {
    SlotState(if PageOf(n) in done then Queue(entries, n, |was|) else [], was[n], now[n], [], Keep(deferred, InSlot(n, |was|)))
  }

  /** The region and the deferred changes once the pages in `done` have been processed. */
  ghost predicate PagesDone(entries: seq<Change>, done: set<nat>, was: seq<Inode>, now: seq<Inode>, deferred: seq<Change>) {
    |was| == |now| && forall n :: 0 <= n < |was| ==> PageState(n, entries, done, was, now, deferred)
  }

  /** A bucket holds all changes of its slots and no others. */
  lemma BucketSlot(buckets: map<nat, seq<Change>>, entries: seq<Change>, p: nat, n: nat, max: nat)
    requires max > 0 && BucketsOk(buckets, entries, max) && p in buckets
    ensures Keep(Sort(buckets[p]), InSlot(n, max)) == if PageOf(n) == p then Queue(entries, n, max) else []
  {
    hide Keep, Sort, PageOf, SlotOf;
    var b := buckets[p];
    assert b == Keep(entries, InPageOf(p, max));
    KeepSort(b, InSlot(n, max));
    if PageOf(n) == p {
      KeepTwice(entries, InPageOf(p, max), InSlot(n, max));
    } else {
      forall x | x in Sort(b) ensures !InSlot(n, max)(x) {
        SortMember(b, x);
        KeepMember(entries, InPageOf(p, max), x);
      }
      KeepNothing(Sort(b), InSlot(n, max));
    }
  }

  lemma PageStep(buckets: map<nat, seq<Change>>, entries: seq<Change>, done: set<nat>, p: nat, was: seq<Inode>, mid: seq<Inode>, now: seq<Inode>, deferred: seq<Change>, deferred': seq<Change>)
    requires |was| > 0 && BucketsOk(buckets, entries, |was|) && p in buckets && p !in done
    requires PagesDone(entries, done, was, mid, deferred)
    requires States(Sort(buckets[p]), mid, now, deferred, deferred')
    ensures PagesDone(entries, done + {p}, was, now, deferred')
  {
    hide Keep, Sort, PageOf, BucketsOk, Replay, Queue;
    forall n | 0 <= n < |was| ensures PageState(n, entries, done + {p}, was, now, deferred') {
      assert PageState(n, entries, done, was, mid, deferred);
      assert StateAt(n, Sort(buckets[p]), mid, now, deferred, deferred');
      BucketSlot(buckets, entries, p, n, |was|);
      ReplayNothing(was[n]);
      ReplayNothing(mid[n]);
    }
  }

  lemma ReplayNothing(i: Inode)
    ensures Replay([], i) == i
  {
  }

  lemma PagesStart(entries: seq<Change>, was: seq<Inode>)
    ensures PagesDone(entries, {}, was, was, [])
  {
  }

  /** What a cycle leaves behind for slot n, if its page was reached or not. */
  ghost predicate CutAt(n: nat, entries: seq<Change>, done: set<nat>, was: seq<Inode>, now: seq<Inode>, deferred: seq<Change>)
    requires n < |was| == |now|
  {
    if PageOf(n) in done && was[n].id != 0 then
      && now[n] == Replay(Queue(entries, n, |was|), was[n])
      && Keep(deferred, InSlot(n, |was|)) == []
    else
      && now[n] == was[n]
      && Keep(deferred, InSlot(n, |was|)) == Queue(entries, n, |was|)
  }

  ghost predicate Cut(entries: seq<Change>, done: set<nat>, was: seq<Inode>, now: seq<Inode>, deferred: seq<Change>) {
    |was| == |now| && forall n :: 0 <= n < |was| ==> CutAt(n, entries, done, was, now, deferred)
  }

  ghost predicate PutAt(n: nat, entries: seq<Change>, put: set<nat>, max: nat, deferred0: seq<Change>, deferred: seq<Change>)
    requires max > 0
  {
    Keep(deferred, InSlot(n, max)) == Keep(deferred0, InSlot(n, max)) + if PageOf(n) in put then Queue(entries, n, max) else []
  }

  /** The tail of the page loop: buckets past the deadline go back to the deferred list as they are. */
  method DeferRest(buckets: map<nat, seq<Change>>, rest: set<nat>, deferred0: seq<Change>, ghost entries: seq<Change>, ghost max: nat)
    returns (deferred: seq<Change>)
    requires max > 0 && BucketsOk(buckets, entries, max) && rest <= buckets.Keys
    ensures forall n :: PutAt(n, entries, rest, max, deferred0, deferred)
  {
    hide Keep, Sort, PageOf, BucketsOk, Queue;
    deferred := deferred0;
    var left := rest;
    ghost var put: set<nat> := {};
    while left != {}
      invariant left + put == rest && left !! put
      invariant forall n :: PutAt(n, entries, put, max, deferred0, deferred)
    {
      var p :| p in left;
      ghost var before, was := deferred, put;
      deferred, left, put := deferred + Sort(buckets[p]), left - {p}, put + {p};
      forall n ensures PutAt(n, entries, put, max, deferred0, deferred) {
        assert PutAt(n, entries, was, max, deferred0, before);
        KeepConcat(before, Sort(buckets[p]), InSlot(n, max));
        BucketSlot(buckets, entries, p, n, max);
      }
    }
  }

  lemma CutHolds(buckets: map<nat, seq<Change>>, entries: seq<Change>, done: set<nat>, rest: set<nat>, was: seq<Inode>, now: seq<Inode>, deferred0: seq<Change>, deferred: seq<Change>)
    requires |was| > 0 && BucketsOk(buckets, entries, |was|) && done + rest == buckets.Keys && done !! rest
    requires PagesDone(entries, done, was, now, deferred0)
    requires forall n :: PutAt(n, entries, rest, |was|, deferred0, deferred)
    ensures Cut(entries, done, was, now, deferred)
  {
    hide Keep, Sort, PageOf, Replay, Queue;
    forall n | 0 <= n < |was| ensures CutAt(n, entries, done, was, now, deferred) {
      assert PageState(n, entries, done, was, now, deferred0);
      assert PutAt(n, entries, rest, |was|, deferred0, deferred);
      ReplayNothing(was[n]);
      if PageOf(n) !in buckets {
        NoQueue(buckets, entries, n, |was|);
      }
    }
  }

  lemma NoQueue(buckets: map<nat, seq<Change>>, entries: seq<Change>, n: nat, max: nat)
    requires max > 0 && BucketsOk(buckets, entries, max) && PageOf(n) !in buckets
    ensures Queue(entries, n, max) == []
  {
    hide Keep, PageOf, SlotOf;
    var p := PageOf(n);
    assert Keep(entries, InPageOf(p, max)) == [];
    forall x | x in entries ensures !InSlot(n, max)(x) {
      KeepMember(entries, InPageOf(p, max), x);
    }
    KeepNothing(entries, InSlot(n, max));
  }

  /** The page loop, its deadline after `budget` buckets, and the deferral of the buckets that
      were not reached.  Buckets are taken in any order. */
  method ApplyBuckets(region: InodeRegion, entries: seq<Change>, buckets: map<nat, seq<Change>>, budget: nat)
    returns (deferred: seq<Change>, hit: bool, ghost done: set<nat>)
    requires region.Valid() && region.MaxInodes() > 0 && BucketsOk(buckets, entries, region.MaxInodes())
    modifies region.cache, region.cache.pool, region.cache.pageSlots
    ensures region.Valid() && region.MaxInodes() == old(region.MaxInodes())
    ensures Cut(entries, done, old(region.Slots()), region.Slots(), deferred)
    ensures done <= buckets.Keys && (hit ==> |done| >= budget) && (!hit ==> done == buckets.Keys)
  {
    hide PagesDone, States, BucketsOk, Cut, PutAt, Sort, Linked, Chained, Partition, Indexed, View, Flat;
    ghost var was := region.Slots();
    deferred, hit, done := [], false, {};
    PagesStart(entries, was);
    var left, taken := buckets.Keys, 0;
    while left != {}
      invariant region.Valid() && region.MaxInodes() == old(region.MaxInodes())
      invariant done + left == buckets.Keys && done !! left && taken == |done|
      invariant PagesDone(entries, done, was, region.Slots(), deferred) && !hit
      decreases |left|
    {
      var p :| p in left;
      ghost var mid, before := region.Slots(), deferred;
      deferred := ApplyBucket(region, Sort(buckets[p]), deferred);
      PageStep(buckets, entries, done, p, was, mid, region.Slots(), before, deferred);
      left, done, taken := left - {p}, done + {p}, taken + 1;
      if taken >= budget {
        hit := true;
        break;
      }
    }
    ghost var applied := deferred;
    deferred := DeferRest(buckets, left, deferred, entries, region.MaxInodes());
    CutHolds(buckets, entries, done, left, was, region.Slots(), applied, deferred);
  }

  // ---- Whole cycles ----

  /** Inodes in flight occupy different slots of the region. */
  ghost predicate Apart(s: seq<Change>, max: nat)
    requires max > 0
  {
    forall x, y :: x in s && y in s && SlotOf(x, max) == SlotOf(y, max) ==> x.inode == y.inode
  }

  /** Changes of one inode carry different versions. */
  ghost predicate VersionsDiffer(s: seq<Change>) {
    forall i, j :: 0 <= i < j < |s| && s[i].inode == s[j].inode ==> s[i].version != s[j].version
  }

  /** What the source takes for granted about the changes waiting at a server. */
  ghost predicate RemoteOk(s: seq<Change>, max: nat)
    requires max > 0
  {
    Apart(s, max) && VersionsDiffer(s)
  }

  /** The deferred changes stand for the raw ones not applied yet, slot by slot. */
  ghost predicate Stands(raw: seq<Change>, deferred: seq<Change>, max: nat)
    requires max > 0
  {
    && Inodes(deferred) == Inodes(raw)
    && forall n :: Same(Keep(raw, InSlot(n, max)), Keep(deferred, InSlot(n, max)))
  }

  lemma InodesConcat(s: seq<Change>, t: seq<Change>)
    ensures Inodes(s + t) == Inodes(s) + Inodes(t)
  {
    var u := s + t;
    forall id | id in Inodes(s) + Inodes(t) ensures id in Inodes(u) {
      if x :| x in s && x.inode == id {
        assert x in u;
      } else {
        var y :| y in t && y.inode == id;
        assert y in u;
      }
    }
  }

  lemma StandsExtend(raw: seq<Change>, deferred: seq<Change>, drained: seq<Change>, max: nat)
    requires max > 0 && Stands(raw, deferred, max)
    ensures Stands(raw + drained, deferred + drained, max)
  {
    hide Same, Keep, SlotOf, Inodes;
    var r, d := raw + drained, deferred + drained;
    InodesConcat(raw, drained);
    InodesConcat(deferred, drained);
    forall n ensures Same(Keep(r, InSlot(n, max)), Keep(d, InSlot(n, max))) {
      var p := InSlot(n, max);
      KeepConcat(raw, drained, p);
      KeepConcat(deferred, drained, p);
      SameExtend(Keep(raw, p), Keep(deferred, p), Keep(drained, p));
    }
  }

  lemma SlotOfInode(raw: seq<Change>, s: seq<Change>, e: Change, max: nat)
    requires max > 0 && Apart(raw, max) && Inodes(s) <= Inodes(raw) && e in raw
    ensures Keep(s, InSlot(SlotOf(e, max), max)) == Keep(s, Of(e.inode))
  {
    hide Keep;
    var p, q := InSlot(SlotOf(e, max), max), Of(e.inode);
    forall x | x in s ensures p(x) == q(x) {
      assert x.inode in Inodes(s);
      var y :| y in raw && y.inode == x.inode;
    }
    KeepSame(s, p, q);
  }

  lemma StandsCoalesced(raw: seq<Change>, entries: seq<Change>, out: seq<Change>, max: nat)
    requires max > 0 && Apart(raw, max) && Stands(raw, entries, max) && Inodes(out) == Inodes(entries)
    requires forall id :: Same(Keep(entries, Of(id)), Keep(out, Of(id)))
    ensures Stands(raw, out, max)
  {
    hide Keep, SlotOf, Apart, Links, LatestOf, Total, Sort;
    forall n ensures Same(Keep(raw, InSlot(n, max)), Keep(out, InSlot(n, max))) {
      assert Same(Keep(raw, InSlot(n, max)), Keep(entries, InSlot(n, max)));
      if e :| e in raw && SlotOf(e, max) == n {
        SlotOfInode(raw, entries, e, max);
        SlotOfInode(raw, out, e, max);
        assert Same(Keep(entries, Of(e.inode)), Keep(out, Of(e.inode)));
      } else {
        SlotUnused(raw, raw, n, max);
        SlotUnused(raw, out, n, max);
      }
    }
  }

  lemma SlotUnused(raw: seq<Change>, s: seq<Change>, n: nat, max: nat)
    requires max > 0 && Inodes(s) <= Inodes(raw) && forall e :: e in raw ==> SlotOf(e, max) != n
    ensures Keep(s, InSlot(n, max)) == []
  {
    hide Keep;
    forall x | x in s ensures !InSlot(n, max)(x) {
      assert x.inode in Inodes(s);
      var y :| y in raw && y.inode == x.inode;
      assert SlotOf(y, max) != n;
    }
    KeepNothing(s, InSlot(n, max));
  }

  lemma SlotBatch(raw: seq<Change>, s: seq<Change>, n: nat, max: nat)
    requires max > 0 && Apart(raw, max) && Inodes(s) <= Inodes(raw)
    ensures OneInode(Keep(s, InSlot(n, max)))
    ensures OnePerKey(s) ==> OnePerKey(Keep(s, InSlot(n, max)))
    ensures VersionsDiffer(s) ==> Distinct(Keep(s, InSlot(n, max)))
  {
    hide Keep, SlotOf;
    var k := Keep(s, InSlot(n, max));
    forall x, y | x in k && y in k ensures x.inode == y.inode {
      KeepMember(s, InSlot(n, max), x);
      KeepMember(s, InSlot(n, max), y);
      SameSlot(raw, s, x, y, max);
    }
    forall i, j | 0 <= i < j < |k|
      ensures OnePerKey(s) && k[i].op == k[j].op ==> !Coalescable(k[i].op)
      ensures VersionsDiffer(s) ==> !Clash(k[i], k[j])
    {
      assert k[i] in k && k[j] in k;
      var i', j' := KeepOrder(s, InSlot(n, max), i, j);
    }
  }

  lemma SameSlot(raw: seq<Change>, s: seq<Change>, x: Change, y: Change, max: nat)
    requires max > 0 && Apart(raw, max) && Inodes(s) <= Inodes(raw) && x in s && y in s && SlotOf(x, max) == SlotOf(y, max)
    ensures x.inode == y.inode
  {
    assert x.inode in Inodes(s) && y.inode in Inodes(s);
    var x' :| x' in raw && x'.inode == x.inode;
    var y' :| y' in raw && y'.inode == y.inode;
    assert SlotOf(x', max) == SlotOf(y', max);
  }

  /** What a cycle does for slot n, in terms of all raw changes drained for it since its last
      application: either all of them at once, as if in version order, or nothing. */
  ghost predicate CycleAt(n: nat, raw: seq<Change>, done: set<nat>, was: seq<Inode>, now: seq<Inode>, backlog: seq<Change>)
    requires n < |was| == |now|
  {
    var mine := Keep(raw, InSlot(n, |was|));
    if PageOf(n) in done && was[n].id != 0 then
      && now[n] == Outcome(Sort(Links(mine)), LatestOf(mine, SetMode), LatestOf(mine, TouchCtime), AddClamped(was[n].extra, Total(mine)), was[n])
      && (now[n] == Replay(Sort(mine), was[n]) <==> NetIsExact(was[n].extra, Deltas(Sort(mine))))
      && Keep(backlog, InSlot(n, |was|)) == []
    else
      && now[n] == was[n]
      && Keep(backlog, InSlot(n, |was|)) == mine
  }

  function Waiting(applied: set<nat>, max: nat): Change -> bool
    requires max > 0
  {
    (e: Change) => SlotOf(e, max) !in applied
  }

  lemma CycleHolds(n: nat, raw: seq<Change>, out: seq<Change>, done: set<nat>, applied: set<nat>, was: seq<Inode>, now: seq<Inode>, deferred: seq<Change>)
    requires n < |was| && Apart(raw, |was|) && VersionsDiffer(raw) && Stands(raw, out, |was|) && OnePerKey(out)
    requires Cut(out, done, was, now, deferred)
    requires n in applied <==> PageOf(n) in done && was[n].id != 0
    ensures var backlog := Keep(raw, Waiting(applied, |was|));
            && CycleAt(n, raw, done, was, now, backlog)
            && Same(Keep(backlog, InSlot(n, |was|)), Keep(deferred, InSlot(n, |was|)))
  {
    hide Keep, SlotOf, Apart, VersionsDiffer, OnePerKey, Replay, Sort, PageOf, Links, LatestOf, Total, Deltas, NetIsExact, AddClamped;
    var max := |was|;
    var mine, b := Keep(raw, InSlot(n, max)), Keep(out, InSlot(n, max));
    assert Same(mine, b) && CutAt(n, out, done, was, now, deferred);
    SlotBatch(raw, raw, n, max);
    SlotBatch(raw, out, n, max);
    if n in applied {
      CoalescedReplay(mine, b, was[n]);
      InVersionOrder(mine, was[n]);
      WaitingNone(raw, applied, n, max);
      SameNothing();
    } else {
      KeepTwice(raw, Waiting(applied, max), InSlot(n, max));
      OneInodeDistinct(b);
      SameSort(b);
    }
  }

  lemma SameNothing()
    ensures Same([], [])
  {
  }

  lemma WaitingNone(raw: seq<Change>, applied: set<nat>, n: nat, max: nat)
    requires max > 0 && n in applied
    ensures Keep(Keep(raw, Waiting(applied, max)), InSlot(n, max)) == []
  {
    hide Keep;
    var w := Keep(raw, Waiting(applied, max));
    forall x | x in w ensures !InSlot(n, max)(x) {
      KeepMember(raw, Waiting(applied, max), x);
    }
    KeepNothing(w, InSlot(n, max));
  }

  /** A deferred change has its inode among those still waiting. */
  lemma DeferredWaits(e: Change, raw: seq<Change>, out: seq<Change>, done: set<nat>, applied: set<nat>, was: seq<Inode>, now: seq<Inode>, deferred: seq<Change>)
    requires |was| > 0 && Inodes(out) <= Inodes(raw) && Cut(out, done, was, now, deferred) && e in deferred
    requires forall n :: 0 <= n < |was| ==> (n in applied <==> PageOf(n) in done && was[n].id != 0)
    ensures e.inode in Inodes(Keep(raw, Waiting(applied, |was|)))
  {
    hide Keep, Sort, Replay, PageOf;
    var max := |was|;
    var n := SlotOf(e, max);
    assert CutAt(n, out, done, was, now, deferred);
    KeepMember(deferred, InSlot(n, max), e);
    assert n !in applied && e in Queue(out, n, max);
    SortMember(Keep(out, InSlot(n, max)), e);
    KeepMember(out, InSlot(n, max), e);
    assert e.inode in Inodes(out);
    var y :| y in raw && y.inode == e.inode;
    KeepMember(raw, Waiting(applied, max), y);
  }

  /** And every inode still waiting has a deferred change. */
  lemma WaitingDeferred(y: Change, raw: seq<Change>, out: seq<Change>, done: set<nat>, applied: set<nat>, was: seq<Inode>, now: seq<Inode>, deferred: seq<Change>)
    requires |was| > 0 && Inodes(raw) <= Inodes(out) && Cut(out, done, was, now, deferred)
    requires forall n :: 0 <= n < |was| ==> (n in applied <==> PageOf(n) in done && was[n].id != 0)
    requires y in Keep(raw, Waiting(applied, |was|))
    ensures y.inode in Inodes(deferred)
  {
    hide Keep, Sort, Replay, PageOf;
    var max := |was|;
    KeepMember(raw, Waiting(applied, max), y);
    var n := SlotOf(y, max);
    assert CutAt(n, out, done, was, now, deferred);
    assert y.inode in Inodes(raw);
    var e :| e in out && e.inode == y.inode;
    KeepMember(out, InSlot(n, max), e);
    SortMember(Keep(out, InSlot(n, max)), e);
    KeepMember(deferred, InSlot(n, max), e);
  }

  lemma CycleDone(raw: seq<Change>, out: seq<Change>, done: set<nat>, applied: set<nat>, was: seq<Inode>, now: seq<Inode>, deferred: seq<Change>)
    requires |was| > 0 && Apart(raw, |was|) && VersionsDiffer(raw) && Stands(raw, out, |was|) && OnePerKey(out)
    requires Cut(out, done, was, now, deferred)
    requires forall n :: 0 <= n < |was| ==> (n in applied <==> PageOf(n) in done && was[n].id != 0)
    ensures |now| == |was| && Stands(Keep(raw, Waiting(applied, |was|)), deferred, |was|)
    ensures forall n :: 0 <= n < |was| ==> CycleAt(n, raw, done, was, now, Keep(raw, Waiting(applied, |was|)))
  {
    hide Keep, Apart, VersionsDiffer, OnePerKey, PageOf, CycleAt, Same;
    var max, backlog := |was|, Keep(raw, Waiting(applied, |was|));
    forall n | 0 <= n < max ensures CycleAt(n, raw, done, was, now, backlog) {
      CycleHolds(n, raw, out, done, applied, was, now, deferred);
    }
    forall n: nat ensures Same(Keep(backlog, InSlot(n, max)), Keep(deferred, InSlot(n, max))) {
      if 0 <= n < max {
        CycleHolds(n, raw, out, done, applied, was, now, deferred);
      } else {
        KeepNothing(backlog, InSlot(n, max));
        KeepNothing(deferred, InSlot(n, max));
        SameNothing();
      }
    }
    forall id | id in Inodes(deferred) ensures id in Inodes(backlog) {
      var e :| e in deferred && e.inode == id;
      DeferredWaits(e, raw, out, done, applied, was, now, deferred);
    }
    forall id | id in Inodes(backlog) ensures id in Inodes(deferred) {
      var y :| y in backlog && y.inode == id;
      WaitingDeferred(y, raw, out, done, applied, was, now, deferred);
    }
  }

  /** Every inode with a change has a page bucket. */
  lemma Reached(raw: seq<Change>, out: seq<Change>, buckets: map<nat, seq<Change>>, max: nat)
    requires max > 0 && BucketsOk(buckets, out, max) && Stands(raw, out, max)
    ensures forall e :: e in raw ==> PageOf(SlotOf(e, max)) in buckets
  {
    hide Keep, PageOf, Same;
    forall e | e in raw ensures PageOf(SlotOf(e, max)) in buckets {
      assert e.inode in Inodes(raw);
      var x :| x in out && x.inode == e.inode;
      var p := PageOf(SlotOf(e, max));
      KeepMember(out, InPageOf(p, max), x);
      assert x in Keep(out, InPageOf(p, max));
    }
  }

  ghost predicate NoneFor(s: seq<Change>, n: nat, max: nat)
    requires max > 0
  {
    forall e :: e in s ==> SlotOf(e, max) != n
  }

  /** A slot that no change is for stays as it is, whatever the other changes are like. */
  lemma SlotLeftAlone(entries: seq<Change>, out: seq<Change>, done: set<nat>, was: seq<Inode>, now: seq<Inode>, deferred: seq<Change>, n: nat)
    requires n < |was| && Inodes(out) <= Inodes(entries) && Cut(out, done, was, now, deferred)
    requires NoneFor(entries, n, |was|)
    ensures now[n] == was[n]
  {
    hide Keep, SlotOf, PageOf, Replay;
    SlotUnused(entries, out, n, |was|);
    assert CutAt(n, out, done, was, now, deferred);
    ReplayNothing(was[n]);
  }

  lemma DeferredFrom(out: seq<Change>, done: set<nat>, was: seq<Inode>, now: seq<Inode>, deferred: seq<Change>)
    requires |was| > 0 && Cut(out, done, was, now, deferred)
    ensures Inodes(deferred) <= Inodes(out)
  {
    hide Keep, Sort, Replay, PageOf;
    var max := |was|;
    forall id | id in Inodes(deferred) ensures id in Inodes(out) {
      var e :| e in deferred && e.inode == id;
      var n := SlotOf(e, max);
      assert CutAt(n, out, done, was, now, deferred);
      KeepMember(deferred, InSlot(n, max), e);
      SortMember(Keep(out, InSlot(n, max)), e);
      KeepMember(out, InSlot(n, max), e);
    }
  }

  class RemoteReplay {
    const region: InodeRegion
    /** deferred_remote_ops_ */
    var deferred: seq<Change>
    /** Every change drained and not applied yet, as drained. */
    ghost var backlog: seq<Change>
    /** So far all drained changes met RemoteOk. */
    ghost var sound: bool

    ghost predicate Valid()
      reads this, region, region.cache, region.cache.pool, region.cache.pageSlots
    {
      region.Valid() && region.MaxInodes() > 0 && (sound ==> Stands(backlog, deferred, region.MaxInodes()))
    }

    constructor (region: InodeRegion)
      requires region.Valid()
      ensures Valid() && this.region == region && deferred == backlog == [] && sound
    {
      this.region, deferred, backlog, sound := region, [], [], true;
    }

    /** The remote phase of one checkpoint cycle. */
    method Cycle(drained: seq<Change>, budget: nat) returns (hit: bool, ghost done: set<nat>)
      requires Valid()
      modifies this, region.cache, region.cache.pool, region.cache.pageSlots
      ensures Valid() && region.MaxInodes() == old(region.MaxInodes())
      ensures sound == (old(sound) && RemoteOk(old(backlog) + drained, region.MaxInodes()))
      ensures sound ==> forall n :: 0 <= n < region.MaxInodes() ==>
                CycleAt(n, old(backlog) + drained, done, old(region.Slots()), region.Slots(), backlog)
      ensures hit ==> |done| >= budget
      ensures sound && !hit ==> forall e :: e in old(backlog) + drained ==> PageOf(SlotOf(e, region.MaxInodes())) in done
      ensures Inodes(deferred) <= Inodes(old(deferred) + drained)
      ensures forall n :: 0 <= n < region.MaxInodes() && NoneFor(old(deferred) + drained, n, region.MaxInodes()) ==>
                region.Slots()[n] == old(region.Slots())[n]
    {
      hide Stands, Cut, BucketsOk, Same, Apart, VersionsDiffer, OnePerKey, Linked, Chained, Partition, Indexed, View, Flat, SlotOf, PageOf, CycleAt;
      ghost var max, was, raw := region.MaxInodes(), region.Slots(), backlog + drained;
      sound := sound && RemoteOk(raw, max);
      if sound {
        StandsExtend(backlog, deferred, drained, max);
      }
      var entries := deferred + drained;
      var out := Coalesce(entries);
      if sound {
        StandsCoalesced(raw, entries, out, max);
      }
      var buckets := BucketByPage(out, region.MaxInodes());
      deferred, hit, done := ApplyBuckets(region, out, buckets, budget);
      ghost var now := region.Slots();
      DeferredFrom(out, done, was, now, deferred);
      forall n | 0 <= n < max && NoneFor(entries, n, max) ensures now[n] == was[n] {
        SlotLeftAlone(entries, out, done, was, now, deferred, n);
      }
      ghost var applied := set n | 0 <= n < max && PageOf(n) in done && was[n].id != 0;
      backlog := Keep(raw, Waiting(applied, max));
      if sound {
        CycleDone(raw, out, done, applied, was, now, deferred);
        Reached(raw, out, buckets, max);
      }
    }
  }
}
