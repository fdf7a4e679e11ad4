/** A run in which a server is lost: it joins one migration, does not act before the next one has
    begun, and from then on polling no longer brings it up to date. */
module LostServer {
  import opened Buckets
  import opened LevelTables
  import opened ProgressiveResize

  // ---- An overfull key forces a resize ----

  lemma {:induction false} ItemsAtMost(slots: seq<Slot>)
    ensures |Items(slots)| <= |slots|
    ensures (forall s :: 0 <= s < |slots| ==> slots[s].Empty?) ==> Items(slots) == multiset{}
  {
    if slots != [] {
      ItemsAtMost(slots[..|slots| - 1]);
      ItemsUnfold(slots);
    }
  }

  ghost function Below(homes: set<int>, j: int): set<int> {
    set a | a in homes && a < j
  }

  lemma {:induction false} AllAtMost(m: Memory, homes: set<int>)
    requires forall a :: 0 <= a < |m| ==> |m[a].slots| == SLOTS && (a in homes || BucketEmpty(m[a]))
    ensures |All(m)| <= SLOTS * |Below(homes, |m|)|
  {
    hide All, Items;
    if m == [] {
      NoItems();
    } else {
      var n := |m| - 1;
      AllAtMost(m[..n], homes);
      AllUnfold(m);
      ItemsAtMost(m[n].slots);
      if n in homes {
        assert Below(homes, n + 1) == Below(homes, n) + {n};
      } else {
        assert Below(homes, n + 1) == Below(homes, n);
      }
    }
  }

  /** Outside a migration one key has four candidate buckets, so at most 32 entries. */
  lemma KeyBound(hs: Hashing, lay: Layout, m: Memory, k: Key)
    requires Placed(hs, lay, m) && !lay.active && lay.tl.n >= 2 && lay.bl.n >= 2
    requires forall v :: v in All(m) ==> v.key == k
    ensures |All(m)| <= 4 * SLOTS
  {
    hide All, Placed, FIdx, SIdx, MakeFp;
    var homes := {lay.tl.off + FIdx(hs, k, lay.tl.n), lay.tl.off + SIdx(hs, k, lay.tl.n),
                  lay.bl.off + FIdx(hs, k, lay.bl.n), lay.bl.off + SIdx(hs, k, lay.bl.n)};
    forall a | 0 <= a < |m| ensures |m[a].slots| == SLOTS && (a in homes || BucketEmpty(m[a])) {
      PlacedAt(hs, lay, m, a);
      if s :| 0 <= s < |m[a].slots| && m[a].slots[s].Full? {
        assert Holds(m, a, s, m[a].slots[s].val);
        AllMember(m, m[a].slots[s].val);
      }
    }
    AllAtMost(m, homes);
    FourAtMost(homes, Below(homes, |m|), lay.tl.off + FIdx(hs, k, lay.tl.n), lay.tl.off + SIdx(hs, k, lay.tl.n),
               lay.bl.off + FIdx(hs, k, lay.bl.n), lay.bl.off + SIdx(hs, k, lay.bl.n));
  }

  lemma FourAtMost(homes: set<int>, some: set<int>, a: int, b: int, c: int, d: int)
    requires homes == {a, b, c, d} && some <= homes
    ensures |some| <= 4
  {
    assert some == some * {a} + some * {b} + some * {c} + some * {d};
    assert |some * {a}| <= |{a}| && |some * {b}| <= |{b}| && |some * {c}| <= |{c}| && |some * {d}| <= |{d}| by {
      Smaller(some * {a}, {a});
      Smaller(some * {b}, {b});
      Smaller(some * {c}, {c});
      Smaller(some * {d}, {d});
    }
  }

  lemma Smaller(x: set<int>, y: set<int>)
    requires x <= y
    ensures |x| <= |y|
  {
    assert y == x + (y - x);
  }

  /** Every entry of the table has key k. */
  ghost predicate OnlyKey(c: multiset<Value>, k: Key) {
    forall v :: v in c ==> v.key == k
  }

  /** Server 0 inserts one value until the table has grown.  Server 1 does not act, so that the
      migration this starts cannot end meanwhile. */
  method Overfill(c: Cluster, val: Value)
    requires c.Valid() && c.n == 2 && |c.srv| == 2 && c.meta.state == Normal && OnlyKey(All(c.tab.mem), val.key)
    modifies c, c.tab
    ensures c.Valid() && |c.srv| == 2 && c.IsSynced(0) && c.srv[1] == old(c.srv[1]) && OnlyKey(All(c.tab.mem), val.key)
    ensures c.meta.version == old(c.meta.version) + 1 && c.meta.state == Migrating && c.meta.initiator == 0
  {
    hide StateInv, All;
    ghost var v := c.meta.version;
    Sized(c);
    while c.meta.state == Normal
      invariant c.Valid() && |c.srv| == 2 && c.srv[1] == old(c.srv[1]) && OnlyKey(All(c.tab.mem), val.key)
      invariant c.meta.version == v + (if c.meta.state == Normal then 0 else 1)
      invariant c.meta.state == Migrating ==> c.IsSynced(0) && c.meta.initiator == 0
      decreases 4 * SLOTS + 1 - |All(c.tab.mem)|, c.meta.state == Normal
    {
      Room(c, val.key);
      var ok := c.Insert(0, val);
      Sized(c);
    }
  }

  lemma Sized(c: Cluster)
    requires c.Valid()
    ensures |c.srv| == c.n && forall j :: 0 <= j < c.n ==> c.srv[j].ver <= c.meta.version
  {
    forall j | 0 <= j < c.n ensures c.srv[j].ver <= c.meta.version {
      c.ServerAt(j);
    }
  }

  lemma Room(c: Cluster, k: Key)
    requires c.Valid() && c.meta.state == Normal && OnlyKey(All(c.tab.mem), k)
    ensures |All(c.tab.mem)| <= 4 * SLOTS
  {
    hide All, Placed, Sum;
    KeyBound(c.tab.hs, LayoutOf(c.meta), c.tab.mem, k);
  }

  /** Server 0 erases the value until none is left; the migration goes on. */
  method EraseAll(c: Cluster, k: Key)
    requires c.Valid() && c.n == 2 && |c.srv| == 2 && c.IsSynced(0) && OnlyKey(All(c.tab.mem), k)
    requires c.meta.state == Migrating && c.srv[1].ver < c.meta.version
    modifies c, c.tab
    ensures c.Valid() && |c.srv| == 2 && c.IsSynced(0) && c.srv[1] == old(c.srv[1]) && All(c.tab.mem) == multiset{}
    ensures c.meta.version == old(c.meta.version) && c.meta.state == Migrating && c.meta.initiator == old(c.meta.initiator)
  {
    hide StateInv, All;
    var found := true;
    while found
      invariant c.Valid() && |c.srv| == 2 && c.IsSynced(0) && c.srv[1] == old(c.srv[1]) && OnlyKey(All(c.tab.mem), k)
      invariant c.meta.version == old(c.meta.version) && c.meta.state == Migrating && c.meta.initiator == old(c.meta.initiator)
      invariant !found ==> All(c.tab.mem) == multiset{}
      decreases |All(c.tab.mem)|, found
    {
      ghost var before := All(c.tab.mem);
      var was := c.Change(0, k, Remove);
      found := was.Some?;
      Sized(c);
      if !found {
        assert forall v :: v !in before;
      }
    }
  }

  /** Migration work server i still has to do. */
  function Work(s: Server): int {
    if s.rangeDone then 0 else 1 + if s.cursor < s.rangeEnd then s.rangeEnd - s.cursor else 0
  }

  lemma WorkDone(s: Server, s': Server, m: Memory)
    requires Moved(s, s', m) && s.state == Migrating && All(m) == multiset{}
    ensures s'.ver == s.ver && s'.begun == s.begun && s'.state == Migrating
    ensures if s.rangeDone then s' == s else Work(s') < Work(s)
  {
    hide All;
    if !s.rangeDone && s.cursor < s.rangeEnd {
      var b := m[s.lay.ob.off + s.cursor];
      if j :| 0 <= j < |b.slots| && b.slots[j].Full? {
        assert Holds(m, s.lay.ob.off + s.cursor, j, b.slots[j].val);
        AllMember(m, b.slots[j].val);
      }
    }
  }

  lemma {:induction false} AllDone(srv: seq<Server>, version: nat)
    requires forall j :: 0 <= j < |srv| ==> Reported(srv[j], version)
    ensures CountDone(srv, version) == |srv|
  {
    if srv != [] {
      AllDone(srv[..|srv| - 1], version);
    }
  }

  /** Once both are done, both have reported. */
  lemma BothReported(c: Cluster)
    requires c.Valid() && c.n == 2 && |c.srv| == 2 && c.IsSynced(0) && c.IsSynced(1) && c.meta.state == Migrating
    requires c.srv[0].rangeDone && c.srv[1].rangeDone
    ensures c.meta.done >= c.meta.nMds
  {
    hide Placed, All, Sum, CountDone;
    c.ServerAt(0);
    c.ServerAt(1);
    AllDone(c.srv, c.meta.version);
  }

  /** A lookup by one server during a migration of an empty table. */
  method Turn(c: Cluster, k: Key, i: nat)
    requires c.Valid() && c.n == 2 && |c.srv| == 2 && c.IsSynced(0) && c.IsSynced(1) && All(c.tab.mem) == multiset{} && i < 2
    requires c.meta.state == Migrating && c.meta.initiator == 0
    modifies c, c.tab
    ensures c.Valid() && |c.srv| == 2 && c.srv[1 - i] == old(c.srv[1 - i]) && All(c.tab.mem) == multiset{}
    ensures c.meta.version == old(c.meta.version) || (i == 0 && c.meta.version == old(c.meta.version) + 1 && c.meta.state == Normal)
    ensures c.meta.version == old(c.meta.version) ==>
              && c.IsSynced(i) && c.srv[i].begun && c.meta.state == Migrating && c.meta.initiator == 0
              && (if old(c.srv[i]).rangeDone then c.srv[i] == old(c.srv[i]) else Work(c.srv[i]) < Work(old(c.srv[i])))
    ensures old(c.srv[0]).rangeDone && old(c.srv[1]).rangeDone && i == 0 ==> c.meta.version != old(c.meta.version)
  {
    hide StateInv, All, Moved;
    c.ServerAt(i);
    c.Idle(0);
    ghost var s := c.srv[i];
    assert s.state == Migrating;
    var r := c.Find(i, k);
    Sized(c);
    if c.meta.version == old(c.meta.version) {
      WorkDone(s, c.srv[i], c.tab.mem);
      c.Idle(i);
      if c.srv[0].rangeDone && c.srv[1].rangeDone {
        BothReported(c);
      }
    }
  }

  /** Both servers take turns until server 0, the initiator, ends the migration.  Server 1 has taken
      part in it and has not seen its end. */
  method Finish(c: Cluster, k: Key)
    requires c.Valid() && c.n == 2 && |c.srv| == 2 && c.IsSynced(0) && c.IsSynced(1) && All(c.tab.mem) == multiset{}
    requires c.meta.state == Migrating && c.meta.initiator == 0
    modifies c, c.tab
    ensures c.Valid() && |c.srv| == 2 && All(c.tab.mem) == multiset{}
    ensures c.meta.state == Normal && c.meta.version == old(c.meta.version) + 1
    ensures c.srv[1].begun && c.srv[1].ver == old(c.meta.version)
  {
    hide StateInv, All, Moved, Acted;
    c.Idle(1);
    var v := c.meta.version;
    while c.meta.version == v
      invariant c.Valid() && |c.srv| == 2 && All(c.tab.mem) == multiset{}
      invariant c.srv[1].begun && c.srv[1].ver == v
      invariant c.meta.version == v ==> c.IsSynced(0) && c.meta.state == Migrating && c.meta.initiator == 0
      invariant c.meta.version != v ==> c.meta.state == Normal && c.meta.version == v + 1
      decreases c.meta.version == v, Work(c.srv[0]) + Work(c.srv[1])
    {
      Turn(c, k, 1);
      Turn(c, k, 0);
    }
  }

  /** The run: server 0 fills the table until it grows and empties it again, server 1 joins the
      migration, server 0 ends it and fills the table until it grows once more.  Server 1 is lost:
      polling leaves it as it is. */
  method MissedFinalize(hs: Hashing, val: Value) returns (c: Cluster)
    ensures fresh(c) && fresh(c.tab) && c.Valid() && |c.srv| == 2 && !c.IsCurrent(1)
    ensures Poll(c.srv[1], c.meta, c.meta.version, 1) == c.srv[1] && c.srv[1].ver + 2 == c.meta.version
  {
    hide StateInv, All;
    c := new Cluster(hs, 4, 2);
    Sized(c);
    Overfill(c, val);
    EraseAll(c, val.key);
    c.Idle(0);
    var r := c.Find(1, val.key);
    Sized(c);
    Finish(c, val.key);
    Overfill(c, val);
  }
}
