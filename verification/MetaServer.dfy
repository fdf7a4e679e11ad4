/** A metadata server as its clients see it: its log and regions, its clock, and the listings it has
    staged. */
module MetaServers {
  import opened PageCaches
  import opened DentRegions
  import opened WalEvents
  import opened RemoteChanges
  import opened Coalescing
  import opened Forwarding
  import opened Checkpoints
  import Listing
  import Paging
  import Snapshot

  /** Each entry carries the version of its log slot. */
  predicate Stamped(ops: seq<LogOp>, vs: seq<nat>) {
    |ops| == |vs| && forall i :: 0 <= i < |ops| ==> ops[i].version == vs[i]
  }

  /** The events of a directory up to a cutoff. */
  ghost function Prior(ops: seq<LogOp>, dir: nat, cutoff: nat): set<Dent> {
    Elems(UpTo(History(ops, dir), cutoff))
  }

  /** Entries above the cutoff add nothing below it. */
  lemma {:induction false} PriorKept(ops: seq<LogOp>, late: seq<LogOp>, dir: nat, cutoff: nat)
    requires forall i :: 0 <= i < |late| ==> late[i].version > cutoff
    ensures Prior(ops + late, dir, cutoff) == Prior(ops, dir, cutoff)
  {
    hide History, UpTo;
    if late == [] {
      assert ops + late == ops;
    } else {
      var r, op := late[..|late| - 1], late[|late| - 1];
      PriorKept(ops, r, dir, cutoff);
      var all := (ops + r) + [op];
      assert ops + late == all && all[..|all| - 1] == ops + r;
      Listing.TailStep(all, dir, cutoff);
      assert UpTo(History(all, dir), cutoff) == UpTo(History(ops + r, dir), cutoff) + [];
    }
  }

  /** The entries a step makes readable extend the log, and lie above a cutoff that is final. */
  lemma Extended(s: Snapshot.Server, a: Snapshot.Action, ops: seq<LogOp>, late: seq<LogOp>)
    requires Snapshot.Inv(s) && Snapshot.Enabled(s, a) && Stamped(ops, Snapshot.Shown(s))
    requires var next := Snapshot.Next(s, a);
             |Snapshot.Shown(s)| <= |Snapshot.Shown(next)| && Stamped(late, Snapshot.Shown(next)[|Snapshot.Shown(s)|..])
    ensures var next := Snapshot.Next(s, a); Snapshot.Inv(next) && Stamped(ops + late, Snapshot.Shown(next))
  {
    hide Snapshot.Inv, Snapshot.Enabled, Snapshot.Next, Snapshot.Shown;
    Snapshot.StepInv(s, a);
    Snapshot.ShownGrows(s, a);
    var x, y := Snapshot.Shown(s), Snapshot.Shown(Snapshot.Next(s, a));
    assert forall i :: 0 <= i < |y| ==> y[i] == if i < |x| then x[i] else y[|x|..][i - |x|];
  }

  lemma AboveFinal(s: Snapshot.Server, a: Snapshot.Action, ops: seq<LogOp>, late: seq<LogOp>, dir: nat, cutoff: nat)
    requires Snapshot.Inv(s) && Snapshot.Enabled(s, a) && Snapshot.Passed(s, cutoff) && Snapshot.Quiet(s, cutoff)
    requires var next := Snapshot.Next(s, a);
             |Snapshot.Shown(s)| <= |Snapshot.Shown(next)| && Stamped(late, Snapshot.Shown(next)[|Snapshot.Shown(s)|..])
    ensures var next := Snapshot.Next(s, a); Snapshot.Passed(next, cutoff) && Snapshot.Quiet(next, cutoff)
    ensures Prior(ops + late, dir, cutoff) == Prior(ops, dir, cutoff)
  {
    hide Snapshot.Inv, Snapshot.Enabled, Snapshot.Next, Snapshot.Shown, Snapshot.Passed, Snapshot.Quiet, Prior;
    Snapshot.StepQuiet(s, a, cutoff);
    Snapshot.LateOnly(s, a, cutoff);
    var x, y := Snapshot.Shown(s), Snapshot.Shown(Snapshot.Next(s, a));
    forall i | 0 <= i < |late| ensures late[i].version > cutoff {
      assert late[i].version == y[|x|..][i] == y[|x| + i];
    }
    PriorKept(ops, late, dir, cutoff);
  }

  /** A step that its state allows, with one entry for every slot it makes readable. */
  predicate Possible(s: Snapshot.Server, a: Snapshot.Action, late: seq<LogOp>, n: nat) {
    && Snapshot.Enabled(s, a)
    && var shown, now := Snapshot.Shown(s), Snapshot.Shown(Snapshot.Next(s, a));
       |shown| <= |now| && Stamped(late, now[|shown|..]) && forall i :: 0 <= i < |late| ==> OpOk(late[i], n)
  }

  /** What can happen at a server between two requests of one client. */
  datatype Step =
    /** A step of some operation, and the entries it makes readable. */
    | Operate(a: Snapshot.Action, late: seq<LogOp>)
    | Receive(sender: nat, changes: seq<Change>)
    | Cycle(due: bool, mainBudget: nat, remoteBudget: nat)
    /** Another request's slices, or its two halves if it races with others. */
    | Request(dir: nat, cutoff: nat, size: nat, offset: nat)
    | Build(dir: nat, cutoff: nat)
    | Park(i: nat)
    | Sweep(expired: set<(nat, nat)>)

  /** No copy of the listing of `evs` under this key, staged or about to be, is stale. */
  ghost predicate NoneStale(staged: map<(nat, nat), seq<Dent>>, built: seq<((nat, nat), seq<Dent>)>,
                            dir: nat, cutoff: nat, evs: set<Dent>)
  {
    && ((dir, cutoff) in staged ==> Listing.Winners(staged[(dir, cutoff)], evs))
    && (forall i :: 0 <= i < |built| && built[i].0 == (dir, cutoff) ==> Listing.Winners(built[i].1, evs))
  }

  lemma BuiltMore(staged: map<(nat, nat), seq<Dent>>, built: seq<((nat, nat), seq<Dent>)>, x: ((nat, nat), seq<Dent>),
                  dir: nat, cutoff: nat, evs: set<Dent>)
    requires NoneStale(staged, built, dir, cutoff, evs) && (x.0 == (dir, cutoff) ==> Listing.Winners(x.1, evs))
    ensures NoneStale(staged, built + [x], dir, cutoff, evs)
  {
    hide Listing.Winners;
  }

  class MetaServer {
    const ckpt: Checkpointer
    const listings: Paging.PendingListings
    /** Listings built by requests that have not staged them yet. */
    var built: seq<((nat, nat), seq<Dent>)>
    var clock: Snapshot.Server

    ghost function Footprint(): set<object> {
      {this, listings, ckpt, ckpt.dents, ckpt.dents.cache, ckpt.dents.cache.pool, ckpt.dents.cache.pageSlots, ckpt.remote,
       ckpt.remote.region, ckpt.remote.region.cache, ckpt.remote.region.cache.pool, ckpt.remote.region.cache.pageSlots,
       ckpt.fw, ckpt.rwal, ckpt.rwal.ring}
    }

    /** The readable entries are those of the published prefix of the log. */
    ghost predicate Valid()
      reads Footprint()
    {
      ckpt.Valid() && Snapshot.Inv(clock) && Stamped(ckpt.ops, Snapshot.Shown(clock))
    }

    constructor (ckpt: Checkpointer, id: nat)
      requires ckpt.Valid() && ckpt.ops == [] && id < Snapshot.HybridClock.META
      ensures Valid() && this.ckpt == ckpt && clock == Snapshot.Boot(id) && fresh(listings) && listings.staged == map[] && built == []
    {
      hide ckpt.Valid;
      this.ckpt, clock, built := ckpt, Snapshot.Boot(id), [];
      listings := new Paging.PendingListings();
    }

    ghost function Evs(dir: nat, cutoff: nat): set<Dent>
      reads ckpt
    {
      Prior(ckpt.ops, dir, cutoff)
    }

    /** The clock has passed the cutoff and no operation can publish at or below it any more. */
    ghost predicate Final(cutoff: nat)
      reads this
    {
      Snapshot.Passed(clock, cutoff) && Snapshot.Quiet(clock, cutoff)
    }

    ghost predicate Current(dir: nat, cutoff: nat)
      reads this, ckpt, listings
    {
      NoneStale(listings.staged, built, dir, cutoff, Evs(dir, cutoff))
    }

    /** If the cutoff was final, it still is, the directory gained and lost no event at it, and no listing
        of it went stale. */
    twostate predicate Kept(dir: nat, cutoff: nat)
      reads this, ckpt, listings
    {
      old(Final(cutoff)) ==>
        && Final(cutoff) && Evs(dir, cutoff) == old(Evs(dir, cutoff))
        && (old(Current(dir, cutoff)) ==> Current(dir, cutoff))
    }

    twostate predicate Undisturbed()
      reads this, ckpt, listings
    {
      forall dir, cutoff :: Kept(dir, cutoff)
    }

    /** GetOrStage: the staged copy if there is one, and otherwise a listing collected now. */
    method GetOrStage(dir: nat, cutoff: nat) returns (entries: seq<Dent>)
      requires Valid()
      modifies listings
      ensures Valid() && Undisturbed() && listings.staged == old(listings.staged)[(dir, cutoff) := entries]
      ensures if (dir, cutoff) in old(listings.staged) then entries == old(listings.staged)[(dir, cutoff)]
              else Listing.Winners(entries, Evs(dir, cutoff))
    {
      hide Linked, Chained, Partition, Indexed, View, PageOk, Log, ChainOk, LaneOk, RingOk, Stands, OpOk, History, Outgoing, UpTo;
      hide Listing.Winners, Snapshot.Inv, Stamped, Snapshot.Passed, Snapshot.Quiet;
      if (dir, cutoff) in listings.staged {
        entries := listings.staged[(dir, cutoff)];
      } else {
        entries := Listing.CollectDentViews(ckpt.dents, dir, cutoff, ckpt.wal, ckpt.ops, ckpt.cp, ckpt.pos);
        listings.Stage(dir, cutoff, entries);
      }
    }

    /** GetDentViews: slices the listing `e`, which stays staged if and only if records were served and
        some remain. */
    method GetDentViews(dir: nat, cutoff: nat, size: nat, offset: nat) returns (chunk: seq<Dent>, written: nat, ghost e: seq<Dent>)
      requires Valid()
      modifies listings
      ensures Valid() && Undisturbed()
      ensures if (dir, cutoff) in old(listings.staged) then e == old(listings.staged)[(dir, cutoff)]
              else Listing.Winners(e, Evs(dir, cutoff))
      ensures listings.staged == if 0 < written && offset + written < Paging.Off(e, |e|) then old(listings.staged)[(dir, cutoff) := e]
                                 else old(listings.staged) - {(dir, cutoff)}
      ensures forall i: nat :: i <= |e| && offset == Paging.Off(e, i) ==> Paging.Sliced(e, i, size, chunk, written)
      ensures (forall i: nat :: i <= |e| ==> offset != Paging.Off(e, i)) ==> chunk == [] && written == 0
    {
      hide ckpt.Valid, Listing.Winners, Snapshot.Inv, Stamped, Snapshot.Passed, Snapshot.Quiet, Prior, Paging.Off, Paging.Sliced;
      var entries := GetOrStage(dir, cutoff);
      e := entries;
      var total;
      chunk, written, total := Paging.Slice(entries, size, offset);
      if !(0 < written && offset + written < total) {
        listings.Release(dir, cutoff);
      }
    }

    /** A request builds its listing outside the lock and stages it later. */
    method Build(dir: nat, cutoff: nat)
      requires Valid()
      modifies this`built
      ensures Valid() && Undisturbed()
      ensures |built| == |old(built)| + 1 && built[..|old(built)|] == old(built) && built[|old(built)|].0 == (dir, cutoff)
      ensures Listing.Winners(built[|old(built)|].1, Evs(dir, cutoff))
    {
      hide Linked, Chained, Partition, Indexed, View, PageOk, Log, ChainOk, LaneOk, RingOk, Stands, OpOk, History, Outgoing, UpTo;
      hide Listing.Winners, Snapshot.Inv, Stamped, Snapshot.Passed, Snapshot.Quiet, NoneStale;
      var entries := Listing.CollectDentViews(ckpt.dents, dir, cutoff, ckpt.wal, ckpt.ops, ckpt.cp, ckpt.pos);
      ghost var was := built;
      built := built + [((dir, cutoff), entries)];
      forall d, c ensures Kept(d, c) {
        if old(Current(d, c)) {
          BuiltMore(listings.staged, was, ((dir, cutoff), entries), d, c, Evs(d, c));
        }
      }
    }

    method PublishAll(late: seq<LogOp>)
      requires ckpt.Valid() && forall i :: 0 <= i < |late| ==> OpOk(late[i], ckpt.fw.n)
      modifies ckpt`wal, ckpt`ops
      ensures ckpt.Valid() && ckpt.ops == old(ckpt.ops) + late
    {
      hide ckpt.Valid, OpOk;
      for k := 0 to |late|
        invariant ckpt.Valid() && ckpt.ops == old(ckpt.ops) + late[..k]
      {
        ckpt.Publish(late[k]);
      }
      assert late[..|late|] == late;
    }

    /** A step of some operation.  `late` are the entries it makes readable, one for each slot by which
        the published prefix grows. */
    method Operate(a: Snapshot.Action, late: seq<LogOp>) returns (ok: bool)
      requires Valid()
      modifies this`clock, ckpt`wal, ckpt`ops
      ensures Valid() && Undisturbed()
      ensures ok <==> old(Possible(clock, a, late, ckpt.fw.n))
      ensures ok ==> Snapshot.Enabled(old(clock), a) && clock == Snapshot.Next(old(clock), a) && ckpt.ops == old(ckpt.ops) + late
      ensures !ok ==> clock == old(clock) && ckpt.ops == old(ckpt.ops)
    {
      hide Linked, Chained, Partition, Indexed, View, PageOk, Log, ChainOk, LaneOk, RingOk, Stands, OpOk, History, Outgoing, UpTo;
      hide Listing.Winners, Snapshot.Inv, Snapshot.Enabled, Snapshot.Next, Snapshot.Shown, Stamped, Snapshot.Passed, Snapshot.Quiet, Prior;
      hide ckpt.Valid, NoneStale;
      ok := Possible(clock, a, late, ckpt.fw.n);
      if !ok {
        return;
      }
      var next := Snapshot.Next(clock, a);
      ghost var ops := ckpt.ops;
      Extended(clock, a, ops, late);
      forall dir, cutoff | Final(cutoff)
        ensures Snapshot.Passed(next, cutoff) && Snapshot.Quiet(next, cutoff) && Prior(ops + late, dir, cutoff) == Prior(ops, dir, cutoff)
      {
        AboveFinal(clock, a, ops, late, dir, cutoff);
      }
      PublishAll(late);
      clock := next;
      forall dir, cutoff ensures Kept(dir, cutoff) {
        assert old(Final(cutoff)) ==> Prior(ops + late, dir, cutoff) == Prior(ops, dir, cutoff);
      }
    }

    /** The clock guard of a request that carries a clock of at least the cutoff: from now on the cutoff is
        final if and only if nothing was in flight at or below it. */
    method Admit(observed: nat, now: nat, cutoff: nat)
      requires Valid() && Snapshot.Enabled(clock, Snapshot.Action.Begin(observed, now)) && cutoff <= observed
      modifies this`clock
      ensures Valid() && Undisturbed() && clock == Snapshot.Next(old(clock), Snapshot.Action.Begin(observed, now))
      ensures Final(cutoff) <==> old(Snapshot.Quiet(clock, cutoff))
    {
      hide Snapshot.Inv, Snapshot.Passed, Snapshot.Quiet, Stamped, Prior, NoneStale, ckpt.Valid;
      var a := Snapshot.Action.Begin(observed, now);
      Snapshot.StepInv(clock, a);
      Snapshot.RequestPasses(clock, observed, now, cutoff);
      Snapshot.RequestQuiet(clock, observed, now, cutoff);
      forall c | Final(c) ensures Snapshot.Passed(Snapshot.Next(clock, a), c) && Snapshot.Quiet(Snapshot.Next(clock, a), c) {
        Snapshot.StepQuiet(clock, a, c);
      }
      assert Snapshot.Shown(Snapshot.Next(clock, a)) == Snapshot.Shown(clock);
      clock := Snapshot.Next(clock, a);
    }

    /** A checkpoint cycle, if the region has room for what it may append. */
    method Cycle(due: bool, mainBudget: nat, remoteBudget: nat)
      requires Valid()
      modifies Footprint() - {this, listings}
      ensures Valid() && Undisturbed() && ckpt.ops == old(ckpt.ops)
      ensures old(ckpt.dents.allocPos + 4 * (|ckpt.ops| - ckpt.pos) < |ckpt.dents.cache.flash|) ==>
                CycleBetween(old(ckpt.Now()), ckpt.Now(), ckpt.ops, ckpt.rwal.log, ckpt.fw.self, due, mainBudget, remoteBudget)
    {
      hide Linked, Chained, Partition, Indexed, View, PageOk, Log, ChainOk, LaneOk, RingOk, Stands, OpOk, History, Outgoing, UpTo;
      hide Listing.Winners, Snapshot.Inv, Stamped, Snapshot.Passed, Snapshot.Quiet, Prior, CycleBetween;
      ckpt.Bounds();
      if ckpt.dents.allocPos + 4 * (ckpt.cp + |ckpt.wal| - ckpt.pos) < |ckpt.dents.cache.flash| {
        ckpt.CycleStep(due, mainBudget, remoteBudget);
      }
    }

    method Receive(sender: nat, changes: seq<Change>) returns (take: nat)
      requires Valid()
      modifies ckpt.rwal, ckpt.rwal.ring
      ensures Valid() && Undisturbed()
      ensures take <= |changes| && ckpt.rwal.log == old(ckpt.rwal.log) + Tagged(sender, changes[..take])
    {
      hide Linked, Chained, Partition, Indexed, View, PageOk, Log, ChainOk, LaneOk, RingOk, Stands, OpOk, History, Outgoing, UpTo;
      hide Listing.Winners, Snapshot.Inv, Stamped, Snapshot.Passed, Snapshot.Quiet, Prior, ckpt.Valid;
      take := ckpt.Receive(sender, changes);
    }

    /** A request stages the listing it built. */
    method Park(i: nat)
      requires Valid()
      modifies listings
      ensures Valid() && Undisturbed()
      ensures listings.staged == if i < |built| then old(listings.staged)[built[i].0 := built[i].1] else old(listings.staged)
    {
      hide Listing.Winners, Snapshot.Inv, Stamped, Snapshot.Passed, Snapshot.Quiet, Prior, ckpt.Valid;
      if i < |built| {
        listings.Stage(built[i].0.0, built[i].0.1, built[i].1);
      }
    }

    method Sweep(expired: set<(nat, nat)>)
      requires Valid()
      modifies listings
      ensures Valid() && Undisturbed() && listings.staged == old(listings.staged) - expired
    {
      hide Listing.Winners, Snapshot.Inv, Stamped, Snapshot.Passed, Snapshot.Quiet, Prior, ckpt.Valid;
      listings.Sweep(expired);
    }

    /** Whatever a server does next keeps every final cutoff as it is. */
    method Do(step: Step)
      requires Valid()
      modifies Footprint()
      ensures Valid() && Undisturbed()
      ensures ckpt.ops == if step.Operate? && old(Possible(clock, step.a, step.late, ckpt.fw.n)) then old(ckpt.ops) + step.late else old(ckpt.ops)
      ensures step.Operate? && old(Possible(clock, step.a, step.late, ckpt.fw.n)) ==>
                Snapshot.Enabled(old(clock), step.a) && clock == Snapshot.Next(old(clock), step.a)
    {
      hide Valid, Undisturbed, Listing.Winners, Evs;
      match step {
        case Operate(a, late) =>
          var ok := Operate(a, late);
        case Receive(sender, changes) =>
          var take := Receive(sender, changes);
        case Cycle(due, mainBudget, remoteBudget) =>
          Cycle(due, mainBudget, remoteBudget);
        case Request(dir, cutoff, size, offset) =>
          var chunk, written;
          ghost var e;
          chunk, written, e := GetDentViews(dir, cutoff, size, offset);
        case Build(dir, cutoff) =>
          Build(dir, cutoff);
        case Park(i) =>
          Park(i);
        case Sweep(expired) =>
          Sweep(expired);
      }
    }
  }
}
