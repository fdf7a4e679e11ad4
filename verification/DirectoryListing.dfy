/** Listing a directory over all metadata servers: the client's paged drain of every server while the
    servers go on working, and the merge of what it got. */
module DirectoryListing {
  import opened DentRegions
  import opened WalEvents
  import opened Checkpoints
  import opened MetaServers
  import opened Directories
  import Listing
  import Paging
  import Snapshot

  // ---- One request, with anything happening before it ----

  /** This server can answer for the directory at the cutoff, and `evs` is what it has to answer. */
  ghost predicate Serves(s: MetaServer, dir: nat, cutoff: nat, evs: set<Dent>)
    reads s.Footprint()
  {
    s.Valid() && s.Final(cutoff) && s.Current(dir, cutoff) && s.Evs(dir, cutoff) == evs
  }

  method Wait(s: MetaServer, steps: seq<Step>, dir: nat, cutoff: nat, ghost evs: set<Dent>)
    requires Serves(s, dir, cutoff, evs)
    modifies s.Footprint()
    ensures Serves(s, dir, cutoff, evs)
  {
    hide s.Valid, s.Final, s.Current, s.Evs;
    for k := 0 to |steps|
      invariant Serves(s, dir, cutoff, evs)
    {
      label before:
      s.Do(steps[k]);
      assert s.Kept@before(dir, cutoff);
    }
  }

  /** However often the server has to collect the listing again, it answers from `canon`. */
  method Fetch(s: MetaServer, steps: seq<Step>, dir: nat, cutoff: nat, size: nat, offset: nat,
               ghost evs: set<Dent>, ghost canon: seq<Dent>)
    returns (chunk: seq<Dent>, written: nat)
    requires Serves(s, dir, cutoff, evs) && Listing.Decided(evs) && Listing.Winners(canon, evs)
    modifies s.Footprint()
    ensures Serves(s, dir, cutoff, evs)
    ensures forall i: nat :: i <= |canon| && offset == Paging.Off(canon, i) ==> Paging.Sliced(canon, i, size, chunk, written)
  {
    hide s.Valid, s.Final, s.Evs, Paging.Off, Paging.Sliced, Listing.Winners, Listing.Decided;
    Wait(s, steps, dir, cutoff, evs);
    ghost var e;
    chunk, written, e := s.GetDentViews(dir, cutoff, size, offset);
    assert Listing.Winners(e, evs);
    Listing.WinnersUnique(e, canon, evs);
  }

  // ---- The drain ----

  ghost function Reach(servers: seq<MetaServer>): set<object> {
    set m, o | 0 <= m < |servers| && o in servers[m].Footprint() :: o
  }

  /** The servers share nothing. */
  ghost predicate Apart(servers: seq<MetaServer>) {
    forall i, j :: 0 <= i < j < |servers| ==> servers[i].Footprint() !! servers[j].Footprint()
  }

  ghost predicate AllServe(servers: seq<MetaServer>, dir: nat, cutoff: nat, evs: seq<set<Dent>>)
    reads Reach(servers)
  {
    |evs| == |servers| && forall m :: 0 <= m < |servers| ==> Serves(servers[m], dir, cutoff, evs[m])
  }

  /** `canon` holds the one listing of every server. */
  ghost predicate Canonical(canon: seq<seq<Dent>>, evs: seq<set<Dent>>) {
    |canon| == |evs| && forall m :: 0 <= m < |evs| ==> Listing.Decided(evs[m]) && Listing.Winners(canon[m], evs[m])
  }

  datatype Stream = Stream(got: seq<Dent>, offset: nat, done: bool)

  ghost predicate Going(st: Stream, canon: seq<Dent>, size: nat, pos: nat) {
    Paging.Progress(canon, size, st.got, st.offset, st.done, pos)
  }

  /** One request for one stream. */
  method Pull(s: MetaServer, steps: seq<Step>, dir: nat, cutoff: nat, size: nat, st: Stream,
              ghost evs: set<Dent>, ghost canon: seq<Dent>, ghost pos: nat)
    returns (next: Stream, ghost pos': nat)
    requires Serves(s, dir, cutoff, evs) && Listing.Decided(evs) && Listing.Winners(canon, evs)
    requires Going(st, canon, size, pos) && !st.done
    modifies s.Footprint()
    ensures Serves(s, dir, cutoff, evs)
    ensures Going(next, canon, size, pos') && (next.done || pos' > pos)
  {
    hide Serves, Paging.Off, Paging.Sliced, Paging.Progress, Listing.Winners, Listing.Decided;
    Paging.AtRecord(canon, size, st.got, st.offset, st.done, pos);
    var chunk, written := Fetch(s, steps, dir, cutoff, size, st.offset, evs, canon);
    pos' := Paging.Advance(canon, size, st.got, st.offset, pos, chunk, written);
    next := Stream(st.got + chunk, st.offset + written, written == 0);
  }

  ghost predicate AllGoing(sts: seq<Stream>, canon: seq<seq<Dent>>, size: nat, pos: seq<nat>) {
    |sts| == |canon| == |pos| && forall m :: 0 <= m < |sts| ==> Going(sts[m], canon[m], size, pos[m])
  }

  /** The same among all servers: the others notice nothing. */
  method PullOne(servers: seq<MetaServer>, m: nat, steps: seq<Step>, dir: nat, cutoff: nat, size: nat, st: Stream,
                 ghost evs: seq<set<Dent>>, ghost canon: seq<Dent>, ghost pos: nat)
    returns (next: Stream, ghost pos': nat)
    requires Apart(servers) && AllServe(servers, dir, cutoff, evs) && m < |servers| && Listing.Decided(evs[m]) && Listing.Winners(canon, evs[m])
    requires Going(st, canon, size, pos) && !st.done
    modifies servers[m].Footprint()
    ensures AllServe(servers, dir, cutoff, evs)
    ensures Going(next, canon, size, pos') && (next.done || pos' > pos)
  {
    hide Serves, Going, Listing.Winners, Listing.Decided;
    next, pos' := Pull(servers[m], steps, dir, cutoff, size, st, evs[m], canon, pos);
    forall j | 0 <= j < |servers| ensures Serves(servers[j], dir, cutoff, evs[j]) {
      if j < m {
        assert servers[j].Footprint() !! servers[m].Footprint();
      } else if m < j {
        assert servers[m].Footprint() !! servers[j].Footprint();
      }
    }
  }

  /** One round: a request to every server whose stream is not done. */
  method Round(servers: seq<MetaServer>, env: nat -> seq<Step>, dir: nat, cutoff: nat, size: nat, sts0: seq<Stream>,
               ghost evs: seq<set<Dent>>, ghost canon: seq<seq<Dent>>, ghost pos0: seq<nat>)
    returns (sts: seq<Stream>, ghost pos: seq<nat>)
    requires Apart(servers) && AllServe(servers, dir, cutoff, evs) && Canonical(canon, evs) && AllGoing(sts0, canon, size, pos0)
    modifies Reach(servers)
    ensures AllServe(servers, dir, cutoff, evs) && AllGoing(sts, canon, size, pos)
    ensures forall m :: 0 <= m < |sts| ==> if sts0[m].done then sts[m].done else sts[m].done || pos[m] > pos0[m]
  {
    hide Serves, Going, Listing.Winners, Listing.Decided, MetaServer.Footprint;
    sts, pos := sts0, pos0;
    for m := 0 to |servers|
      invariant AllServe(servers, dir, cutoff, evs) && AllGoing(sts, canon, size, pos)
      invariant forall j :: 0 <= j < m ==> if sts0[j].done then sts[j].done else sts[j].done || pos[j] > pos0[j]
      invariant forall j :: m <= j < |sts| ==> sts[j] == sts0[j] && pos[j] == pos0[j]
    {
      if !sts[m].done {
        var next;
        ghost var pos';
        next, pos' := PullOne(servers, m, env(m), dir, cutoff, size, sts[m], evs, canon[m], pos[m]);
        sts, pos := sts[m := next], pos[m := pos'];
      }
    }
  }

  /** The drain loop of LoadMergedDirents.  Before every request `env` lets the server take any steps.
      Every stream is the server's one listing, up to a record that no chunk can hold. */
  method Drain(servers: seq<MetaServer>, env: (nat, nat) -> seq<Step>, dir: nat, cutoff: nat, size: nat,
               ghost evs: seq<set<Dent>>, ghost canon: seq<seq<Dent>>)
    returns (streams: seq<seq<Dent>>)
    requires Apart(servers) && AllServe(servers, dir, cutoff, evs) && Canonical(canon, evs)
    modifies Reach(servers)
    ensures AllServe(servers, dir, cutoff, evs) && |streams| == |canon|
    ensures forall m :: 0 <= m < |streams| ==> streams[m] == canon[m][..Paging.Drainable(canon[m], size)]
  {
    hide Serves, Listing.Winners, Listing.Decided, Paging.Off, Paging.Drainable, MetaServer.Footprint;
    var n := |servers|;
    var sts := seq(n, _ => Stream([], 0, false));
    ghost var pos := seq(n, _ => 0);
    forall m | 0 <= m < n ensures Going(sts[m], canon[m], size, pos[m]) {
      Paging.OffZero(canon[m]);
    }
    var r: nat := 0;
    while exists m :: 0 <= m < n && !sts[m].done
      invariant AllServe(servers, dir, cutoff, evs) && AllGoing(sts, canon, size, pos)
      invariant forall m :: 0 <= m < n && !sts[m].done ==> pos[m] >= r
      decreases Paging.Longest(canon) + 1 - r
    {
      var round := r;
      sts, pos := Round(servers, (m: nat) => env(round, m), dir, cutoff, size, sts, evs, canon, pos);
      r := r + 1;
    }
    streams := seq(n, m requires 0 <= m < n => sts[m].got);
  }

  // ---- What the logs guarantee ----

  /** A record never exceeds the header, the longest name and its terminator. */
  const MAX_RECORD: nat := Paging.VIEW_HEADER + NAME_MAX + 1

  lemma {:induction false} HistoryNames(ops: seq<LogOp>, d: nat, n: nat)
    requires forall i :: 0 <= i < |ops| ==> OpOk(ops[i], n)
    ensures forall e :: e in History(ops, d) ==> |e.name| <= NAME_MAX
  {
    hide ChangesOf, Owner;
    if ops != [] {
      HistoryNames(ops[..|ops| - 1], d, n);
      assert OpOk(ops[|ops| - 1], n);
    }
  }

  /** Every listed record fits in a chunk of the largest record's size. */
  lemma WholeDrain(ops: seq<LogOp>, d: nat, cutoff: nat, n: nat, entries: seq<Dent>, size: nat)
    requires forall i :: 0 <= i < |ops| ==> OpOk(ops[i], n)
    requires Listing.Winners(entries, Prior(ops, d, cutoff)) && size >= MAX_RECORD
    ensures Paging.Drainable(entries, size) == |entries|
  {
    hide History, UpTo, OpOk;
    HistoryNames(ops, d, n);
    forall i | 0 <= i < |entries| ensures |entries[i].name| <= NAME_MAX {
      assert entries[i] in Prior(ops, d, cutoff);
      Listing.UpToMember(History(ops, d), cutoff, entries[i]);
    }
  }

  lemma OwnVersions(ops: seq<LogOp>, s: Snapshot.Server)
    requires Snapshot.Inv(s) && Stamped(ops, Snapshot.Shown(s))
    ensures VersionsApart(ops)
  {
    hide Snapshot.Inv, Snapshot.Shown;
    forall i, j | 0 <= i < j < |ops| ensures ops[i].version != ops[j].version {
      if ops[i].version == ops[j].version {
        Snapshot.ShownDistinct(s, s, i, j);
      }
    }
  }

  lemma EventSlot(ops: seq<LogOp>, dir: nat, cutoff: nat, e: Dent) returns (i: nat)
    requires e in Prior(ops, dir, cutoff)
    ensures i < |ops| && ops[i].version == e.version
  {
    hide History, UpTo;
    Listing.UpToMember(History(ops, dir), cutoff, e);
    HistoryMember(ops, dir, e);
    i :| 0 <= i < |ops| && e in EventsOf(ops[i], dir);
    OneRecord(ops[i], dir, e, e);
  }

  /** Servers with different ids never log one version. */
  lemma NoShared(s: Snapshot.Server, t: Snapshot.Server, a: seq<LogOp>, b: seq<LogOp>, dir: nat, cutoff: nat, x: Dent, y: Dent)
    requires Snapshot.Inv(s) && Snapshot.Inv(t) && Stamped(a, Snapshot.Shown(s)) && Stamped(b, Snapshot.Shown(t)) && s.id != t.id
    requires x in Prior(a, dir, cutoff) && y in Prior(b, dir, cutoff)
    ensures x.version != y.version
  {
    hide Snapshot.Inv, Snapshot.Shown, Prior;
    var i := EventSlot(a, dir, cutoff, x);
    var j := EventSlot(b, dir, cutoff, y);
    if x.version == y.version {
      Snapshot.ShownDistinct(s, t, i, j);
    }
  }

  /** Every server with its own id, and no self-rename of this directory left on top. */
  ghost predicate Decidable(servers: seq<MetaServer>, dir: nat, cutoff: nat)
    reads servers, set m | 0 <= m < |servers| :: servers[m].ckpt
  {
    && (forall i, j :: 0 <= i < j < |servers| ==> servers[i].clock.id != servers[j].clock.id)
    && (forall m :: 0 <= m < |servers| ==> Settled(servers[m].ckpt.ops, dir, cutoff))
  }

  lemma ForeignEvs(servers: seq<MetaServer>, dir: nat, cutoff: nat, evs: seq<set<Dent>>)
    requires AllServe(servers, dir, cutoff, evs) && Decidable(servers, dir, cutoff)
    ensures Listing.Foreign(evs)
  {
    hide Settled, Prior, Snapshot.Inv, Stamped, MetaServer.Footprint, MetaServer.Current, MetaServer.Final, Checkpointer.Valid;
    forall m, k, a, b | 0 <= m < k < |evs| && a in evs[m] && b in evs[k] ensures a.version != b.version {
      var s, t := servers[m], servers[k];
      assert Serves(s, dir, cutoff, evs[m]) && Serves(t, dir, cutoff, evs[k]);
      NoShared(s.clock, t.clock, s.ckpt.ops, t.ckpt.ops, dir, cutoff, a, b);
    }
  }

  /** A server whose log is settled has one listing, and it can be drained whole. */
  lemma OneListing(s: MetaServer, dir: nat, cutoff: nat, evs: set<Dent>, size: nat) returns (l: seq<Dent>)
    requires Serves(s, dir, cutoff, evs) && Settled(s.ckpt.ops, dir, cutoff) && size >= MAX_RECORD
    ensures Listing.Decided(evs) && Listing.Winners(l, evs) && Paging.Drainable(l, size) == |l|
  {
    hide Settled, History, UpTo, Snapshot.Inv, Stamped, MetaServer.Footprint, MetaServer.Current, MetaServer.Final, OpOk;
    hide Listing.Winners, Listing.Decided;
    var ops := s.ckpt.ops;
    OwnVersions(ops, s.clock);
    Listing.DecidedIff(ops, dir, cutoff);
    l := Listing.WinnersExist(UpTo(History(ops, dir), cutoff));
    WholeDrain(ops, dir, cutoff, s.ckpt.fw.n, l, size);
  }

  lemma AllListings(servers: seq<MetaServer>, dir: nat, cutoff: nat, evs: seq<set<Dent>>, size: nat) returns (canon: seq<seq<Dent>>)
    requires AllServe(servers, dir, cutoff, evs) && Decidable(servers, dir, cutoff) && size >= MAX_RECORD
    ensures Canonical(canon, evs) && forall m :: 0 <= m < |canon| ==> Paging.Drainable(canon[m], size) == |canon[m]|
  {
    hide Serves, Settled, MetaServer.Footprint, Listing.Winners, Listing.Decided;
    canon := [];
    for m := 0 to |servers|
      invariant |canon| == m
      invariant forall j :: 0 <= j < m ==> Listing.Decided(evs[j]) && Listing.Winners(canon[j], evs[j])
      invariant forall j :: 0 <= j < m ==> Paging.Drainable(canon[j], size) == |canon[j]|
    {
      assert Serves(servers[m], dir, cutoff, evs[m]);
      var l := OneListing(servers[m], dir, cutoff, evs[m], size);
      canon := canon + [l];
    }
  }

  /** The logs at the time of the listing. */
  ghost predicate Logs(servers: seq<MetaServer>, logs: seq<seq<LogOp>>)
    reads set m | 0 <= m < |servers| :: servers[m].ckpt
  {
    |logs| == |servers| && forall m :: 0 <= m < |servers| ==> logs[m] == servers[m].ckpt.ops
  }

  lemma NoSharedOps(s: Snapshot.Server, t: Snapshot.Server, a: seq<LogOp>, b: seq<LogOp>, x: LogOp, y: LogOp)
    requires Snapshot.Inv(s) && Snapshot.Inv(t) && Stamped(a, Snapshot.Shown(s)) && Stamped(b, Snapshot.Shown(t)) && s.id != t.id
    requires x in a && y in b
    ensures x.version != y.version
  {
    hide Snapshot.Inv, Snapshot.Shown;
    var i :| 0 <= i < |a| && a[i] == x;
    var j :| 0 <= j < |b| && b[j] == y;
    if x.version == y.version {
      Snapshot.ShownDistinct(s, t, i, j);
    }
  }

  lemma UniqueLogs(servers: seq<MetaServer>, dir: nat, cutoff: nat, evs: seq<set<Dent>>, logs: seq<seq<LogOp>>)
    requires AllServe(servers, dir, cutoff, evs) && Decidable(servers, dir, cutoff) && Logs(servers, logs)
    ensures Unique(logs) && |logs| == |evs| && forall m :: 0 <= m < |logs| ==> evs[m] == Elems(UpTo(History(logs[m], dir), cutoff))
  {
    hide Settled, History, UpTo, Snapshot.Inv, Stamped, MetaServer.Footprint, MetaServer.Current, MetaServer.Final, Checkpointer.Valid, VersionsApart;
    forall m | 0 <= m < |logs| ensures VersionsApart(logs[m]) && evs[m] == Elems(UpTo(History(logs[m], dir), cutoff)) {
      assert Serves(servers[m], dir, cutoff, evs[m]);
      OwnVersions(logs[m], servers[m].clock);
    }
    forall m, k, a, b | 0 <= m < k < |logs| && a in logs[m] && b in logs[k] ensures a.version != b.version {
      assert Serves(servers[m], dir, cutoff, evs[m]) && Serves(servers[k], dir, cutoff, evs[k]);
      NoSharedOps(servers[m].clock, servers[k].clock, logs[m], logs[k], a, b);
    }
  }

  // ---- The whole listing ----

  /** A directory listing: in strictly increasing name order, exactly the names that the entries of all
      servers' logs up to the cutoff, in version order, leave bound in the directory, each with its inode
      and type.  Whatever the servers do between the requests, the logs are those at the start. */
  method ListDirectory(servers: seq<MetaServer>, env: (nat, nat) -> seq<Step>, dir: nat, cutoff: nat, size: nat,
                       ghost evs: seq<set<Dent>>, ghost logs: seq<seq<LogOp>>)
    returns (out: seq<Dent>)
    requires Apart(servers) && AllServe(servers, dir, cutoff, evs) && Decidable(servers, dir, cutoff) && size >= MAX_RECORD
    requires Logs(servers, logs)
    modifies Reach(servers)
    ensures Listing.Shows(out, Contents(InOrder(logs, cutoff), dir))
    ensures Listing.Visible(out, Listing.Union(evs)) && AllServe(servers, dir, cutoff, evs)
  {
    hide Serves, Decidable, Apart, Listing.Winners, Listing.Decided, Listing.Foreign, Listing.Consistent, Listing.Visible, Listing.Union;
    hide Paging.Drainable, Listing.Shows, Contents, InOrder, Logs, Unique, History, UpTo;
    UniqueLogs(servers, dir, cutoff, evs, logs);
    ghost var canon := AllListings(servers, dir, cutoff, evs, size);
    ForeignEvs(servers, dir, cutoff, evs);
    var streams := Drain(servers, env, dir, cutoff, size, evs, canon);
    assert forall m :: 0 <= m < |canon| ==> canon[m][..|canon[m]|] == canon[m];
    assert streams == canon;
    Listing.MergeReady(streams, evs);
    out := Listing.Merge(streams);
    Listing.VisibleAll(streams, evs, out);
    Listing.MergedShows(out, logs, evs, dir, cutoff);
  }
}
