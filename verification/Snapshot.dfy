/** Which directory events a listing at a cutoff can still gain.

    One server's clock and log, with the steps of concurrent operations kept apart: an
    operation is given its version when it begins, reserves a log slot, stamps the slot
    and publishes it.  A listing sees the published prefix of the log (region and WAL
    tail together), so a slot counts only when every slot before it is published too. */
module Snapshot {
  import opened HybridClock

  /** A log slot; `ver` is 0 until the slot is stamped. */
  datatype Slot = Slot(owner: nat, ver: nat, published: bool)

  /** `pending[o]` is the unused version of operation o, or 0. */
  datatype Server = Server(id: nat, hlc: nat, pending: seq<nat>, slots: seq<Slot>)

  datatype Action =
    | Begin(observed: nat, now: nat)
    | Reserve(o: nat)
    | Stamp(i: nat, now: nat)
    | Publish(i: nat)
    | End(o: nat)

  predicate Enabled(s: Server, a: Action) {
    match a
    case Begin(observed, now) => Tick(s.hlc, observed, now) < STATE_LIMIT
    case Reserve(o) => o < |s.pending|
    case Stamp(i, now) =>
      i < |s.slots| && s.slots[i].ver == 0 && s.slots[i].owner < |s.pending|
      && (s.pending[s.slots[i].owner] == 0 ==> Tick(s.hlc, 0, now) < STATE_LIMIT)
    case Publish(i) => i < |s.slots| && s.slots[i].ver != 0 && !s.slots[i].published
    case End(o) => o < |s.pending|
  }

  function Next(s: Server, a: Action): Server
    requires Enabled(s, a)
  {
    match a
    case Begin(observed, now) =>
      var t := Tick(s.hlc, observed, now);
      s.(hlc := t, pending := s.pending + [VersionOf(t, s.id)])
    case Reserve(o) => s.(slots := s.slots + [Slot(o, 0, false)])
    case Stamp(i, now) =>
      var o := s.slots[i].owner;
      if s.pending[o] != 0 then
        s.(slots := s.slots[i := s.slots[i].(ver := s.pending[o])], pending := s.pending[o := 0])
      else
        var t := Tick(s.hlc, 0, now);
        s.(hlc := t, slots := s.slots[i := s.slots[i].(ver := VersionOf(t, s.id))])
    case Publish(i) => s.(slots := s.slots[i := s.slots[i].(published := true)])
    case End(o) => s.(pending := s.pending[o := 0])
  }

  /** A server that has done nothing yet. */
  function Boot(id: nat): Server {
    Server(id, 0, [], [])
  }

  /** `v` was handed out by this server. */
  predicate Own(s: Server, v: nat) {
    v % META == s.id && v / META <= s.hlc
  }

  /** Every version handed out is held by one operation or one slot. */
  predicate Distinct(s: Server) {
    && (forall o, p :: 0 <= o < p < |s.pending| && s.pending[o] != 0 ==> s.pending[o] != s.pending[p])
    && (forall i, j :: 0 <= i < j < |s.slots| && s.slots[i].ver != 0 ==> s.slots[i].ver != s.slots[j].ver)
    && (forall o, i :: 0 <= o < |s.pending| && 0 <= i < |s.slots| && s.pending[o] != 0 ==> s.pending[o] != s.slots[i].ver)
  }

  predicate Inv(s: Server) {
    && s.id < META && s.hlc < STATE_LIMIT
    && (forall i :: 0 <= i < |s.slots| ==> s.slots[i].owner < |s.pending| && (s.slots[i].published ==> s.slots[i].ver != 0))
    && (forall o :: 0 <= o < |s.pending| && s.pending[o] != 0 ==> Own(s, s.pending[o]))
    && (forall i :: 0 <= i < |s.slots| && s.slots[i].ver != 0 ==> Own(s, s.slots[i].ver))
    && Distinct(s)
  }

  lemma StillOwn(s: Server, s': Server)
    requires s'.id == s.id && s.hlc <= s'.hlc
    ensures forall v :: Own(s, v) ==> Own(s', v)
  {
  }

  /** A ticked clock hands out a version that nothing holds yet. */
  lemma NewVersion(s: Server, s': Server, observed: nat, now: nat)
    requires s.id < META && Tick(s.hlc, observed, now) < STATE_LIMIT && s'.id == s.id && s'.hlc == Tick(s.hlc, observed, now)
    ensures s.hlc < s'.hlc
    ensures var v := VersionOf(s'.hlc, s.id); v != 0 && Own(s', v) && !Own(s, v)
  {
    TickIsMax(s.hlc, observed, now);
    VersionValue(s'.hlc, s.id);
  }

  lemma BeginInv(s: Server, observed: nat, now: nat)
    requires Inv(s) && Enabled(s, Action.Begin(observed, now))
    ensures Inv(Next(s, Action.Begin(observed, now)))
  {
    hide Tick, VersionOf, Own;
    var s' := Next(s, Action.Begin(observed, now));
    NewVersion(s, s', observed, now);
    StillOwn(s, s');
  }

  lemma StampInv(s: Server, i: nat, now: nat)
    requires Inv(s) && Enabled(s, Stamp(i, now))
    ensures Inv(Next(s, Stamp(i, now)))
  {
    hide Tick, VersionOf, Own;
    var s' := Next(s, Stamp(i, now));
    if s.pending[s.slots[i].owner] == 0 {
      NewVersion(s, s', 0, now);
    }
    StillOwn(s, s');
  }

  lemma StepInv(s: Server, a: Action)
    requires Inv(s) && Enabled(s, a)
    ensures Inv(Next(s, a))
  {
    hide Tick, VersionOf, Own;
    match a {
      case Begin(observed, now) => BeginInv(s, observed, now);
      case Stamp(i, now) => StampInv(s, i, now);
      case _ => StillOwn(s, Next(s, a));
    }
  }

  /** A listing at cutoff c reads slot i. */
  predicate Seen(s: Server, i: int, c: nat) {
    0 <= i < |s.slots| && s.slots[i].ver <= c && forall j :: 0 <= j <= i ==> s.slots[j].published
  }

  ghost predicate SameListing(s: Server, s': Server, c: nat) {
    forall i :: Seen(s, i, c) <==> Seen(s', i, c)
  }

  /** No operation in flight holds a version at or below the cutoff, and no stamped slot at or
      below it is unpublished or hidden behind an unpublished one. */
  predicate Quiet(s: Server, c: nat) {
    && (forall o :: 0 <= o < |s.pending| ==> s.pending[o] == 0 || s.pending[o] > c)
    && (forall i :: 0 <= i < |s.slots| && s.slots[i].ver != 0 && s.slots[i].ver <= c ==> Seen(s, i, c))
  }

  /** The server has ticked past the cutoff, as it does on any request that carries it. */
  predicate Passed(s: Server, c: nat) {
    c / META <= s.hlc
  }

  /** Serving a request that carries a clock of at least the cutoff passes it. */
  lemma RequestPasses(s: Server, observed: nat, now: nat, c: nat)
    requires Enabled(s, Action.Begin(observed, now)) && c <= observed
    ensures Passed(Next(s, Action.Begin(observed, now)), c)
  {
    TickIsMax(s.hlc, observed, now);
    assert c / META <= observed / META;
  }

  /** Versions handed out after the cutoff has passed lie above it. */
  lemma TickAbove(s: Server, observed: nat, now: nat, c: nat)
    requires Inv(s) && Passed(s, c) && Tick(s.hlc, observed, now) < STATE_LIMIT
    ensures var t := Tick(s.hlc, observed, now);
            t > s.hlc && VersionOf(t, s.id) > c && VersionOf(t, s.id) != 0
  {
    hide Tick, VersionOf, Distinct;
    var t := Tick(s.hlc, observed, now);
    TickIsMax(s.hlc, observed, now);
    VersionValue(t, s.id);
    assert t >= c / META + 1;
    assert c == META * (c / META) + c % META;
  }

  /** The request itself does not disturb what is quiet, nor calm what is not. */
  lemma RequestQuiet(s: Server, observed: nat, now: nat, c: nat)
    requires Inv(s) && Enabled(s, Action.Begin(observed, now)) && c <= observed
    ensures Quiet(Next(s, Action.Begin(observed, now)), c) <==> Quiet(s, c)
  {
    hide Tick, VersionOf, Own, Distinct;
    var s' := Next(s, Action.Begin(observed, now));
    RequestPasses(s, observed, now, c);
    TickIsMax(s.hlc, observed, now);
    VersionValue(s'.hlc, s.id);
    assert s'.hlc >= c / META + 1;
    assert c == META * (c / META) + c % META;
    assert forall o :: 0 <= o < |s.pending| ==> s'.pending[o] == s.pending[o];
    assert forall i :: Seen(s, i, c) <==> Seen(s', i, c);
  }

  lemma StepQuiet(s: Server, a: Action, c: nat)
    requires Inv(s) && Enabled(s, a) && Passed(s, c) && Quiet(s, c)
    ensures Inv(Next(s, a)) && Passed(Next(s, a), c) && Quiet(Next(s, a), c) && SameListing(s, Next(s, a), c)
  {
    hide Tick, VersionOf, Own, Distinct;
    StepInv(s, a);
    if a.Begin? {
      TickAbove(s, a.observed, a.now, c);
    } else if a.Stamp? && s.pending[s.slots[a.i].owner] == 0 {
      TickAbove(s, 0, a.now, c);
    }
    var s' := Next(s, a);
    forall i | 0 <= i ensures Seen(s, i, c) <==> Seen(s', i, c) {
      assert forall j :: 0 <= j < |s.slots| && j <= i && s.slots[j].published ==> s'.slots[j].published;
    }
  }

  // ── continuations ──

  predicate Runs(s: Server, acts: seq<Action>)
    decreases |acts|
  {
    acts == [] || (Enabled(s, acts[0]) && Runs(Next(s, acts[0]), acts[1..]))
  }

  function Exec(s: Server, acts: seq<Action>): Server
    requires Runs(s, acts)
    decreases |acts|
  {
    if acts == [] then s else Exec(Next(s, acts[0]), acts[1..])
  }

  /** The listing at cutoff c never changes again, whatever the server goes on to do. */
  ghost predicate Frozen(s: Server, c: nat) {
    forall acts :: Runs(s, acts) ==> SameListing(s, Exec(s, acts), c)
  }

  lemma {:induction false} QuietRun(s: Server, acts: seq<Action>, c: nat)
    requires Inv(s) && Passed(s, c) && Quiet(s, c) && Runs(s, acts)
    ensures SameListing(s, Exec(s, acts), c)
    decreases |acts|
  {
    if acts != [] {
      StepQuiet(s, acts[0], c);
      QuietRun(Next(s, acts[0]), acts[1..], c);
    }
  }

  lemma {:induction false} ExecAppend(s: Server, a: seq<Action>, b: seq<Action>)
    requires Runs(s, a) && Runs(Exec(s, a), b)
    ensures Runs(s, a + b) && Exec(s, a + b) == Exec(Exec(s, a), b)
    decreases |a|
  {
    if a == [] {
      assert a + b == b;
    } else {
      assert (a + b)[1..] == a[1..] + b;
      ExecAppend(Next(s, a[0]), a[1..], b);
    }
  }

  /** `s'` is `s` with slots stamped and published, nothing else. */
  ghost predicate Later(s: Server, s': Server) {
    && s'.id == s.id && |s'.pending| == |s.pending| && |s'.slots| == |s.slots|
    && (forall i :: 0 <= i < |s.slots| ==> s'.slots[i].owner == s.slots[i].owner)
    && (forall i :: 0 <= i < |s.slots| && s.slots[i].ver != 0 ==> s'.slots[i].ver == s.slots[i].ver)
    && (forall i :: 0 <= i < |s.slots| && s.slots[i].published ==> s'.slots[i].published)
    && (forall o :: 0 <= o < |s.pending| && s.pending[o] != 0 ==> s'.pending[o] == s.pending[o] || Used(s, s', s.pending[o]))
  }

  /** Some slot that was not stamped now carries `v`. */
  ghost predicate Used(s: Server, s': Server, v: nat) {
    exists i :: 0 <= i < |s.slots| && i < |s'.slots| && s.slots[i].ver == 0 && s'.slots[i].ver == v
  }

  /** Every slot can be stamped and published. */
  lemma PublishOne(s: Server, k: nat) returns (acts: seq<Action>)
    requires Inv(s) && k < |s.slots| && s.hlc + 1 < STATE_LIMIT
    ensures Runs(s, acts) && Inv(Exec(s, acts)) && Later(s, Exec(s, acts)) && Exec(s, acts).slots[k].published
    ensures s.hlc <= Exec(s, acts).hlc <= s.hlc + 1
  {
    hide Tick, VersionOf, Own, Distinct;
    if s.slots[k].published {
      acts := [];
    } else if s.slots[k].ver != 0 {
      acts := [Publish(k)];
      StepInv(s, Publish(k));
      assert Exec(s, acts) == Exec(Next(s, acts[0]), []);
    } else {
      TickIsMax(s.hlc, 0, 0);
      TickAbove(s, 0, 0, 0);
      var s1 := Next(s, Stamp(k, 0));
      var o := s.slots[k].owner;
      StepInv(s, Stamp(k, 0));
      var s2 := Next(s1, Publish(k));
      StepInv(s1, Publish(k));
      acts := [Stamp(k, 0), Publish(k)];
      assert acts[1..] == [Publish(k)] && [Publish(k)][1..] == [];
      assert Runs(s2, []) && Runs(s1, [Publish(k)]) && Exec(s1, [Publish(k)]) == s2;
      assert Runs(s, acts) && Exec(s, acts) == s2;
      assert s.slots[k].ver == 0 && (s.pending[o] != 0 ==> s2.slots[k].ver == s.pending[o]);
    }
  }

  lemma LaterTrans(s: Server, s1: Server, s2: Server)
    requires Later(s, s1) && Later(s1, s2)
    ensures Later(s, s2)
  {
    forall o | 0 <= o < |s.pending| && s.pending[o] != 0 ensures s2.pending[o] == s.pending[o] || Used(s, s2, s.pending[o]) {
      if s1.pending[o] != s.pending[o] {
        var i :| 0 <= i < |s.slots| && s.slots[i].ver == 0 && s1.slots[i].ver == s.pending[o];
        assert s2.slots[i].ver == s.pending[o];
      }
    }
  }

  lemma {:induction false} PublishUpTo(s: Server, k: nat) returns (acts: seq<Action>)
    requires Inv(s) && k <= |s.slots| && s.hlc + k < STATE_LIMIT
    ensures Runs(s, acts) && Inv(Exec(s, acts)) && Later(s, Exec(s, acts)) && Exec(s, acts).hlc <= s.hlc + k
    ensures forall j :: 0 <= j < k ==> Exec(s, acts).slots[j].published
  {
    hide Tick, VersionOf;
    if k == 0 {
      acts := [];
    } else {
      var a := PublishUpTo(s, k - 1);
      var b := PublishOne(Exec(s, a), k - 1);
      ExecAppend(s, a, b);
      LaterTrans(s, Exec(s, a), Exec(Exec(s, a), b));
      acts := a + b;
    }
  }

  /** If the server is not quiet, some continuation shows a listing something new. */
  lemma NotQuietChanges(s: Server, c: nat) returns (acts: seq<Action>)
    requires Inv(s) && !Quiet(s, c) && s.hlc + |s.slots| + 1 < STATE_LIMIT
    ensures Runs(s, acts) && !SameListing(s, Exec(s, acts), c)
  {
    hide Tick, VersionOf, Runs, Exec;
    acts := PublishUpTo(s, |s.slots|);
    var e := Exec(s, acts);
    if i :| 0 <= i < |s.slots| && s.slots[i].ver != 0 && s.slots[i].ver <= c && !Seen(s, i, c) {
      assert Seen(e, i, c);
    } else {
      var o :| 0 <= o < |s.pending| && s.pending[o] != 0 && s.pending[o] <= c;
      if Used(s, e, s.pending[o]) {
        var i :| 0 <= i < |s.slots| && s.slots[i].ver == 0 && e.slots[i].ver == s.pending[o];
        assert Seen(e, i, c) && !Seen(s, i, c);
      } else {
        var n := |e.slots|;
        var more := AppendLate(e, o);
        ExecAppend(s, acts, more);
        assert Seen(Exec(e, more), n, c) && !Seen(s, n, c);
        acts := acts + more;
      }
    }
  }

  /** An operation in flight logs under the version it was given when it began. */
  lemma AppendLate(e: Server, o: nat) returns (more: seq<Action>)
    requires Inv(e) && o < |e.pending| && e.pending[o] != 0
    requires forall j :: 0 <= j < |e.slots| ==> e.slots[j].published
    ensures Runs(e, more)
    ensures Exec(e, more).slots == e.slots + [Slot(o, e.pending[o], true)]
  {
    hide Tick, VersionOf;
    var n := |e.slots|;
    var e1 := Next(e, Reserve(o));
    var e2 := Next(e1, Stamp(n, 0));
    var e3 := Next(e2, Publish(n));
    more := [Reserve(o), Stamp(n, 0), Publish(n)];
    assert more[1..] == [Stamp(n, 0), Publish(n)] && more[1..][1..] == [Publish(n)] && [Publish(n)][1..] == [];
    assert Runs(e3, []) && Runs(e2, [Publish(n)]) && Exec(e2, [Publish(n)]) == e3;
    assert Runs(e1, more[1..]) && Exec(e1, more[1..]) == e3;
  }

  /** Once the clock has passed the cutoff, the listing at that cutoff is final if and only if
      the server is quiet. */
  lemma SnapshotStability(s: Server, c: nat)
    requires Inv(s) && Passed(s, c) && s.hlc + |s.slots| + 1 < STATE_LIMIT
    ensures Frozen(s, c) <==> Quiet(s, c)
  {
    hide Tick, VersionOf, Runs, Exec;
    if Quiet(s, c) {
      forall acts | Runs(s, acts) ensures SameListing(s, Exec(s, acts), c) {
        QuietRun(s, acts, c);
      }
    } else {
      var acts := NotQuietChanges(s, c);
      assert Runs(s, acts) && !SameListing(s, Exec(s, acts), c);
    }
  }

  /** A real run in which the listing is not final: operation A begins at a fresh server and is
      given version c, operation B arrives with a clock of c, so that the server has passed c, and
      then A logs its record, at version c. */
  lemma LatePublish() returns (before: seq<Action>, after: seq<Action>, c: nat)
    ensures Runs(Boot(0), before) && before != [] && before[|before| - 1] == Action.Begin(c, 1)
    ensures var s := Exec(Boot(0), before);
            && Inv(s) && Passed(s, c) && !Quiet(s, c)
            && Runs(s, after) && !SameListing(s, Exec(s, after), c)
  {
    hide Tick, VersionOf;
    var s0, a := Boot(0), Action.Begin(0, 1);
    TickIsMax(0, 0, 1);
    StepInv(s0, a);
    var s1 := Next(s0, a);
    VersionValue(s1.hlc, 0);
    c := s1.pending[0];
    var b := Action.Begin(c, 1);
    TickIsMax(s1.hlc, c, 1);
    StepInv(s1, b);
    var s2 := Next(s1, b);
    before := [a, b];
    assert before[1..] == [b] && [b][1..] == [];
    assert Runs(s2, []) && Runs(s1, [b]) && Exec(s1, [b]) == s2;
    assert Exec(s0, before) == s2 && s2.pending[0] == c;
    after := AppendLate(s2, 0);
    assert Seen(Exec(s2, after), 0, c) && !Seen(s2, 0, c);
  }

  // ── the versions a listing can read, in log order ──

  /** Length of the published prefix. */
  function Prefix(slots: seq<Slot>): (k: nat)
    ensures k <= |slots| && (forall j :: 0 <= j < k ==> slots[j].published) && (k < |slots| ==> !slots[k].published)
  {
    if slots == [] || !slots[0].published then 0 else 1 + Prefix(slots[1..])
  }

  function Shown(s: Server): (vs: seq<nat>)
    ensures |vs| == Prefix(s.slots)
  {
    seq(Prefix(s.slots), i requires 0 <= i < Prefix(s.slots) => s.slots[i].ver)
  }

  /** A readable record never changes and never disappears. */
  lemma ShownGrows(s: Server, a: Action)
    requires Inv(s) && Enabled(s, a)
    ensures Shown(s) <= Shown(Next(s, a))
  {
    hide Tick, VersionOf, Own, Distinct;
    var s' := Next(s, a);
    assert forall j :: 0 <= j < |s.slots| && s.slots[j].published ==> s'.slots[j] == s.slots[j];
    assert Prefix(s.slots) <= Prefix(s'.slots);
  }

  /** Once the cutoff has passed and the server is quiet, only records above the cutoff become
      readable. */
  lemma LateOnly(s: Server, a: Action, c: nat)
    requires Inv(s) && Enabled(s, a) && Passed(s, c) && Quiet(s, c)
    ensures Shown(s) <= Shown(Next(s, a))
    ensures forall i :: |Shown(s)| <= i < |Shown(Next(s, a))| ==> Shown(Next(s, a))[i] > c
  {
    hide Tick, VersionOf, Own, Distinct, Quiet, Passed;
    ShownGrows(s, a);
    StepQuiet(s, a, c);
    var s' := Next(s, a);
    forall i | |Shown(s)| <= i < |Shown(s')| ensures Shown(s')[i] > c {
      assert Seen(s, i, c) <==> Seen(s', i, c);
      assert Seen(s, i, c) ==> i < |Shown(s)|;
    }
  }

  /** No two readable records carry one version, on one server or on two. */
  lemma ShownDistinct(s: Server, t: Server, i: nat, j: nat)
    requires Inv(s) && Inv(t) && i < |Shown(s)| && j < |Shown(t)| && Shown(s)[i] == Shown(t)[j]
    ensures s.id == t.id && (s == t ==> i == j)
  {
    assert s.slots[i].published && t.slots[j].published;
    assert Own(s, s.slots[i].ver) && Own(t, t.slots[j].ver);
  }
}
