/** The hybrid logical clock of CompactWAL, carried between servers by client requests.

    A clock state is `physical_ms << 14 | logical`; a version is the state with the
    8-bit server id appended.  Each compare-and-swap loop is one step, at its
    successful iteration. */
module HybridClock {
  const LOGICAL: nat := 0x4000
  const META: nat := 0x100
  const WORD: nat := 0x1_0000_0000_0000_0000
  /** 2^42 milliseconds of physical time, as a clock state. */
  const STATE_LIMIT: nat := 0x100_0000_0000_0000

  function Physical(state: nat): nat { state / LOGICAL }
  function Logical(state: nat): nat { state % LOGICAL }

  /** PackVersion, including its 64-bit truncation. */
  function PackVersion(physical: nat, logical: nat, id: nat): nat {
    (physical * (LOGICAL * META) + logical * META + id) % WORD
  }

  function VersionOf(state: nat, id: nat): nat {
    PackVersion(Physical(state), Logical(state), id)
  }

  /** MergeAndTick: the next clock state. */
  function Tick(state: nat, observedVersion: nat, now: nat): nat {
    var observed := observedVersion / META;
    var ahead := Physical(observed) > Physical(state)
                 || (Physical(observed) == Physical(state) && Logical(observed) > Logical(state));
    var basePhysical := if ahead then Physical(observed) else Physical(state);
    var baseLogical := if ahead then Logical(observed) else Logical(state);
    var nextPhysical := if now > basePhysical then now else basePhysical;
    if nextPhysical == basePhysical then
      if baseLogical == LOGICAL - 1 then (basePhysical + 1) * LOGICAL
      else nextPhysical * LOGICAL + (baseLogical + 1)
    else nextPhysical * LOGICAL
  }

  function Max(a: nat, b: nat): nat { if a < b then b else a }

  /** Physical merge, logical increment and logical overflow together are one maximum. */
  lemma TickIsMax(state: nat, observedVersion: nat, now: nat)
    ensures Tick(state, observedVersion, now) == Max(Max(state, observedVersion / META) + 1, now * LOGICAL)
  {
    var observed := observedVersion / META;
    assert state == Physical(state) * LOGICAL + Logical(state);
    assert observed == Physical(observed) * LOGICAL + Logical(observed);
  }

  /** Below 2^42 ms the packed version is the state with the server id appended. */
  lemma VersionValue(state: nat, id: nat)
    requires state < STATE_LIMIT && id < META
    ensures VersionOf(state, id) == state * META + id
    ensures VersionOf(state, id) / META == state && VersionOf(state, id) % META == id
  {
    assert state == Physical(state) * LOGICAL + Logical(state);
    assert Physical(state) * (LOGICAL * META) + Logical(state) * META == state * META;
    assert state * META + id < WORD;
  }

  /** At 2^42 ms the version wraps, and a later state packs to a smaller version. */
  lemma VersionWraps()
    ensures VersionOf(STATE_LIMIT, 0) < VersionOf(STATE_LIMIT - 1, 0)
  {}

  // ── servers, clients and operations ──

  datatype Option<T> = None | Some(value: T)

  /** An operation on a server: the clock its request carried, the version handed out when it
      began and not yet used, the versions it logged, and the clock it answered with.
      `saw` is the set of operations whose answers its client had when it sent the request. */
  datatype Op = Op(client: nat, server: nat, req: nat, saw: set<nat>,
                   begun: bool, pending: nat, logged: seq<nat>, resp: Option<nat>)

  datatype Client = Client(lastSeen: nat, saw: set<nat>)

  datatype World = World(hlc: seq<nat>, clients: seq<Client>, ops: seq<Op>)

  datatype Action =
    | Send(c: nat, s: nat)
    | Begin(o: nat, now: nat)
    | Log(o: nat, now: nat)
    | Respond(o: nat)
    | Deliver(o: nat)

  predicate Enabled(w: World, a: Action) {
    match a
    case Send(c, s) => c < |w.clients| && s < |w.hlc|
    case Begin(o, now) =>
      o < |w.ops| && !w.ops[o].begun && w.ops[o].server < |w.hlc|
      && Tick(w.hlc[w.ops[o].server], w.ops[o].req, now) < STATE_LIMIT
    case Log(o, now) =>
      o < |w.ops| && w.ops[o].begun && w.ops[o].resp.None? && w.ops[o].server < |w.hlc|
      && (w.ops[o].pending == 0 ==> Tick(w.hlc[w.ops[o].server], 0, now) < STATE_LIMIT)
    case Respond(o) => o < |w.ops| && w.ops[o].begun && w.ops[o].resp.None? && w.ops[o].server < |w.hlc|
    case Deliver(o) => o < |w.ops| && w.ops[o].resp.Some? && w.ops[o].client < |w.clients|
  }

  function Next(w: World, a: Action): World
    requires Enabled(w, a)
  {
    match a
    case Send(c, s) =>
      // LoadLastSeenHLC
      w.(ops := w.ops + [Op(c, s, w.clients[c].lastSeen, w.clients[c].saw, false, 0, [], None)])
    case Begin(o, now) =>
      // BeginOperation
      var op := w.ops[o];
      var t := Tick(w.hlc[op.server], op.req, now);
      var v := VersionOf(t, op.server);
      w.(hlc := w.hlc[op.server := t],
         ops := w.ops[o := op.(begun := true, pending := v)])
    case Log(o, now) =>
      // NextVersion
      var op := w.ops[o];
      if op.pending != 0 then
        w.(ops := w.ops[o := op.(pending := 0, logged := op.logged + [op.pending])])
      else
        var t := Tick(w.hlc[op.server], 0, now);
        var v := VersionOf(t, op.server);
        w.(hlc := w.hlc[op.server := t],
           ops := w.ops[o := op.(logged := op.logged + [v])])
    case Respond(o) =>
      // CurrentVersion
      var op := w.ops[o];
      var v := if op.pending != 0 then op.pending else VersionOf(w.hlc[op.server], op.server);
      w.(ops := w.ops[o := op.(resp := Some(v))])
    case Deliver(o) =>
      // ObserveServerHLC
      var c := w.clients[w.ops[o].client];
      w.(clients := w.clients[w.ops[o].client := Client(Max(c.lastSeen, w.ops[o].resp.value), c.saw + {o})])
  }

  // ── the invariant ──

  /** `v` was issued by server `s`, no later than its clock now reads. */
  predicate IssuedBy(w: World, v: nat, s: nat) {
    s < |w.hlc| && v % META == s && v / META <= w.hlc[s] && v > 0
  }

  predicate OpInv(w: World, op: Op) {
    && op.server < |w.hlc| && op.client < |w.clients|
    && (op.pending != 0 ==> op.begun && op.logged == [] && IssuedBy(w, op.pending, op.server) && op.pending / META > op.req / META)
    && (forall i :: 0 <= i < |op.logged| ==> IssuedBy(w, op.logged[i], op.server) && op.logged[i] / META > op.req / META)
    && (!op.begun ==> op.logged == [] && op.resp.None?)
    && (op.begun && op.pending == 0 ==> op.logged != [])
    && (op.resp.Some? ==> forall i :: 0 <= i < |op.logged| ==> op.logged[i] <= op.resp.value)
    && (op.resp.Some? ==> op.resp.value / META > op.req / META)
    && (forall a :: a in op.saw ==> a < |w.ops| && w.ops[a].resp.Some? && w.ops[a].resp.value <= op.req)
  }

  predicate ClientInv(w: World, c: Client) {
    forall a :: a in c.saw ==> a < |w.ops| && w.ops[a].resp.Some? && w.ops[a].resp.value <= c.lastSeen
  }

  /** The versions an operation has been given, used or not. */
  function Held(op: Op): seq<nat> {
    op.logged + if op.pending != 0 then [op.pending] else []
  }

  predicate Distinct(ops: seq<Op>) {
    forall o, p, i, j ::
      (&& 0 <= o < |ops| && 0 <= p < |ops| && 0 <= i < |Held(ops[o])| && 0 <= j < |Held(ops[p])|
       && Held(ops[o])[i] == Held(ops[p])[j]) ==> o == p && i == j
  }

  predicate Inv(w: World) {
    && |w.hlc| <= META
    && (forall s :: 0 <= s < |w.hlc| ==> w.hlc[s] < STATE_LIMIT)
    && (forall o :: 0 <= o < |w.ops| ==> OpInv(w, w.ops[o]))
    && (forall c :: 0 <= c < |w.clients| ==> ClientInv(w, w.clients[c]))
    && Distinct(w.ops)
  }

  /** Clocks only advance and answers only accumulate. */
  predicate Grows(w: World, w': World) {
    && |w'.hlc| == |w.hlc| && (forall s :: 0 <= s < |w.hlc| ==> w.hlc[s] <= w'.hlc[s])
    && |w'.clients| == |w.clients| && |w.ops| <= |w'.ops|
    && (forall o :: 0 <= o < |w.ops| && w.ops[o].resp.Some? ==> w'.ops[o].resp == w.ops[o].resp)
  }

  lemma Kept(w: World, w': World, op: Op, c: Client)
    requires Grows(w, w')
    ensures OpInv(w, op) ==> OpInv(w', op)
    ensures ClientInv(w, c) ==> ClientInv(w', c)
  {}

  /** Replacing one operation's record, with its server's clock possibly ticked. */
  lemma OpStep(w: World, w': World, o: nat, op: Op)
    requires Inv(w) && o < |w.ops| && Grows(w, w')
    requires w'.ops == w.ops[o := op] && w'.clients == w.clients && OpInv(w', op) && Distinct(w'.ops)
    requires forall s :: 0 <= s < |w'.hlc| ==> w'.hlc[s] < STATE_LIMIT
    ensures Inv(w')
  {
    assert |w'.hlc| == |w.hlc|;
    hide OpInv, ClientInv, Distinct, Grows;
    forall p | 0 <= p < |w'.ops| ensures OpInv(w', w'.ops[p]) {
      if p != o { Kept(w, w', w.ops[p], Client(0, {})); }
    }
    forall c | 0 <= c < |w'.clients| ensures ClientInv(w', w'.clients[c]) {
      Kept(w, w', op, w.clients[c]);
    }
  }

  /** A version from a ticked clock is new to every operation. */
  lemma Fresh(w: World, s: nat, t: nat, o: nat, i: nat)
    requires Inv(w) && s < |w.hlc| && w.hlc[s] < t < STATE_LIMIT && o < |w.ops| && i < |Held(w.ops[o])|
    ensures Held(w.ops[o])[i] != VersionOf(t, s)
  {
    VersionValue(t, s);
    assert OpInv(w, w.ops[o]);
  }

  lemma DistinctTick(w: World, s: nat, t: nat, o: nat, op: Op)
    requires Inv(w) && s < |w.hlc| && w.hlc[s] < t < STATE_LIMIT && o < |w.ops|
    requires Held(op) == Held(w.ops[o]) + [VersionOf(t, s)]
    ensures Distinct(w.ops[o := op])
  {
    hide VersionOf, OpInv;
    forall p: nat, i: nat | p < |w.ops| && i < |Held(w.ops[p])| ensures Held(w.ops[p])[i] != VersionOf(t, s) {
      Fresh(w, s, t, p, i);
    }
    var ops := w.ops[o := op];
    forall a, b, i, j | 0 <= a < |ops| && 0 <= b < |ops| && 0 <= i < |Held(ops[a])| && 0 <= j < |Held(ops[b])|
                        && Held(ops[a])[i] == Held(ops[b])[j]
      ensures a == b && i == j
    {
      assert i < |Held(w.ops[a])| ==> Held(ops[a])[i] == Held(w.ops[a])[i];
      assert j < |Held(w.ops[b])| ==> Held(ops[b])[j] == Held(w.ops[b])[j];
    }
  }

  lemma DistinctSame(ops: seq<Op>, o: nat, op: Op)
    requires Distinct(ops) && o < |ops| && Held(op) == Held(ops[o])
    ensures Distinct(ops[o := op])
  {
    var ops' := ops[o := op];
    assert forall p :: 0 <= p < |ops| ==> Held(ops'[p]) == Held(ops[p]);
  }

  lemma BeginStep(w: World, o: nat, now: nat)
    requires Inv(w) && Enabled(w, Begin(o, now))
    ensures Inv(Next(w, Begin(o, now)))
  {
    var w', op := Next(w, Begin(o, now)), w.ops[o];
    var t := Tick(w.hlc[op.server], op.req, now);
    assert OpInv(w, op);
    TickIsMax(w.hlc[op.server], op.req, now);
    hide Tick, VersionOf;
    VersionValue(t, op.server);
    DistinctTick(w, op.server, t, o, w'.ops[o]);
    OpStep(w, w', o, w'.ops[o]);
  }

  lemma LogStep(w: World, o: nat, now: nat)
    requires Inv(w) && Enabled(w, Log(o, now))
    ensures Inv(Next(w, Log(o, now)))
  {
    var w', op := Next(w, Log(o, now)), w.ops[o];
    assert OpInv(w, op);
    if op.pending != 0 {
      DistinctSame(w.ops, o, w'.ops[o]);
    } else {
      var t := Tick(w.hlc[op.server], 0, now);
      TickIsMax(w.hlc[op.server], 0, now);
      VersionValue(t, op.server);
      assert IssuedBy(w, op.logged[0], op.server);
      DistinctTick(w, op.server, t, o, w'.ops[o]);
    }
    hide Tick, VersionOf, Distinct;
    OpStep(w, w', o, w'.ops[o]);
  }

  lemma RespondStep(w: World, o: nat)
    requires Inv(w) && Enabled(w, Respond(o))
    ensures Inv(Next(w, Respond(o)))
  {
    var w', op := Next(w, Respond(o)), w.ops[o];
    assert OpInv(w, op);
    VersionValue(w.hlc[op.server], op.server);
    assert op.pending == 0 ==> IssuedBy(w, op.logged[0], op.server);
    hide VersionOf;
    DistinctSame(w.ops, o, w'.ops[o]);
    OpStep(w, w', o, w'.ops[o]);
  }

  lemma DistinctMore(ops: seq<Op>, op: Op)
    requires Distinct(ops) && Held(op) == []
    ensures Distinct(ops + [op])
  {
    var ops' := ops + [op];
    assert forall p :: 0 <= p < |ops| ==> Held(ops'[p]) == Held(ops[p]);
  }

  lemma SendStep(w: World, c: nat, s: nat)
    requires Inv(w) && Enabled(w, Send(c, s))
    ensures Inv(Next(w, Send(c, s)))
  {
    hide Distinct, Held;
    var w' := Next(w, Send(c, s));
    var op := w'.ops[|w.ops|];
    assert Held(op) == [] by { NothingHeld(op); }
    DistinctMore(w.ops, op);
    assert ClientInv(w, w.clients[c]);
    assert OpInv(w', op);
    forall p | 0 <= p < |w.ops| ensures OpInv(w', w'.ops[p]) {
      Kept(w, w', w.ops[p], Client(0, {}));
    }
    forall x | 0 <= x < |w.clients| ensures ClientInv(w', w.clients[x]) {
      Kept(w, w', op, w.clients[x]);
    }
  }

  lemma NothingHeld(op: Op)
    requires op.logged == [] && op.pending == 0
    ensures Held(op) == []
  {
  }

  lemma DeliverStep(w: World, o: nat)
    requires Inv(w) && Enabled(w, Deliver(o))
    ensures Inv(Next(w, Deliver(o)))
  {
    hide Distinct;
    var w' := Next(w, Deliver(o));
    forall p | 0 <= p < |w.ops| ensures OpInv(w', w.ops[p]) {
      Kept(w, w', w.ops[p], Client(0, {}));
    }
    forall x | 0 <= x < |w.clients| ensures ClientInv(w', w'.clients[x]) {
      Kept(w, w', w.ops[o], w.clients[x]);
    }
  }

  lemma StepInv(w: World, a: Action)
    requires Inv(w) && Enabled(w, a)
    ensures Inv(Next(w, a))
  {
    hide Inv;
    match a {
      case Begin(o, now) => BeginStep(w, o, now);
      case Log(o, now) => LogStep(w, o, now);
      case Respond(o) => RespondStep(w, o);
      case Send(c, s) => SendStep(w, c, s);
      case Deliver(o) => DeliverStep(w, o);
    }
  }

  // ── runs ──

  ghost predicate Run(ws: seq<World>, acts: seq<Action>) {
    && |ws| == |acts| + 1
    && (forall i :: 0 <= i < |acts| ==> Enabled(ws[i], acts[i]) && ws[i + 1] == Next(ws[i], acts[i]))
  }

  ghost predicate Initial(w: World) {
    && |w.hlc| <= META && (forall s :: 0 <= s < |w.hlc| ==> w.hlc[s] == 0)
    && w.ops == [] && forall c :: 0 <= c < |w.clients| ==> w.clients[c] == Client(0, {})
  }

  lemma {:induction false} RunInv(ws: seq<World>, acts: seq<Action>, i: nat)
    requires Run(ws, acts) && Initial(ws[0]) && i < |ws|
    ensures Inv(ws[i])
  {
    if i > 0 {
      RunInv(ws, acts, i - 1);
      StepInv(ws[i - 1], acts[i - 1]);
    }
  }

  /** A chain of operations, each sent by a client that had the answer of the one before. */
  ghost predicate Chain(w: World, ops: seq<nat>) {
    && |ops| > 0
    && (forall i :: 0 <= i < |ops| ==> ops[i] < |w.ops|)
    && (forall i :: 0 < i < |ops| ==> ops[i - 1] in w.ops[ops[i]].saw)
  }

  lemma {:induction false} ChainGrows(w: World, ops: seq<nat>, k: nat)
    requires Inv(w) && Chain(w, ops) && 0 < k < |ops|
    ensures w.ops[ops[0]].resp.Some? && w.ops[ops[0]].resp.value <= w.ops[ops[k]].req
  {
    assert ops[k - 1] in w.ops[ops[k]].saw;
    assert OpInv(w, w.ops[ops[k]]) && OpInv(w, w.ops[ops[k - 1]]);
    if k > 1 {
      ChainGrows(w, ops, k - 1);
    }
  }

  // ── what a client has observed, told by the actions of the run ──

  /** Step i delivers the answer of `a` to the client that sends `b` at the later step j. */
  ghost predicate Observes(ws: seq<World>, acts: seq<Action>, i: nat, j: nat, a: nat, b: nat)
    requires Run(ws, acts)
  {
    && i < j < |acts| && acts[i] == Deliver(a) && acts[j].Send?
    && acts[j].c == ws[i].ops[a].client && b == |ws[j].ops|
  }

  ghost predicate Followed(ws: seq<World>, acts: seq<Action>, a: nat, b: nat)
    requires Run(ws, acts)
  {
    exists i, j :: Observes(ws, acts, i, j, a, b)
  }

  lemma {:induction false} StillSeen(ws: seq<World>, acts: seq<Action>, i: nat, k: nat, c: nat, a: nat)
    requires Run(ws, acts) && i <= k < |ws| && c < |ws[i].clients| && a in ws[i].clients[c].saw
    ensures c < |ws[k].clients| && a in ws[k].clients[c].saw
  {
    hide Tick, VersionOf;
    if i < k {
      StillSeen(ws, acts, i, k - 1, c, a);
      assert ws[k] == Next(ws[k - 1], acts[k - 1]);
    }
  }

  lemma {:induction false} OpStays(ws: seq<World>, acts: seq<Action>, j: nat, k: nat, b: nat)
    requires Run(ws, acts) && j <= k < |ws| && b < |ws[j].ops|
    ensures b < |ws[k].ops| && ws[k].ops[b].saw == ws[j].ops[b].saw && ws[k].ops[b].client == ws[j].ops[b].client
  {
    hide Tick, VersionOf;
    if j < k {
      OpStays(ws, acts, j, k - 1, b);
      assert ws[k] == Next(ws[k - 1], acts[k - 1]);
    }
  }

  lemma FollowedSaw(ws: seq<World>, acts: seq<Action>, a: nat, b: nat)
    requires Run(ws, acts) && Followed(ws, acts, a, b)
    ensures a < |ws[|acts|].ops| && b < |ws[|acts|].ops| && a in ws[|acts|].ops[b].saw
  {
    hide Tick, VersionOf;
    var i: nat, j: nat :| Observes(ws, acts, i, j, a, b);
    var c := ws[i].ops[a].client;
    assert ws[i + 1] == Next(ws[i], acts[i]) && ws[j + 1] == Next(ws[j], acts[j]);
    StillSeen(ws, acts, i + 1, j, c, a);
    OpStays(ws, acts, j + 1, |acts|, b);
    OpStays(ws, acts, i, |acts|, a);
  }

  /** In every run of servers and clients: versions are never shared between two log records, and along
      every chain of operations, each sent by a client to which the answer of the one before had been
      delivered, each version of the later operation exceeds each version of the earlier one. */
  lemma Causality(ws: seq<World>, acts: seq<Action>, ops: seq<nat>)
    requires Run(ws, acts) && Initial(ws[0]) && |ops| > 1
    requires forall i :: 0 < i < |ops| ==> Followed(ws, acts, ops[i - 1], ops[i])
    ensures Distinct(ws[|acts|].ops) && ops[0] < |ws[|acts|].ops| && ops[|ops| - 1] < |ws[|acts|].ops|
    ensures var a, b := ws[|acts|].ops[ops[0]], ws[|acts|].ops[ops[|ops| - 1]];
            forall i, j :: 0 <= i < |a.logged| && 0 <= j < |b.logged| ==> a.logged[i] < b.logged[j]
  {
    hide Followed, Distinct;
    RunInv(ws, acts, |acts|);
    var w := ws[|acts|];
    forall i | 0 <= i < |ops| ensures ops[i] < |w.ops| && (i > 0 ==> ops[i - 1] in w.ops[ops[i]].saw) {
      if i > 0 {
        FollowedSaw(ws, acts, ops[i - 1], ops[i]);
      } else {
        FollowedSaw(ws, acts, ops[0], ops[1]);
      }
    }
    ChainGrows(w, ops, |ops| - 1);
    assert OpInv(w, w.ops[ops[0]]) && OpInv(w, w.ops[ops[|ops| - 1]]);
  }

  /** How often an operation has logged. */
  function LogCount(acts: seq<Action>, o: nat): nat {
    if acts == [] then 0 else LogCount(acts[..|acts| - 1], o) + if acts[|acts| - 1].Log? && acts[|acts| - 1].o == o then 1 else 0
  }

  lemma RecordStep(w: World, a: Action, o: nat)
    requires Enabled(w, a)
    ensures var w' := Next(w, a);
            && |w.ops| <= |w'.ops|
            && (o < |w.ops| ==> |w'.ops[o].logged| == |w.ops[o].logged| + if a.Log? && a.o == o then 1 else 0)
            && (o < |w.ops| ==> (w'.ops[o].resp.Some? <==> w.ops[o].resp.Some? || a == Respond(o)))
            && (|w.ops| <= o < |w'.ops| ==> w'.ops[o].logged == [] && w'.ops[o].resp.None?)
            && (o >= |w.ops| ==> !(a.Log? && a.o == o) && a != Respond(o))
  {
    hide Tick, VersionOf;
  }

  /** Every log step of a run has its own record, and an operation has an answer if it gave one. */
  lemma {:induction false} EveryLogRecorded(ws: seq<World>, acts: seq<Action>, k: nat, o: nat)
    requires Run(ws, acts) && Initial(ws[0]) && k <= |acts|
    ensures if o < |ws[k].ops| then |ws[k].ops[o].logged| == LogCount(acts[..k], o) else LogCount(acts[..k], o) == 0
    ensures o < |ws[k].ops| ==> (ws[k].ops[o].resp.Some? <==> Respond(o) in acts[..k])
    ensures o >= |ws[k].ops| ==> Respond(o) !in acts[..k]
  {
    hide Enabled, Next;
    if k > 0 {
      EveryLogRecorded(ws, acts, k - 1, o);
      RecordStep(ws[k - 1], acts[k - 1], o);
      assert acts[..k] == acts[..k - 1] + [acts[k - 1]] && acts[..k][..k - 1] == acts[..k - 1];
      assert ws[k] == Next(ws[k - 1], acts[k - 1]);
    }
  }

  /** Every step that hands out a version moves that server's clock strictly forward. */
  lemma ClockAdvances(w: World, a: Action, s: nat)
    requires Inv(w) && Enabled(w, a) && s < |w.hlc|
    ensures w.hlc[s] <= Next(w, a).hlc[s]
    ensures (a.Begin? && w.ops[a.o].server == s) || (a.Log? && w.ops[a.o].server == s && w.ops[a.o].pending == 0) ==>
              w.hlc[s] < Next(w, a).hlc[s]
  {
    if a.Begin? {
      TickIsMax(w.hlc[w.ops[a.o].server], w.ops[a.o].req, a.now);
    } else if a.Log? {
      TickIsMax(w.hlc[w.ops[a.o].server], 0, a.now);
    }
  }
}
