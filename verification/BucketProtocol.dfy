/** The D-bit and 7-bit version protocol of one bucket, at the granularity of single
    64-byte accesses and compare-and-swaps, for any number of threads.

    The first word of the hash region holds the D-bit, the version and the first
    fingerprint; it is all that a compare-and-swap or a verifying re-read compares.
    `hist[c]` records what the bucket held after its c-th commit. */
module BucketProtocol {
  const VERSIONS: nat := 128

  /** One 64-byte hash region: the first word's fields and all eight fingerprints. */
  datatype Region = Region(locked: bool, ver: nat, fps: seq<nat>)

  /** A 128-byte value, written and read as two 64-byte halves. */
  datatype Cell = Cell(lo: int, hi: int)

  datatype Image = Image(fps: seq<nat>, vals: seq<Cell>)

  datatype Thread =
    | Idle
    | Snap(keys: Region, since: nat)
    | HalfRead(keys: Region, since: nat, slot: nat, lo: int)
    | FullRead(keys: Region, since: nat, slot: nat, lo: int, hi: int)
    | Holding(keys: Region, since: nat)
    | Accepted(slot: nat, val: Cell)

  datatype State = State(region: Region, vals: seq<Cell>, threads: seq<Thread>, hist: seq<Image>)

  datatype Action =
    | ReadRegion(t: nat)
    | Cas(t: nat)
    | WriteLo(t: nat, slot: nat, x: int)
    | WriteHi(t: nat, slot: nat, x: int)
    | Commit(t: nat, fps: seq<nat>)
    | ReadLo(t: nat, slot: nat)
    | ReadHi(t: nat)
    | Verify(t: nat, hit: bool)

  function Commits(s: State): int {
    |s.hist| - 1
  }

  /** The compared word: D-bit, version, first fingerprint. */
  predicate SameWord(a: Region, b: Region)
    requires |a.fps| == |b.fps| == 8
  {
    a.locked == b.locked && a.ver == b.ver && a.fps[0] == b.fps[0]
  }

  predicate Shape(s: State) {
    && |s.region.fps| == |s.vals| == 8 && |s.hist| > 0
    && (forall c :: 0 <= c < |s.hist| ==> |s.hist[c].fps| == |s.hist[c].vals| == 8)
    && (forall t :: 0 <= t < |s.threads| ==> ThreadShape(s.threads[t]))
  }

  predicate ThreadShape(th: Thread) {
    match th
    case Idle => true
    case Snap(keys, _) => |keys.fps| == 8
    case HalfRead(keys, _, slot, _) => |keys.fps| == 8 && slot < 8
    case FullRead(keys, _, slot, _, _) => |keys.fps| == 8 && slot < 8
    case Holding(keys, _) => |keys.fps| == 8
    case Accepted(slot, _) => slot < 8
  }

  /** The 7-bit version of the word after n commits. */
  function Ver(n: nat): nat { n % VERSIONS }

  lemma VerNext(n: nat)
    ensures Ver(Ver(n) + 1) == Ver(n + 1)
  {
  }

  function With(s: State, t: nat, th: Thread): State
    requires t < |s.threads|
  {
    s.(threads := s.threads[t := th])
  }

  /** One access; an action its thread is not ready for does nothing. */
  function Next(s: State, a: Action): (s': State)
    requires Shape(s)
    ensures Shape(s')
  {
    if a.t >= |s.threads| then s
    else
      var th := s.threads[a.t];
      match a
      case ReadRegion(t) =>
        if th.Holding? || s.region.locked then s
        else With(s, t, Snap(s.region, |s.hist| - 1))
      case Cas(t) =>
        if !th.Snap? then s
        else if SameWord(s.region, th.keys) then
          With(s, t, Holding(th.keys, th.since)).(region := Region(true, Ver(th.keys.ver + 1), s.region.fps))
        else With(s, t, Idle)
      case WriteLo(t, slot, x) =>
        if !th.Holding? || slot >= 8 then s else s.(vals := s.vals[slot := s.vals[slot].(lo := x)])
      case WriteHi(t, slot, x) =>
        if !th.Holding? || slot >= 8 then s else s.(vals := s.vals[slot := s.vals[slot].(hi := x)])
      case Commit(t, fps) =>
        if !th.Holding? || |fps| != 8 then s
        else With(s, t, Idle).(region := Region(false, Ver(th.keys.ver + 1), fps),
                               hist := s.hist + [Image(fps, s.vals)])
      case ReadLo(t, slot) =>
        if !th.Snap? || slot >= 8 then s
        else With(s, t, HalfRead(th.keys, th.since, slot, s.vals[slot].lo))
      case ReadHi(t) =>
        if !th.HalfRead? then s
        else With(s, t, FullRead(th.keys, th.since, th.slot, th.lo, s.vals[th.slot].hi))
      case Verify(t, hit) =>
        // `hit`: the value read has the key looked for; otherwise the scan goes on with the same snapshot.
        if !th.FullRead? then s
        else if !SameWord(s.region, th.keys) then With(s, t, Idle)
        else if hit then With(s, t, Accepted(th.slot, Cell(th.lo, th.hi)))
        else With(s, t, Snap(th.keys, th.since))
  }

  /** Fewer than 128 commits since the snapshot that this action relies on. */
  predicate InTime(s: State, a: Action) {
    a.t < |s.threads| && (a.Cas? || a.Verify?) ==>
      var th := s.threads[a.t];
      th.Snap? || th.FullRead? ==> Commits(s) - th.since < VERSIONS
  }

  // ── the invariant ──

  /** A thread's snapshot is the bucket as it was after commit number `since`. */
  predicate SnapOk(s: State, keys: Region, since: nat) {
    since < |s.hist| && keys == Region(false, Ver(since), s.hist[since].fps)
  }

  predicate ThreadInv(s: State, th: Thread)
    requires Shape(s) && ThreadShape(th)
  {
    match th
    case Idle => true
    case Snap(keys, since) => SnapOk(s, keys, since)
    case HalfRead(keys, since, slot, lo) =>
      SnapOk(s, keys, since) && (since == Commits(s) && !s.region.locked ==> lo == s.vals[slot].lo)
    case FullRead(keys, since, slot, lo, hi) =>
      SnapOk(s, keys, since) && (since == Commits(s) && !s.region.locked ==> Cell(lo, hi) == s.vals[slot])
    case Holding(keys, since) =>
      SnapOk(s, keys, since) && since == Commits(s) && s.region.locked
    case Accepted(_, _) => true
  }

  predicate Inv(s: State) {
    && Shape(s)
    && s.region.ver == Ver(Commits(s) + (if s.region.locked then 1 else 0))
    && s.region.fps == s.hist[Commits(s)].fps
    && (!s.region.locked ==> s.vals == s.hist[Commits(s)].vals)
    && (forall t :: 0 <= t < |s.threads| ==> ThreadInv(s, s.threads[t]))
    && (forall t, u :: 0 <= t < |s.threads| && 0 <= u < |s.threads| && s.threads[t].Holding? && s.threads[u].Holding? ==> t == u)
  }

  lemma VersionGap(c: nat, d: nat)
    requires d <= c < d + VERSIONS && Ver(c) == Ver(d)
    ensures c == d
  {}

  /** When the word still equals the snapshot's, nothing was committed in between if and only
      if fewer than 128 commits were; then the whole snapshot is exact. */
  lemma WordExact(s: State, keys: Region, since: nat)
    requires Inv(s) && |keys.fps| == 8 && SnapOk(s, keys, since) && SameWord(s.region, keys)
    ensures Commits(s) - since < VERSIONS <==> since == Commits(s)
    ensures Commits(s) - since < VERSIONS ==> keys == s.region
  {
    if Commits(s) - since < VERSIONS {
      VersionGap(Commits(s), since);
    }
  }

  lemma ThreadStep(s: State, t: nat, th: Thread)
    requires Inv(s) && t < |s.threads| && ThreadShape(th) && ThreadInv(s, th) && !th.Holding?
    ensures Inv(With(s, t, th))
  {
    var s' := With(s, t, th);
    forall u | 0 <= u < |s.threads| ensures ThreadShape(s'.threads[u]) && ThreadInv(s', s'.threads[u]) {
      assert ThreadInv(s, s.threads[u]);
    }
  }

  lemma LockStep(s: State, t: nat)
    requires Inv(s) && t < |s.threads| && s.threads[t].Snap? && SameWord(s.region, s.threads[t].keys)
    requires Commits(s) - s.threads[t].since < VERSIONS
    ensures Inv(Next(s, Cas(t)))
  {
    hide Ver;
    var th, s' := s.threads[t], Next(s, Cas(t));
    WordExact(s, th.keys, th.since);
    VerNext(th.since);
    forall u | 0 <= u < |s.threads| ensures ThreadShape(s'.threads[u]) && ThreadInv(s', s'.threads[u]) && !s.threads[u].Holding? {
      assert ThreadInv(s, s.threads[u]);
    }
  }

  lemma WriteStep(s: State, t: nat, slot: nat, c: Cell)
    requires Inv(s) && t < |s.threads| && s.threads[t].Holding? && slot < 8
    ensures Inv(s.(vals := s.vals[slot := c]))
  {
    var s' := s.(vals := s.vals[slot := c]);
    assert ThreadInv(s, s.threads[t]);
    forall u | 0 <= u < |s.threads| ensures ThreadInv(s', s'.threads[u]) {
      assert ThreadInv(s, s.threads[u]);
    }
  }

  lemma CommitStep(s: State, t: nat, fps: seq<nat>)
    requires Inv(s) && t < |s.threads| && s.threads[t].Holding? && |fps| == 8
    ensures Inv(Next(s, Commit(t, fps)))
  {
    hide Ver;
    var s' := Next(s, Commit(t, fps));
    assert ThreadInv(s, s.threads[t]);
    VerNext(s.threads[t].since);
    forall u | 0 <= u < |s.threads| ensures ThreadShape(s'.threads[u]) && ThreadInv(s', s'.threads[u]) {
      assert ThreadInv(s, s.threads[u]);
    }
  }

  lemma StepInv(s: State, a: Action)
    requires Inv(s) && InTime(s, a)
    ensures Inv(Next(s, a))
  {
    if a.t < |s.threads| {
      var th := s.threads[a.t];
      assert ThreadInv(s, th);
      hide Inv;
      if th.Holding? {
        match a {
          case WriteLo(t, slot, x) => if slot < 8 { WriteStep(s, t, slot, s.vals[slot].(lo := x)); }
          case WriteHi(t, slot, x) => if slot < 8 { WriteStep(s, t, slot, s.vals[slot].(hi := x)); }
          case Commit(t, fps) => if |fps| == 8 { CommitStep(s, t, fps); }
          case _ =>
        }
      } else if a.Cas? && th.Snap? && SameWord(s.region, th.keys) {
        LockStep(s, a.t);
      } else if Next(s, a) != s {
        ThreadStep(s, a.t, Next(s, a).threads[a.t]);
      }
    }
  }

  // ── runs ──

  ghost predicate Run(states: seq<State>, acts: seq<Action>) {
    && |states| == |acts| + 1
    && (forall i :: 0 <= i < |states| ==> Shape(states[i]))
    && (forall i :: 0 <= i < |acts| ==> states[i + 1] == Next(states[i], acts[i]))
  }

  ghost predicate Initial(s: State) {
    && Shape(s) && |s.hist| == 1
    && s.region == Region(false, 0, s.hist[0].fps) && s.vals == s.hist[0].vals
    && forall t :: 0 <= t < |s.threads| ==> s.threads[t] == Idle
  }

  lemma {:induction false} RunInv(states: seq<State>, acts: seq<Action>, i: nat)
    requires Run(states, acts) && Initial(states[0]) && i < |states|
    requires forall j :: 0 <= j < i ==> InTime(states[j], acts[j])
    ensures Inv(states[i])
  {
    if i > 0 {
      RunInv(states, acts, i - 1);
      StepInv(states[i - 1], acts[i - 1]);
    }
  }

  /** In every run whose accesses are in time: a compare-and-swap that wins had an exact
      snapshot and becomes the only holder, and a value that passes verification, whether it is
      returned or the scan goes on, is whole and the one the bucket holds at that moment, as of its
      last commit. */
  lemma ProtocolSound(states: seq<State>, acts: seq<Action>, i: nat)
    requires Run(states, acts) && Initial(states[0]) && i < |acts|
    requires forall j :: 0 <= j <= i ==> InTime(states[j], acts[j])
    requires acts[i].t < |states[i].threads|
    ensures acts[i].Cas? && states[i].threads[acts[i].t].Snap? && states[i + 1].threads[acts[i].t].Holding? ==>
              && states[i].threads[acts[i].t].keys == states[i].region
              && states[i].region.fps == states[i].hist[Commits(states[i])].fps
              && forall u :: 0 <= u < |states[i].threads| ==> !states[i].threads[u].Holding?
    ensures acts[i].Verify? && states[i].threads[acts[i].t].FullRead? && states[i + 1].threads[acts[i].t] != Idle ==>
              var th := states[i].threads[acts[i].t];
              && Cell(th.lo, th.hi) == states[i].vals[th.slot] == states[i].hist[Commits(states[i])].vals[th.slot]
              && states[i + 1].threads[acts[i].t] == if acts[i].hit then Accepted(th.slot, Cell(th.lo, th.hi)) else Snap(th.keys, th.since)
  {
    RunInv(states, acts, i);
    var s := states[i];
    var th := s.threads[acts[i].t];
    assert ThreadInv(s, th);
    if (th.Snap? || th.FullRead?) && (acts[i].Cas? || acts[i].Verify?) && SameWord(s.region, th.keys) {
      WordExact(s, th.keys, th.since);
      forall u | 0 <= u < |s.threads| ensures !s.threads[u].Holding? {
        assert ThreadInv(s, s.threads[u]);
      }
    }
  }

  // ── what a commit records ──

  /** The low half a holder last wrote to a slot in steps i up to k. */
  function LastLo(acts: seq<Action>, t: nat, slot: nat, i: nat, k: nat, x: int): int
    requires i <= k <= |acts|
  {
    if i == k then x
    else if acts[k - 1].WriteLo? && acts[k - 1].t == t && acts[k - 1].slot == slot then acts[k - 1].x
    else LastLo(acts, t, slot, i, k - 1, x)
  }

  function LastHi(acts: seq<Action>, t: nat, slot: nat, i: nat, k: nat, x: int): int
    requires i <= k <= |acts|
  {
    if i == k then x
    else if acts[k - 1].WriteHi? && acts[k - 1].t == t && acts[k - 1].slot == slot then acts[k - 1].x
    else LastHi(acts, t, slot, i, k - 1, x)
  }

  /** Step i takes the lock for thread t, which does not commit before step k. */
  ghost predicate Held(states: seq<State>, acts: seq<Action>, t: nat, i: nat, k: nat) {
    && Run(states, acts) && Initial(states[0]) && i < k < |states|
    && (forall j :: 0 <= j < k ==> InTime(states[j], acts[j]))
    && acts[i] == Cas(t) && t < |states[i].threads| && states[i].threads[t].Snap? && states[i + 1].threads[t].Holding?
    && (forall j :: i < j < k ==> !(acts[j].Commit? && acts[j].t == t && |acts[j].fps| == 8))
  }

  /** An access while thread t holds the bucket. */
  lemma HeldStep(s: State, a: Action, t: nat, slot: nat)
    requires Inv(s) && t < |s.threads| && s.threads[t].Holding? && !(a.Commit? && a.t == t && |a.fps| == 8) && slot < 8
    ensures var s' := Next(s, a);
            && s'.hist == s.hist && t < |s'.threads| && s'.threads[t] == s.threads[t]
            && s'.vals[slot].lo == (if a.WriteLo? && a.t == t && a.slot == slot then a.x else s.vals[slot].lo)
            && s'.vals[slot].hi == (if a.WriteHi? && a.t == t && a.slot == slot then a.x else s.vals[slot].hi)
  {
    hide Ver;
    if a.t < |s.threads| && a.t != t {
      assert !s.threads[a.t].Holding?;
      assert ThreadInv(s, s.threads[t]) && ThreadInv(s, s.threads[a.t]);
      assert a.Cas? && s.threads[a.t].Snap? ==> !SameWord(s.region, s.threads[a.t].keys);
    }
  }

  lemma TakeStep(s: State, t: nat)
    requires Shape(s) && t < |s.threads| && s.threads[t].Snap? && Next(s, Cas(t)).threads[t].Holding?
    ensures Next(s, Cas(t)).hist == s.hist && Next(s, Cas(t)).vals == s.vals && |Next(s, Cas(t)).threads| == |s.threads|
  {
  }

  /** While the bucket is held, a slot has what its holder last wrote there, and otherwise what it had. */
  lemma {:induction false} HeldValues(states: seq<State>, acts: seq<Action>, t: nat, i: nat, k: nat, slot: nat)
    requires Held(states, acts, t, i, k) && slot < 8
    ensures t < |states[k].threads| && states[k].threads[t].Holding? && states[k].hist == states[i].hist
    ensures var was := states[i].vals[slot];
            states[k].vals[slot] == Cell(LastLo(acts, t, slot, i, k, was.lo), LastHi(acts, t, slot, i, k, was.hi))
  {
    hide Inv, Next, InTime;
    assert states[k] == Next(states[k - 1], acts[k - 1]);
    if k == i + 1 {
      TakeStep(states[i], t);
      assert LastLo(acts, t, slot, i, i, states[i].vals[slot].lo) == states[i].vals[slot].lo;
    } else {
      HeldValues(states, acts, t, i, k - 1, slot);
      RunInv(states, acts, k - 1);
      HeldStep(states[k - 1], acts[k - 1], t, slot);
    }
  }

  /** A commit records the holder's fingerprints, and in every slot what the holder wrote last since it took
      the lock, or else what the commit before had recorded. */
  lemma CommitRecords(states: seq<State>, acts: seq<Action>, t: nat, i: nat, k: nat, slot: nat)
    requires Held(states, acts, t, i, k) && slot < 8 && k < |acts| && acts[k].Commit? && acts[k].t == t && |acts[k].fps| == 8
    ensures |states[k + 1].hist| == |states[i].hist| + 1 && states[k + 1].hist[..|states[i].hist|] == states[i].hist
    ensures var was, now := states[i].hist[Commits(states[i])], states[k + 1].hist[Commits(states[k + 1])];
            now.fps == acts[k].fps && now.vals[slot] == Cell(LastLo(acts, t, slot, i, k, was.vals[slot].lo), LastHi(acts, t, slot, i, k, was.vals[slot].hi))
  {
    HeldValues(states, acts, t, i, k, slot);
    RunInv(states, acts, i);
    var s := states[i];
    assert ThreadInv(s, s.threads[t]);
    assert !s.region.locked;
  }

  // ── alone, every access gets there ──

  /** On a free bucket a reader that is left alone accepts what the slot holds. */
  lemma ReaderSucceeds(s: State, t: nat, slot: nat)
    requires Inv(s) && t < |s.threads| && s.threads[t].Idle? && !s.region.locked && slot < 8
    ensures Next(Next(Next(Next(s, ReadRegion(t)), ReadLo(t, slot)), ReadHi(t)), Verify(t, true)) == With(s, t, Accepted(slot, s.vals[slot]))
  {
    var s1 := Next(s, ReadRegion(t));
    var s2 := Next(s1, ReadLo(t, slot));
    var s3 := Next(s2, ReadHi(t));
    assert s3.threads[t] == FullRead(s.region, |s.hist| - 1, slot, s.vals[slot].lo, s.vals[slot].hi);
    var s4 := Next(s3, Verify(t, true));
    assert s4.threads == s.threads[t := Accepted(slot, s.vals[slot])];
  }

  /** And a writer commits. */
  lemma WriterSucceeds(s: State, t: nat, slot: nat, c: Cell, fps: seq<nat>)
    requires Inv(s) && t < |s.threads| && s.threads[t].Idle? && !s.region.locked && slot < 8 && |fps| == 8
    ensures var e := Next(Next(Next(Next(Next(s, ReadRegion(t)), Cas(t)), WriteLo(t, slot, c.lo)), WriteHi(t, slot, c.hi)), Commit(t, fps));
            && e.hist == s.hist + [Image(fps, s.vals[slot := c])] && !e.region.locked && e.region.fps == fps && e.vals == s.vals[slot := c]
  {
    hide Ver;
    var s1 := Next(s, ReadRegion(t));
    var s2 := Next(s1, Cas(t));
    assert s2.threads[t].Holding?;
    var s3 := Next(s2, WriteLo(t, slot, c.lo));
    var s4 := Next(s3, WriteHi(t, slot, c.hi));
    assert s4.vals == s.vals[slot := c];
  }

  // ── the bound cannot be weakened ──

  function Exec(s: State, acts: seq<Action>): (s': State)
    requires Shape(s)
    ensures Shape(s')
  {
    if acts == [] then s else Next(Exec(s, acts[..|acts| - 1]), acts[|acts| - 1])
  }

  const BEFORE: seq<nat> := [1, 0, 0, 0, 0, 0, 0, 0]
  const AFTER: seq<nat> := [1, 2, 0, 0, 0, 0, 0, 0]

  /** Thread 1 locks and commits the bucket k times. */
  function Cycles(k: nat): seq<Action> {
    if k == 0 then [ReadRegion(0)]
    else Cycles(k - 1) + [ReadRegion(1), Cas(1), Commit(1, AFTER)]
  }

  lemma ExecSnoc(s: State, acts: seq<Action>, a: Action)
    requires Shape(s)
    ensures Exec(s, acts + [a]) == Next(Exec(s, acts), a)
  {
    assert (acts + [a])[..|acts|] == acts;
  }

  lemma OneCycle(e: State)
    requires Shape(e) && |e.threads| == 2 && e.threads[1] == Idle && !e.region.locked
    ensures Next(Next(Next(e, ReadRegion(1)), Cas(1)), Commit(1, AFTER))
            == e.(region := Region(false, Ver(e.region.ver + 1), AFTER), hist := e.hist + [Image(AFTER, e.vals)])
  {
    var e1 := Next(e, ReadRegion(1));
    var e2 := Next(e1, Cas(1));
    assert e2.threads[1].Holding?;
    var e3 := Next(e2, Commit(1, AFTER));
    assert e3.threads == e.threads;
  }

  /** What k cycles leave behind. */
  predicate Cycled(s: State, e: State, k: nat) {
    && Commits(e) == k && e.threads == [Snap(s.region, 0), Idle]
    && e.region == Region(false, Ver(k), if k == 0 then BEFORE else AFTER)
  }

  lemma ExecCycle(s: State, k: nat)
    requires Shape(s) && Cycled(s, Exec(s, Cycles(k)), k)
    ensures Cycled(s, Exec(s, Cycles(k + 1)), k + 1)
  {
    hide Next, Exec, Shape;
    var c := Cycles(k);
    ExecSnoc(s, c, ReadRegion(1));
    ExecSnoc(s, c + [ReadRegion(1)], Cas(1));
    ExecSnoc(s, c + [ReadRegion(1)] + [Cas(1)], Commit(1, AFTER));
    assert Cycles(k + 1) == c + [ReadRegion(1)] + [Cas(1)] + [Commit(1, AFTER)];
    OneCycle(Exec(s, c));
    VerNext(k);
  }

  lemma NoCycles(s: State)
    requires Initial(s) && |s.threads| == 2 && s.hist[0].fps == BEFORE
    ensures Cycled(s, Exec(s, Cycles(0)), 0)
  {
    ExecSnoc(s, [], ReadRegion(0));
    assert Cycles(0) == [] + [ReadRegion(0)];
    assert Exec(s, Cycles(0)) == With(s, 0, Snap(s.region, 0));
  }

  lemma {:induction false} ExecCycles(s: State, k: nat)
    requires Initial(s) && |s.threads| == 2 && s.hist[0].fps == BEFORE
    ensures Cycled(s, Exec(s, Cycles(k)), k)
  {
    hide Cycled, Exec, Cycles, Next;
    if k == 0 {
      NoCycles(s);
    } else {
      ExecCycles(s, k - 1);
      ExecCycle(s, k - 1);
    }
  }

  /** After exactly 128 commits the version wraps, and a compare-and-swap on a stale snapshot wins. */
  lemma BoundIsTight() returns (s: State)
    ensures Initial(s)
    ensures var e := Exec(s, Cycles(VERSIONS));
            && |e.threads| == 2 && e.threads[0].Snap? && Commits(e) - e.threads[0].since == VERSIONS
            && e.threads[0].keys != e.region && Next(e, Cas(0)).threads[0].Holding?
  {
    var vals := seq(8, i => Cell(0, 0));
    s := State(Region(false, 0, BEFORE), vals, [Idle, Idle], [Image(BEFORE, vals)]);
    ExecCycles(s, VERSIONS);
  }
}
