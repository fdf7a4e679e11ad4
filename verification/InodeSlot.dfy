/** One slot of the inode array under concurrent update_fn and erase calls.

    Every 64-byte access and every compare-and-swap is one step.  The 128-byte write
    that ends an update goes high line first, so the line holding the control word,
    and with it the unlock, lands last. */
module InodeSlots {
  /** The control word: D-bit, 7-bit version, valid bit. */
  datatype Ctrl = Ctrl(dirty: bool, ver: nat, valid: bool)

  /** An inode as the two parts that share the slot's cache lines. */
  datatype Inode = Inode(low: int, high: int)

  type Callback = Inode -> Inode

  function MakeLocked(c: Ctrl): Ctrl {
    c.(dirty := true)
  }

  function MakeUnlockedWithVersionBump(c: Ctrl): Ctrl {
    c.(dirty := false, ver := (c.ver + 1) % 128)
  }

  datatype Call = Update(f: Callback) | Erase

  datatype Thread =
    | Polling(call: Call)                              // re-reads the control word while it is dirty
    | Ready(call: Call, seen: Ctrl)                  // about to compare-and-swap
    | Locked(call: Call, seen: Ctrl)                 // holds the D-bit
    | ReadLine0(call: Call, seen: Ctrl, low: int)
    | ReadLine1(call: Call, seen: Ctrl, cur: Inode)
    | WroteLine1(call: Call, seen: Ctrl, next: Inode)
    | Done(ok: bool)

  datatype Entry = Entry(t: nat, call: Call)

  /** `log` lists the calls that completed successfully, in the order in which they took the lock. */
  datatype State = State(ctrl: Ctrl, cell: Inode, threads: seq<Thread>, log: seq<Entry>)

  /** One access by thread t. */
  function Next(s: State, t: nat): State
    requires t < |s.threads|
  {
    var th := s.threads[t];
    match th
    case Polling(call) =>
      if s.ctrl.dirty then s
      else if !s.ctrl.valid then s.(threads := s.threads[t := Done(false)])
      else s.(threads := s.threads[t := Ready(call, s.ctrl)])
    case Ready(call, seen) =>
      if s.ctrl == seen then s.(ctrl := MakeLocked(seen), threads := s.threads[t := Locked(call, seen)])
      else if s.ctrl.dirty then s.(threads := s.threads[t := Polling(call)])
      else if !s.ctrl.valid then s.(threads := s.threads[t := Done(false)])
      else s.(threads := s.threads[t := Ready(call, s.ctrl)])
    case Locked(call, seen) =>
      if call.Erase? then
        s.(ctrl := Ctrl(false, 0, false), cell := s.cell.(low := 0),
           threads := s.threads[t := Done(true)], log := s.log + [Entry(t, call)])
      else s.(threads := s.threads[t := ReadLine0(call, seen, s.cell.low)])
    case ReadLine0(call, seen, low) =>
      s.(threads := s.threads[t := ReadLine1(call, seen, Inode(low, s.cell.high))])
    case ReadLine1(call, seen, cur) =>
      if call.Erase? then s
      else
        var next := call.f(cur);
        s.(cell := s.cell.(high := next.high), threads := s.threads[t := WroteLine1(call, seen, next)])
    case WroteLine1(call, seen, next) =>
      s.(ctrl := MakeUnlockedWithVersionBump(seen).(valid := true), cell := s.cell.(low := next.low),
         threads := s.threads[t := Done(true)], log := s.log + [Entry(t, call)])
    case Done(_) => s
  }

  /** The slot's abstract value: the inode, or none once erased. */
  datatype Slot = Live(inode: Inode) | Gone

  function Fold(init: Inode, log: seq<Entry>): Slot {
    if log == [] then Live(init)
    else
      var before := Fold(init, log[..|log| - 1]);
      match log[|log| - 1].call
      case Erase => Gone
      case Update(f) => if before.Live? then Live(f(before.inode)) else Gone
  }

  predicate Holds(th: Thread) {
    th.Locked? || th.ReadLine0? || th.ReadLine1? || th.WroteLine1?
  }

  /** What a lock holder has seen is the fold of everything completed before it. */
  predicate HolderInv(init: Inode, s: State, th: Thread)
    requires Holds(th)
  {
    var v := Fold(init, s.log);
    && v.Live? && !th.seen.dirty && th.seen.valid && th.seen.ver == |s.log| % 128
    && s.ctrl == MakeLocked(th.seen)
    && (th.Locked? ==> s.cell == v.inode)
    && (th.ReadLine0? ==> s.cell == v.inode && th.low == v.inode.low && th.call.Update?)
    && (th.ReadLine1? ==> s.cell == v.inode && th.cur == v.inode && th.call.Update?)
    && (th.WroteLine1? ==> th.call.Update? && th.next == th.call.f(v.inode) && s.cell == Inode(v.inode.low, th.next.high))
  }

  /** No call is logged twice, and an erase is last. */
  predicate Ordered(log: seq<Entry>) {
    forall p, q :: 0 <= p < q < |log| ==> log[p].t != log[q].t && log[p].call.Update?
  }

  /** A call is logged exactly once if it returned true, and never otherwise. */
  predicate LogInv(s: State) {
    && (forall p :: 0 <= p < |s.log| ==> s.log[p].t < |s.threads| && s.threads[s.log[p].t] == Done(true))
    && Ordered(s.log)
    && (forall t :: 0 <= t < |s.threads| && s.threads[t] == Done(true) ==> exists p :: 0 <= p < |s.log| && s.log[p].t == t)
  }

  /** A call that answered false found the inode erased. */
  predicate RefusedInv(init: Inode, s: State) {
    forall t :: 0 <= t < |s.threads| && s.threads[t] == Done(false) ==> Fold(init, s.log) == Gone
  }

  predicate Inv(init: Inode, s: State) {
    && (s.ctrl.dirty ==> exists t :: 0 <= t < |s.threads| && Holds(s.threads[t]))
    && (!s.ctrl.dirty ==> Fold(init, s.log) == if s.ctrl.valid then Live(s.cell) else Gone)
    && (!s.ctrl.dirty && s.ctrl.valid ==> s.ctrl.ver == |s.log| % 128)
    && (forall t :: 0 <= t < |s.threads| && Holds(s.threads[t]) ==> HolderInv(init, s, s.threads[t]))
    && (forall t, u :: 0 <= t < |s.threads| && 0 <= u < |s.threads| && Holds(s.threads[t]) && Holds(s.threads[u]) ==> t == u)
    && (forall t :: 0 <= t < |s.threads| && s.threads[t].Ready? ==> !s.threads[t].seen.dirty && s.threads[t].seen.valid)
    && LogInv(s) && RefusedInv(init, s)
  }

  lemma FoldSnoc(init: Inode, log: seq<Entry>, c: Entry)
    ensures Fold(init, log + [c]) == (match c.call
                                      case Erase => Gone
                                      case Update(f) => var v := Fold(init, log); if v.Live? then Live(f(v.inode)) else Gone)
  {
    assert (log + [c])[..|log|] == log;
  }

  lemma LiveUpdates(init: Inode, log: seq<Entry>)
    requires Fold(init, log).Live?
    ensures forall p :: 0 <= p < |log| ==> log[p].call.Update?
  {
    if log != [] {
      LiveUpdates(init, log[..|log| - 1]);
    }
  }

  lemma LogKept(s: State, s': State, t: nat)
    requires LogInv(s) && t < |s.threads| && s'.log == s.log && |s'.threads| == |s.threads| && s'.threads == s.threads[t := s'.threads[t]]
    requires s.threads[t] != Done(true) && s'.threads[t] != Done(true)
    ensures LogInv(s')
  {
    hide Ordered;
    forall u | 0 <= u < |s'.threads| && s'.threads[u] == Done(true) ensures exists p :: 0 <= p < |s'.log| && s'.log[p].t == u {
      assert s.threads[u] == Done(true);
    }
  }

  lemma LogAppend(init: Inode, s: State, s': State, t: nat, call: Call)
    requires LogInv(s) && t < |s.threads| && s.threads[t] != Done(true) && Fold(init, s.log).Live?
    requires s'.threads == s.threads[t := Done(true)] && s'.log == s.log + [Entry(t, call)]
    ensures LogInv(s')
  {
    LiveUpdates(init, s.log);
    forall u | 0 <= u < |s.threads| && s'.threads[u] == Done(true)
      ensures exists p :: 0 <= p < |s'.log| && s'.log[p].t == u
    {
      if u == t {
        assert s'.log[|s.log|].t == u;
      } else {
        var p :| 0 <= p < |s.log| && s.log[p].t == u;
        assert s'.log[p].t == u;
      }
    }
  }

  /** Polling, a lost compare-and-swap, or a read under the lock: only the thread moves. */
  lemma ThreadStep(init: Inode, s: State, t: nat, th: Thread)
    requires Inv(init, s) && t < |s.threads| && s.threads[t] != Done(true) && th != Done(true)
    requires Holds(th) == Holds(s.threads[t]) && (Holds(th) ==> HolderInv(init, s, th))
    requires th.Ready? ==> !th.seen.dirty && th.seen.valid
    requires th == Done(false) ==> Fold(init, s.log) == Gone
    ensures Inv(init, s.(threads := s.threads[t := th]))
  {
    hide LogInv, Fold;
    var s' := s.(threads := s.threads[t := th]);
    LogKept(s, s', t);
    if s.ctrl.dirty {
      var h :| 0 <= h < |s.threads| && Holds(s.threads[h]);
      assert Holds(s'.threads[h]);
    }
    forall u | 0 <= u < |s.threads| && Holds(s'.threads[u]) ensures HolderInv(init, s', s'.threads[u]) {
      assert Holds(s.threads[u]);
    }
  }

  /** The holder moves on, changing memory that only it may change. */
  lemma HolderStep(init: Inode, s: State, s': State, t: nat)
    requires Inv(init, s) && t < |s.threads| && LogInv(s')
    requires |s'.threads| == |s.threads| && s'.threads == s.threads[t := s'.threads[t]]
    requires forall u :: 0 <= u < |s.threads| && u != t ==> !Holds(s.threads[u])
    requires Holds(s'.threads[t]) ==> s'.ctrl.dirty && HolderInv(init, s', s'.threads[t])
    requires !Holds(s'.threads[t]) ==> !s'.ctrl.dirty && !s'.threads[t].Ready?
    requires !s'.ctrl.dirty ==> Fold(init, s'.log) == if s'.ctrl.valid then Live(s'.cell) else Gone
    requires !s'.ctrl.dirty && s'.ctrl.valid ==> s'.ctrl.ver == |s'.log| % 128
    requires Fold(init, s.log).Live? && s'.threads[t] != Done(false)
    ensures Inv(init, s')
  {
    hide HolderInv, Fold, LogInv;
    if s'.ctrl.dirty {
      assert Holds(s'.threads[t]);
    }
  }

  lemma HeldStep(init: Inode, s: State, t: nat)
    requires Inv(init, s) && t < |s.threads| && Holds(s.threads[t])
    ensures Inv(init, Next(s, t))
  {
    hide LogInv, Fold;
    var s', th := Next(s, t), s.threads[t];
    assert HolderInv(init, s, th);
    if s'.log != s.log {
      FoldSnoc(init, s.log, Entry(t, th.call));
      LogAppend(init, s, s', t, th.call);
    } else {
      LogKept(s, s', t);
    }
    HolderStep(init, s, s', t);
  }

  lemma AcquireStep(init: Inode, s: State, t: nat)
    requires Inv(init, s) && t < |s.threads| && s.threads[t].Ready? && s.ctrl == s.threads[t].seen
    ensures Inv(init, Next(s, t))
  {
    hide LogInv;
    var s' := Next(s, t);
    LogKept(s, s', t);
    forall u | 0 <= u < |s.threads| && u != t ensures !Holds(s.threads[u]) {
      assert Holds(s.threads[u]) ==> HolderInv(init, s, s.threads[u]);
    }
    HolderStep(init, s, s', t);
  }

  lemma ErasedIsGone(init: Inode, s: State)
    requires Inv(init, s) && !s.ctrl.dirty && !s.ctrl.valid
    ensures Fold(init, s.log) == Gone
  {
  }

  lemma StepInv(init: Inode, s: State, t: nat)
    requires Inv(init, s) && t < |s.threads|
    ensures Inv(init, Next(s, t))
  {
    hide Inv, HolderInv, Fold;
    var s', th := Next(s, t), s.threads[t];
    if Holds(th) {
      HeldStep(init, s, t);
    } else if th.Ready? && s.ctrl == th.seen {
      AcquireStep(init, s, t);
    } else if s' != s {
      if s'.threads[t] == Done(false) {
        ErasedIsGone(init, s);
      }
      ThreadStep(init, s, t, s'.threads[t]);
    }
  }

  // ── every interleaving ──

  function Exec(s: State, sched: seq<nat>): (e: State)
    requires forall i :: 0 <= i < |sched| ==> sched[i] < |s.threads|
    ensures |e.threads| == |s.threads|
  {
    if sched == [] then s else Next(Exec(s, sched[..|sched| - 1]), sched[|sched| - 1])
  }

  /** A freshly inserted slot and calls that have not started. */
  predicate Initial(init: Inode, s: State) {
    && s.ctrl == Ctrl(false, 0, true) && s.cell == init && s.log == []
    && forall t :: 0 <= t < |s.threads| ==> s.threads[t].Polling?
  }

  lemma {:induction false} RunInv(init: Inode, s: State, sched: seq<nat>)
    requires Inv(init, s) && forall i :: 0 <= i < |sched| ==> sched[i] < |s.threads|
    ensures Inv(init, Exec(s, sched))
  {
    hide Inv, Next;
    if sched != [] {
      RunInv(init, s, sched[..|sched| - 1]);
      StepInv(init, Exec(s, sched[..|sched| - 1]), sched[|sched| - 1]);
    }
  }

  lemma InitialInv(init: Inode, s: State)
    requires Initial(init, s)
    ensures Inv(init, s)
  {
  }

  /** What the invariant says of a free slot and of refused calls. */
  lemma InvSays(init: Inode, e: State)
    requires Inv(init, e)
    ensures !e.ctrl.dirty && e.ctrl.valid ==> Fold(init, e.log) == Live(e.cell) && e.ctrl.ver == |e.log| % 128
    ensures !e.ctrl.dirty && !e.ctrl.valid ==> Fold(init, e.log) == Gone
    ensures forall t :: 0 <= t < |e.threads| && e.threads[t] == Done(false) ==> Fold(init, e.log) == Gone
  {
    hide HolderInv, LogInv, Fold;
  }

  /** For every interleaving: whenever the slot is free it holds the fold of the calls that
      completed, in lock order, and its version counts them; a call is in that fold exactly once if it
      returned true and not at all if it returned false, which it does only on an erased inode; and
      nothing completes after an erase. */
  lemma NoLostUpdate(init: Inode, s: State, sched: seq<nat>)
    requires Initial(init, s)
    requires forall i :: 0 <= i < |sched| ==> sched[i] < |s.threads|
    ensures var e := Exec(s, sched);
            && Inv(init, e)
            && (!e.ctrl.dirty && e.ctrl.valid ==> Fold(init, e.log) == Live(e.cell) && e.ctrl.ver == |e.log| % 128)
            && (!e.ctrl.dirty && !e.ctrl.valid ==> Fold(init, e.log) == Gone)
            && (forall t :: 0 <= t < |e.threads| && e.threads[t] == Done(false) ==> Fold(init, e.log) == Gone)
  {
    hide Inv, Initial, Exec, Fold;
    InitialInv(init, s);
    RunInv(init, s, sched);
    InvSays(init, Exec(s, sched));
  }

  // ── every call can finish ──

  /** The slot after `call`, which did nothing else but complete. */
  ghost predicate Completed(init: Inode, s: State, t: nat, call: Call, e: State)
    requires t < |s.threads|
  {
    && e.threads == s.threads[t := Done(true)] && e.log == s.log + [Entry(t, call)] && !e.ctrl.dirty
    && Fold(init, s.log).Live?
    && match call
       case Erase => !e.ctrl.valid
       case Update(f) => e.ctrl.valid && e.cell == f(Fold(init, s.log).inode)
  }

  function Repeat(t: nat, k: nat): (sched: seq<nat>)
    ensures |sched| == k && forall i :: 0 <= i < k ==> sched[i] == t
  {
    seq(k, _ => t)
  }

  lemma ExecAppend(s: State, a: seq<nat>, b: seq<nat>)
    requires forall i :: 0 <= i < |a| ==> a[i] < |s.threads|
    requires forall i :: 0 <= i < |b| ==> b[i] < |s.threads|
    ensures forall i :: 0 <= i < |a + b| ==> (a + b)[i] < |s.threads|
    ensures Exec(s, a + b) == Exec(Exec(s, a), b)
  {
    if b == [] {
      assert a + b == a;
    } else {
      ExecAppend(s, a, b[..|b| - 1]);
      assert (a + b)[..|a + b| - 1] == a + b[..|b| - 1];
    }
  }

  lemma ExecFirst(s: State, t: nat, k: nat)
    requires t < |s.threads| && k > 0
    ensures Exec(s, Repeat(t, k)) == Exec(Next(s, t), Repeat(t, k - 1))
  {
    hide Next;
    assert Repeat(t, k) == [t] + Repeat(t, k - 1);
    ExecAppend(s, [t], Repeat(t, k - 1));
    assert [t][..0] == [];
  }

  lemma {:induction false} DoneStays(s: State, t: nat, k: nat)
    requires t < |s.threads| && s.threads[t].Done?
    ensures Exec(s, Repeat(t, k)) == s
  {
    if k > 0 {
      ExecFirst(s, t, k);
      DoneStays(s, t, k - 1);
    }
  }

  /** How many accesses a thread still needs if nobody is in its way. */
  function Need(th: Thread): nat {
    match th
    case Polling(_) => 6
    case Ready(_, _) => 5
    case Locked(_, _) => 4
    case ReadLine0(_, _, _) => 3
    case ReadLine1(_, _, _) => 2
    case WroteLine1(_, _, _) => 1
    case Done(_) => 0
  }

  lemma HolderNext(init: Inode, s: State, t: nat)
    requires Inv(init, s) && t < |s.threads| && Holds(s.threads[t])
    ensures var s', th := Next(s, t), s.threads[t];
            || Completed(init, s, t, th.call, s')
            || (&& Holds(s'.threads[t]) && s'.threads[t].call == th.call && Need(s'.threads[t]) < Need(th)
                && s'.log == s.log && s'.threads == s.threads[t := s'.threads[t]])
  {
    hide LogInv, RefusedInv, Fold;
    assert HolderInv(init, s, s.threads[t]);
  }

  /** A lock holder that runs completes its call. */
  lemma {:induction false} HolderFinishes(init: Inode, s: State, t: nat, k: nat)
    requires Inv(init, s) && t < |s.threads| && Holds(s.threads[t]) && Need(s.threads[t]) <= k
    ensures Completed(init, s, t, s.threads[t].call, Exec(s, Repeat(t, k)))
    decreases k
  {
    hide Inv, Next, Fold, Exec, Repeat;
    HolderNext(init, s, t);
    StepInv(init, s, t);
    ExecFirst(s, t, k);
    var s' := Next(s, t);
    if Holds(s'.threads[t]) {
      HolderFinishes(init, s', t, k - 1);
    } else {
      DoneStays(s', t, k - 1);
    }
  }

  /** On a free slot a call that is left alone succeeds on a live inode, and is refused on an erased one. */
  lemma AloneSucceeds(init: Inode, s: State, t: nat)
    requires Inv(init, s) && t < |s.threads| && s.threads[t].Polling? && !s.ctrl.dirty
    ensures var e := Exec(s, Repeat(t, 6));
            if s.ctrl.valid then Completed(init, s, t, s.threads[t].call, e)
            else e == s.(threads := s.threads[t := Done(false)])
  {
    hide Inv, Fold, Exec, Repeat;
    StepInv(init, s, t);
    ExecFirst(s, t, 6);
    var s1 := Next(s, t);
    if s.ctrl.valid {
      StepInv(init, s1, t);
      ExecFirst(s1, t, 5);
      HolderFinishes(init, Next(s1, t), t, 4);
    } else {
      DoneStays(s1, t, 5);
    }
  }

  lemma Holder(init: Inode, s: State) returns (t: nat)
    requires Inv(init, s) && s.ctrl.dirty
    ensures t < |s.threads| && Holds(s.threads[t])
  {
    t :| 0 <= t < |s.threads| && Holds(s.threads[t]);
  }

  /** Whatever has happened, every call that has not returned can be brought to its answer. */
  lemma NobodyIsStuck(init: Inode, s: State, t: nat) returns (sched: seq<nat>)
    requires Inv(init, s) && t < |s.threads|
    ensures (forall i :: 0 <= i < |sched| ==> sched[i] < |s.threads|) && Exec(s, sched).threads[t].Done?
  {
    hide Inv, Fold, Next, Exec, Repeat;
    if s.threads[t].Done? {
      sched := [];
      DoneStays(s, t, 0);
      assert Repeat(t, 0) == [];
    } else if Holds(s.threads[t]) {
      HolderFinishes(init, s, t, 4);
      sched := Repeat(t, 4);
    } else if s.ctrl.dirty {
      var h := Holder(init, s);
      HolderFinishes(init, s, h, 4);
      RunInv(init, s, Repeat(h, 4));
      var s1 := Exec(s, Repeat(h, 4));
      var rest := FreeFinish(init, s1, t);
      ExecAppend(s, Repeat(h, 4), rest);
      sched := Repeat(h, 4) + rest;
    } else {
      sched := FreeFinish(init, s, t);
    }
  }

  lemma FreeFinish(init: Inode, s: State, t: nat) returns (sched: seq<nat>)
    requires Inv(init, s) && t < |s.threads| && !s.ctrl.dirty && (s.threads[t].Polling? || s.threads[t].Ready?)
    ensures (forall i :: 0 <= i < |sched| ==> sched[i] < |s.threads|) && Exec(s, sched).threads[t].Done?
  {
    hide Inv, Fold, Exec, Repeat;
    if s.threads[t].Polling? {
      AloneSucceeds(init, s, t);
      sched := Repeat(t, 6);
    } else {
      // The compare-and-swap wins, or returns a fresh word.
      var s1 := Next(s, t);
      StepInv(init, s, t);
      if Holds(s1.threads[t]) {
        ExecFirst(s, t, 5);
        HolderFinishes(init, s1, t, 4);
        sched := Repeat(t, 5);
      } else if s1.threads[t].Done? {
        ExecFirst(s, t, 1);
        DoneStays(s1, t, 0);
        sched := Repeat(t, 1);
      } else {
        StepInv(init, s1, t);
        ExecFirst(s, t, 6);
        ExecFirst(s1, t, 5);
        HolderFinishes(init, Next(s1, t), t, 4);
        sched := Repeat(t, 6);
      }
    }
  }
}
