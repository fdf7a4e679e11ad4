/** Forwarding of remote inode changes: the sender's queues and adaptive batch caps, the
    receiver's ring, and conservation over any run of a cluster. */
module Forwarding {
  import opened RemoteChanges
  import opened RingIndex

  const BATCH_FLOOR: nat := 512
  const BATCH_CEIL: nat := 65536
  const BATCH_INITIAL: nat := 4096
  const FATAL: nat := 0xFFFF_FFFF

  datatype Cell = Empty | Ready(change: Change)

  /** A received change and the server it came from. */
  datatype Received = Received(sender: nat, change: Change)

  ghost function From(log: seq<Received>, s: nat): seq<Change> {
    if log == [] then []
    else From(log[..|log| - 1], s) + if log[|log| - 1].sender == s then [log[|log| - 1].change] else []
  }

  ghost function Tagged(s: nat, cs: seq<Change>): seq<Received> {
    seq(|cs|, i requires 0 <= i < |cs| => Received(s, cs[i]))
  }

  lemma {:induction false} FromAppend(log: seq<Received>, s: nat, cs: seq<Change>, r: nat)
    ensures From(log + Tagged(s, cs), r) == if r == s then From(log, r) + cs else From(log, r)
  {
    if cs == [] {
      assert log + Tagged(s, cs) == log;
    } else {
      var n := |cs| - 1;
      FromAppend(log, s, cs[..n], r);
      var all := log + Tagged(s, cs);
      assert all[..|all| - 1] == log + Tagged(s, cs[..n]);
      assert cs == cs[..n] + [cs[n]];
    }
  }

  /** Positions cp..head hold the changes of the log, the rest of the ring is empty. */
  ghost predicate RingOk(cells: seq<Cell>, log: seq<Received>, cp: nat, head: nat) {
    && |cells| > 0 && cp <= head == |log| && head - cp <= |cells| - 1
    && (forall p :: cp <= p < head ==> cells[Idx(p, |cells|)] == Ready(log[p].change))
    && (forall p :: head <= p < cp + |cells| ==> cells[Idx(p, |cells|)] == Empty)
  }

  lemma AppendCell(cells: seq<Cell>, log: seq<Received>, cp: nat, head: nat, r: Received)
    requires RingOk(cells, log, cp, head) && head - cp < |cells| - 1
    ensures RingOk(cells[Idx(head, |cells|) := Ready(r.change)], log + [r], cp, head + 1)
  {
    hide Idx;
    forall p | cp <= p < cp + |cells| && p != head ensures Idx(p, |cells|) != Idx(head, |cells|) {
      if p < head {
        ModDistinct(p, head, |cells|);
      } else {
        ModDistinct(head, p, |cells|);
      }
    }
  }

  lemma ClearCell(cells: seq<Cell>, log: seq<Received>, cp: nat, head: nat)
    requires RingOk(cells, log, cp, head) && cp < head
    ensures RingOk(cells[Idx(cp, |cells|) := Empty], log, cp + 1, head)
  {
    hide Idx;
    forall p | cp < p < cp + |cells| ensures Idx(p, |cells|) != Idx(cp, |cells|) {
      ModDistinct(cp, p, |cells|);
    }
    ModShift(cp, |cells|);
  }

  class RemoteWal {
    const ring: array<Cell>
    var head: nat
    var cp: nat
    /** Every change ever appended; the one at position p is log[p]. */
    ghost var log: seq<Received>

    ghost predicate Valid()
      reads this, ring
    {
      RingOk(ring[..], log, cp, head)
    }

    /** One slot of the ring stays free. */
    predicate IsFull()
      reads this
    {
      head - cp == ring.Length - 1
    }

    constructor (capacity: nat)
      requires capacity > 0
      ensures Valid() && fresh(ring) && log == [] && ring.Length == capacity
    {
      ring := new Cell[capacity](_ => Empty);
      head, cp, log := 0, 0, [];
    }

    /** TryAppendPartial: as many of the changes as fit, the first ones. */
    method TryAppendPartial(ghost sender: nat, changes: seq<Change>) returns (take: nat)
      requires Valid()
      modifies this`head, this`log, ring
      ensures Valid() && take <= |changes| && log == old(log) + Tagged(sender, changes[..take])
      ensures take == |changes| || IsFull()
    {
      if |changes| == 0 || head - cp >= ring.Length - 1 {
        assert log == old(log) + Tagged(sender, changes[..0]);
        return 0;
      }
      var free := ring.Length - 1 - (head - cp);
      take := if |changes| <= free then |changes| else free;
      WriteEntries(sender, changes[..take]);
    }

    method WriteEntries(ghost sender: nat, changes: seq<Change>)
      requires Valid() && head - cp + |changes| <= ring.Length - 1
      modifies this`head, this`log, ring
      ensures Valid() && log == old(log) + Tagged(sender, changes)
    {
      hide RingOk, Idx;
      RingSizes(ring[..], log, cp, head);
      ghost var log0 := log;
      for i := 0 to |changes|
        invariant head == old(head) && log == log0 + Tagged(sender, changes[..i])
        invariant RingOk(ring[..], log, cp, head + i)
      {
        AppendCell(ring[..], log, cp, head + i, Received(sender, changes[i]));
        ring[Idx(head + i, ring.Length)] := Ready(changes[i]);
        log := log + [Received(sender, changes[i])];
        assert log == log0 + Tagged(sender, changes[..i + 1]);
      }
      head := head + |changes|;
      assert changes[..|changes|] == changes;
    }

    /** The drain loop: entries from `from` up to the first one that is not ready. */
    method Drain(from: nat) returns (cs: seq<Change>, end: nat)
      requires Valid() && cp <= from <= head
      ensures end == head && |cs| == head - from && forall i :: 0 <= i < |cs| ==> cs[i] == log[from + i].change
    {
      hide Idx;
      cs, end := [], from;
      while end < head
        invariant from <= end <= head && |cs| == end - from
        invariant forall i :: 0 <= i < |cs| ==> cs[i] == log[from + i].change
      {
        var cell := ring[Idx(end, ring.Length)];
        assert cell == ring[..][Idx(end, ring.Length)];
        if cell.Empty? {
          break;
        }
        cs, end := cs + [cell.change], end + 1;
      }
    }

    /** ClearRange and AdvanceCheckpoint up to a drained position. */
    method Release(pos: nat)
      requires Valid() && cp <= pos <= head
      modifies this`cp, ring
      ensures Valid() && cp == pos
    {
      hide RingOk, Idx;
      RingSizes(ring[..], log, cp, head);
      for p := cp to pos
        invariant cp == old(cp) && RingOk(ring[..], log, p, head)
      {
        ClearCell(ring[..], log, p, head);
        ring[Idx(p, ring.Length)] := Empty;
      }
      cp := pos;
    }
  }

  lemma RingSizes(cells: seq<Cell>, log: seq<Received>, cp: nat, head: nat)
    requires RingOk(cells, log, cp, head)
    ensures |cells| > 0 && cp <= head == |log|
  {
  }

  // ---- The sending side ----

  /** How SendRemoteInodeChangesOnce reads the receiver's answer. */
  function Accepted(answer: nat, sent: nat): nat {
    if answer == FATAL || answer > sent then 0 else answer
  }

  /** What became of the batch taken for one target. */
  datatype Answer = Waiting | Answered(sent: nat, inserted: nat)

  /** The next batch cap: doubled up to the ceiling, or cut to what was accepted down to the floor. */
  ghost function AdaptedCap(cap: nat, answer: Answer): nat
    requires answer.Answered?
  {
    if answer.inserted >= answer.sent then (if 2 * cap <= BATCH_CEIL then 2 * cap else BATCH_CEIL)
    else if answer.inserted >= BATCH_FLOOR then answer.inserted
    else BATCH_FLOOR
  }

  /** One sender's changes for one target: produced = accepted, then in flight, then queued, then
      waiting for the group commit.  Nothing is ever produced for the sender itself. */
  ghost predicate LaneOk(produced: seq<Change>, accepted: seq<Change>, flying: seq<Change>, pending: seq<Change>, batch: seq<Change>,
                         cap: nat, answer: Answer, own: bool)
  {
    && produced == accepted + flying + pending + batch
    && (own ==> produced == [])
    && BATCH_FLOOR <= cap <= BATCH_CEIL && |flying| <= cap
    && (answer.Answered? ==> answer.inserted <= answer.sent <= cap && |flying| == answer.sent - answer.inserted)
  }

  lemma LaneQueue(produced: seq<Change>, accepted: seq<Change>, flying: seq<Change>, pending: seq<Change>, batch: seq<Change>,
                  cap: nat, answer: Answer, c: Change)
    requires LaneOk(produced, accepted, flying, pending, batch, cap, answer, false)
    ensures LaneOk(produced + [c], accepted, flying, pending, batch + [c], cap, answer, false)
  {
  }

  lemma LaneCommit(produced: seq<Change>, accepted: seq<Change>, flying: seq<Change>, pending: seq<Change>, batch: seq<Change>,
                   cap: nat, answer: Answer, own: bool)
    requires LaneOk(produced, accepted, flying, pending, batch, cap, answer, own)
    ensures LaneOk(produced, accepted, flying, pending + batch, [], cap, answer, own)
    ensures own ==> batch == []
  {
  }

  lemma LaneTake(produced: seq<Change>, accepted: seq<Change>, flying: seq<Change>, pending: seq<Change>, batch: seq<Change>,
                 cap: nat, own: bool)
    requires LaneOk(produced, accepted, [], flying + pending, batch, cap, Waiting, own) && |flying| <= cap
    ensures LaneOk(produced, accepted, flying, pending, batch, cap, Waiting, own)
  {
    assert accepted + [] + (flying + pending) + batch == accepted + flying + pending + batch;
  }

  lemma LaneSend(produced: seq<Change>, accepted: seq<Change>, flying: seq<Change>, pending: seq<Change>, batch: seq<Change>,
                 cap: nat, k: nat)
    requires LaneOk(produced, accepted, flying, pending, batch, cap, Waiting, false) && k <= |flying|
    ensures LaneOk(produced, accepted + flying[..k], flying[k..], pending, batch, cap, Answered(|flying|, k), false)
  {
    assert flying == flying[..k] + flying[k..];
  }

  lemma LaneSettle(produced: seq<Change>, accepted: seq<Change>, flying: seq<Change>, pending: seq<Change>, batch: seq<Change>,
                   cap: nat, cap': nat, answer: Answer, own: bool)
    requires LaneOk(produced, accepted, flying, pending, batch, cap, answer, own) && BATCH_FLOOR <= cap' <= BATCH_CEIL
    ensures LaneOk(produced, accepted, [], flying + pending, batch, cap', Waiting, own)
  {
    assert accepted + [] + (flying + pending) + batch == accepted + flying + pending + batch;
  }

  lemma LaneBounds(produced: seq<Change>, accepted: seq<Change>, flying: seq<Change>, pending: seq<Change>, batch: seq<Change>,
                   cap: nat, answer: Answer, own: bool)
    requires LaneOk(produced, accepted, flying, pending, batch, cap, answer, own)
    ensures BATCH_FLOOR <= cap <= BATCH_CEIL && |flying| <= cap
    ensures answer.Answered? ==> answer.inserted <= answer.sent <= cap && |flying| == answer.sent - answer.inserted
  {
  }

  /** What became of a batch that went out: the receiver's log has its first k changes, the others stay;
      k is all of them unless the receiver's log is full. */
  ghost predicate WentOut(batch: seq<Change>, left: seq<Change>, answer: Answer, log: seq<Received>, log': seq<Received>, self: nat, full: bool) {
    && answer.Answered? && answer.sent == |batch| >= answer.inserted
    && log' == log + Tagged(self, batch[..answer.inserted]) && left == batch[answer.inserted..]
    && (answer.inserted < |batch| ==> full)
  }

  /** The first k of a queue are in the receiver's log, the others are queued as before; k is `cap` or all
      of them unless the log is full. */
  ghost predicate Delivered(queue: seq<Change>, left: seq<Change>, cap: nat, log: seq<Received>, log': seq<Received>, self: nat, full: bool) {
    exists k :: 0 <= k <= |queue| && log' == log + Tagged(self, queue[..k]) && left == queue[k..] && (k < |queue| && k < cap ==> full)
  }

  lemma DeliveredBatch(batch: seq<Change>, rest: seq<Change>, back: seq<Change>, answer: Answer, cap: nat, log: seq<Received>, log': seq<Received>, self: nat, full: bool)
    requires WentOut(batch, back, answer, log, log', self, full) && (rest == [] || |batch| == cap)
    ensures Delivered(batch + rest, back + rest, cap, log, log', self, full)
  {
    var k, queue := answer.inserted, batch + rest;
    assert queue[..k] == batch[..k] && queue[k..] == back + rest;
  }

  lemma WentAnswered(batch: seq<Change>, left: seq<Change>, answer: Answer, log: seq<Received>, log': seq<Received>, self: nat, full: bool)
    requires WentOut(batch, left, answer, log, log', self, full)
    ensures answer.Answered?
  {
  }

  lemma DeliveredNothing(queue: seq<Change>, log: seq<Received>, self: nat, full: bool)
    requires queue == []
    ensures forall cap :: Delivered(queue, queue, cap, log, log, self, full)
  {
    assert queue[..0] == [] && queue[0..] == queue && log == log + Tagged(self, queue[..0]);
  }

  class Forwarder {
    const self: nat
    const n: nat
    /** pending_remote_batches_, pending_forward_, forward_batch_cap_ */
    var batches: seq<seq<Change>>
    var pending: seq<seq<Change>>
    var caps: seq<nat>
    /** The batches taken by the round under way, without what the receiver accepted. */
    var flying: seq<seq<Change>>
    var answers: seq<Answer>
    ghost var produced: seq<seq<Change>>
    ghost var accepted: seq<seq<Change>>

    ghost predicate Valid()
      reads this
    {
      && |batches| == |pending| == |caps| == |flying| == |answers| == |produced| == |accepted| == n
      && forall t :: 0 <= t < n ==> Lane(t)
    }

    ghost predicate Lane(t: nat)
      requires |batches| == |pending| == |caps| == |flying| == |answers| == |produced| == |accepted| == n && t < n
      reads this
    {
      LaneOk(produced[t], accepted[t], flying[t], pending[t], batches[t], caps[t], answers[t], t == self)
    }

    /** Nothing is queued for the sender itself. */
    lemma OwnLane()
      requires Valid()
      ensures self < n ==> flying[self] == pending[self] == batches[self] == []
    {
      if self < n {
        assert Lane(self);
      }
    }

    constructor (self: nat, n: nat)
      ensures Valid() && this.self == self && this.n == n && produced == accepted == seq(n, _ => [])
    {
      this.self, this.n := self, n;
      batches, pending, flying := seq(n, _ => []), seq(n, _ => []), seq(n, _ => []);
      caps, answers := seq(n, _ => BATCH_INITIAL), seq(n, _ => Waiting);
      produced, accepted := seq(n, _ => []), seq(n, _ => []);
    }

    /** queue_remote_change, for a change owned by another server. */
    method Queue(t: nat, c: Change)
      requires Valid() && t < n && t != self
      modifies this`batches, this`produced
      ensures Valid() && produced == old(produced)[t := old(produced)[t] + [c]] && batches == old(batches)[t := old(batches)[t] + [c]]
    {
      hide LaneOk;
      assert Lane(t);
      LaneQueue(produced[t], accepted[t], flying[t], pending[t], batches[t], caps[t], answers[t], c);
      batches, produced := batches[t := batches[t] + [c]], produced[t := produced[t] + [c]];
      forall k | 0 <= k < n ensures Lane(k) {
        assert old(Lane(k));
      }
    }

    /** The group commit: everything waiting for it joins the forward queues. */
    method Commit()
      requires Valid()
      modifies this`batches, this`pending
      ensures Valid() && forall t :: 0 <= t < n ==> batches[t] == [] && pending[t] == old(pending)[t] + old(batches)[t]
    {
      hide LaneOk;
      for t := 0 to n
        invariant batches == old(batches) && |pending| == n
        invariant forall k :: 0 <= k < n ==> pending[k] == old(pending)[k] + if k < t then batches[k] else []
      {
        assert old(Lane(t));
        LaneCommit(produced[t], accepted[t], flying[t], old(pending)[t], batches[t], caps[t], answers[t], t == self);
        if t != self && batches[t] != [] {
          pending := pending[t := pending[t] + batches[t]];
        }
      }
      batches := seq(n, _ => []);
      forall t | 0 <= t < n ensures Lane(t) {
        assert old(Lane(t));
        LaneCommit(produced[t], accepted[t], flying[t], old(pending)[t], old(batches)[t], caps[t], answers[t], t == self);
      }
    }

    /** First half of ServicePendingRemoteInodeChanges: take up to a cap's worth for every target. */
    method Take()
      requires Valid() && forall t :: 0 <= t < n ==> flying[t] == [] && answers[t] == Waiting
      modifies this`pending, this`flying
      ensures Valid()
      ensures forall t :: 0 <= t < n ==> flying[t] + pending[t] == old(pending)[t] && |flying[t]| <= caps[t]
      ensures forall t :: 0 <= t < n ==> pending[t] == [] || |flying[t]| == caps[t]
    {
      hide LaneOk;
      for t := 0 to n
        invariant |pending| == |flying| == n
        invariant forall k :: 0 <= k < n ==> flying[k] + pending[k] == old(pending)[k] && |flying[k]| <= caps[k]
        invariant forall k :: t <= k < n ==> flying[k] == []
        invariant forall k :: 0 <= k < t ==> pending[k] == [] || |flying[k]| == caps[k]
      {
        var take := if |pending[t]| < caps[t] then |pending[t]| else caps[t];
        flying := flying[t := pending[t][..take]];
        pending := pending[t := pending[t][take..]];
      }
      forall t | 0 <= t < n ensures Lane(t) {
        assert old(Lane(t));
        LaneTake(produced[t], accepted[t], flying[t], pending[t], batches[t], caps[t], t == self);
      }
    }

    /** The call to target t: a prefix of the batch is accepted, as the answer says. */
    method Send(t: nat, wal: RemoteWal)
      requires Valid() && t < n && t != self && flying[t] != [] && answers[t] == Waiting && wal.Valid()
      modifies this`flying, this`answers, this`accepted, wal, wal.ring
      ensures Valid() && wal.Valid() && answers == old(answers)[t := answers[t]] && answers[t].Answered?
      ensures flying == old(flying)[t := flying[t]]
      ensures WentOut(old(flying)[t], flying[t], answers[t], old(wal.log), wal.log, self, wal.IsFull())
      ensures accepted == old(accepted)[t := old(accepted)[t] + old(flying)[t][..answers[t].inserted]]
    {
      hide LaneOk;
      assert Lane(t);
      var batch := flying[t];
      var sent := |batch|;
      var answer := wal.TryAppendPartial(self, batch);
      var inserted := Accepted(answer, sent);
      LaneBounds(produced[t], accepted[t], flying[t], pending[t], batches[t], caps[t], answers[t], false);
      assert inserted == answer;
      accepted := accepted[t := accepted[t] + batch[..inserted]];
      flying := flying[t := batch[inserted..]];
      answers := answers[t := Answered(sent, inserted)];
      LaneSend(produced[t], old(accepted)[t], batch, pending[t], batches[t], caps[t], inserted);
      forall k | 0 <= k < n ensures Lane(k) {
        assert old(Lane(k));
      }
    }

    /** After the call: adapt the cap, and put what was not accepted back in front of the queue. */
    method Settle(t: nat)
      requires Valid() && t < n && answers[t].Answered?
      modifies this`pending, this`caps, this`flying, this`answers
      ensures Valid() && answers == old(answers)[t := Waiting] && flying == old(flying)[t := []]
      ensures pending == old(pending)[t := old(flying)[t] + old(pending)[t]]
      ensures caps == old(caps)[t := AdaptedCap(old(caps)[t], old(answers)[t])]
      ensures if old(flying)[t] == [] then caps[t] >= old(caps)[t] else caps[t] <= old(caps)[t]
    {
      hide LaneOk;
      assert Lane(t);
      LaneBounds(produced[t], accepted[t], flying[t], pending[t], batches[t], caps[t], answers[t], t == self);
      var sent, inserted := answers[t].sent, answers[t].inserted;
      if inserted >= sent {
        assert [] + pending[t] == pending[t];
        caps := caps[t := if caps[t] * 2 < BATCH_CEIL then caps[t] * 2 else BATCH_CEIL];
      } else {
        caps := caps[t := if inserted > BATCH_FLOOR then inserted else BATCH_FLOOR];
        pending := pending[t := flying[t] + pending[t]];
      }
      flying, answers := flying[t := []], answers[t := Waiting];
      LaneSettle(produced[t], accepted[t], old(flying)[t], old(pending)[t], batches[t], old(caps)[t], caps[t], old(answers)[t], t == self);
      forall k | 0 <= k < n ensures Lane(k) {
        assert old(Lane(k));
      }
    }
  }

  // ---- Whole runs ----

  /** One atomic step of some server. */
  datatype Action =
    | Produce(s: nat, t: nat, change: Change)
    | CommitGroup(s: nat)
    | TakeBatches(s: nat)
    | SendBatch(s: nat, t: nat)
    | SettleBatch(s: nat, t: nat)
    | ReleaseLog(t: nat, pos: nat)

  /** The changes a schedule produces at server s for server t. */
  ghost function Queued(schedule: seq<Action>, s: nat, t: nat): seq<Change> {
    if schedule == [] then []
    else
      var a := schedule[|schedule| - 1];
      Queued(schedule[..|schedule| - 1], s, t) + if a.Produce? && a.s == s && a.t == t && s != t then [a.change] else []
  }

  class Cluster {
    const fw: seq<Forwarder>
    const wals: seq<RemoteWal>

    ghost predicate Shape() {
      && |fw| == |wals|
      && (forall i, j :: 0 <= i < j < |fw| ==> fw[i] != fw[j] && wals[i] != wals[j] && wals[i].ring != wals[j].ring)
      && (forall s :: 0 <= s < |fw| ==> fw[s].self == s && fw[s].n == |fw|)
    }

    ghost predicate Valid()
      reads fw, wals, set w | w in wals :: w.ring
    {
      && Shape()
      && (forall s :: 0 <= s < |fw| ==> fw[s].Valid())
      && (forall t :: 0 <= t < |fw| ==> wals[t].Valid())
      && (forall s, t :: 0 <= s < |fw| && 0 <= t < |fw| ==> fw[s].accepted[t] == From(wals[t].log, s))
    }

    constructor (n: nat, capacity: nat)
      requires capacity > 0
      ensures Valid() && |fw| == n && forall s :: 0 <= s < n ==> fw[s].produced == seq(n, _ => [])
    {
      hide LaneOk, RingOk;
      var f: seq<Forwarder>, w: seq<RemoteWal> := [], [];
      for i := 0 to n
        invariant |f| == |w| == i
        invariant forall k :: 0 <= k < i ==> fresh(f[k]) && fresh(w[k]) && fresh(w[k].ring)
        invariant forall j, k :: 0 <= j < k < i ==> f[j] != f[k] && w[j] != w[k] && w[j].ring != w[k].ring
        invariant forall k :: 0 <= k < i ==> f[k].Valid() && f[k].self == k && f[k].n == n
        invariant forall k :: 0 <= k < i ==> f[k].produced == f[k].accepted == seq(n, _ => []) && w[k].Valid() && w[k].log == []
      {
        var x := new Forwarder(i, n);
        var y := new RemoteWal(capacity);
        f, w := f + [x], w + [y];
      }
      fw, wals := f, w;
    }

    /** Exactly-once delivery in order: what s produced for t is what t has received from s,
        followed by what is in flight, queued, and waiting for the group commit. */
    ghost predicate Conserved(s: nat, t: nat)
      requires Valid() && s < |fw| && t < |fw|
      reads fw, wals, set w | w in wals :: w.ring
    {
      && fw[s].produced[t] == From(wals[t].log, s) + fw[s].flying[t] + fw[s].pending[t] + fw[s].batches[t]
      && BATCH_FLOOR <= fw[s].caps[t] <= BATCH_CEIL
    }

    lemma AlwaysConserved()
      requires Valid()
      ensures forall s, t :: 0 <= s < |fw| && 0 <= t < |fw| ==> Conserved(s, t)
    {
      forall s, t | 0 <= s < |fw| && 0 <= t < |fw| ensures Conserved(s, t) {
        assert fw[s].Lane(t);
      }
    }

    /** What a step does, if it is possible. */
    twostate predicate Did(a: Action)
      requires |fw| == |wals| && forall s :: 0 <= s < |fw| ==> |fw[s].answers| == |fw[s].flying| == |fw[s].pending| == |fw[s].batches| == |fw[s].caps| == |fw|
      requires forall s :: 0 <= s < |fw| ==> |old(fw[s].answers)| == |old(fw[s].flying)| == |old(fw[s].pending)| == |old(fw[s].batches)| == |old(fw[s].caps)| == |fw|
      reads fw, wals
    {
      match a
      case Produce(s, t, change) => s < |fw| && t < |fw| && s != t ==> fw[s].batches == old(fw[s].batches)[t := old(fw[s].batches)[t] + [change]]
      case CommitGroup(s) =>
        s < |fw| ==> forall t :: 0 <= t < |fw| ==> fw[s].batches[t] == [] && fw[s].pending[t] == old(fw[s].pending)[t] + old(fw[s].batches)[t]
      case TakeBatches(s) =>
        s < |fw| && old(Idle(s)) ==>
          forall t :: 0 <= t < |fw| ==> fw[s].flying[t] + fw[s].pending[t] == old(fw[s].pending)[t] && |fw[s].flying[t]| <= fw[s].caps[t]
                                        && (fw[s].pending[t] == [] || |fw[s].flying[t]| == fw[s].caps[t])
      case SendBatch(s, t) => s < |fw| && t < |fw| && s != t && old(fw[s].flying)[t] != [] && old(fw[s].answers)[t] == Waiting ==>
          WentOut(old(fw[s].flying)[t], fw[s].flying[t], fw[s].answers[t], old(wals[t].log), wals[t].log, s, wals[t].IsFull())
      case SettleBatch(s, t) =>
        s < |fw| && t < |fw| && old(fw[s].answers)[t].Answered? ==>
          fw[s].pending == old(fw[s].pending)[t := old(fw[s].flying)[t] + old(fw[s].pending)[t]] && fw[s].flying[t] == []
          && fw[s].answers[t] == Waiting && fw[s].caps == old(fw[s].caps)[t := AdaptedCap(old(fw[s].caps)[t], old(fw[s].answers)[t])]
      case ReleaseLog(t, pos) => t < |wals| && old(wals[t].cp) <= pos <= old(wals[t].head) ==> wals[t].cp == pos
    }

    lemma Sizes()
      requires Valid()
      ensures |fw| == |wals|
      ensures forall s :: 0 <= s < |fw| ==> |fw[s].answers| == |fw[s].flying| == |fw[s].pending| == |fw[s].batches| == |fw[s].caps| == |fw|
    {
    }

    /** One call to a receiver. */
    method SendStep(s: nat, t: nat)
      requires Valid() && s < |fw| && t < |fw|
      modifies fw[s], wals[t], wals[t].ring
      ensures Valid() && fw[s].produced == old(fw[s].produced)
      ensures fw[s].answers == old(fw[s].answers)[t := fw[s].answers[t]] && fw[s].flying == old(fw[s].flying)[t := fw[s].flying[t]]
      ensures s != t && old(fw[s].flying)[t] != [] && old(fw[s].answers)[t] == Waiting ==>
                WentOut(old(fw[s].flying)[t], fw[s].flying[t], fw[s].answers[t], old(wals[t].log), wals[t].log, s, wals[t].IsFull())
      ensures fw[s].pending == old(fw[s].pending) && fw[s].caps == old(fw[s].caps) && fw[s].batches == old(fw[s].batches)
    {
      hide From, RingOk, LaneOk;
      if s != t && fw[s].flying[t] != [] && fw[s].answers[t] == Waiting {
        ghost var log, batch := wals[t].log, fw[s].flying[t];
        fw[s].Send(t, wals[t]);
        ghost var k := fw[s].answers[t].inserted;
        forall r | 0 <= r < |fw| ensures fw[r].accepted[t] == From(wals[t].log, r) {
          FromAppend(log, s, batch[..k], r);
        }
      }
    }

    /** One more change at s for t. */
    method ProduceStep(s: nat, t: nat, change: Change)
      requires Valid() && s < |fw| && t < |fw| && s != t
      modifies fw[s]
      ensures Valid() && fw[s].produced == old(fw[s].produced)[t := old(fw[s].produced)[t] + [change]]
      ensures fw[s].batches == old(fw[s].batches)[t := old(fw[s].batches)[t] + [change]]
    {
      hide From, RingOk, LaneOk;
      fw[s].Queue(t, change);
    }

    /** The checkpoint of a receiver moves on. */
    method ReleaseStep(t: nat, pos: nat)
      requires Valid() && t < |wals|
      modifies wals[t], wals[t].ring
      ensures Valid() && (old(wals[t].cp) <= pos <= old(wals[t].head) ==> wals[t].cp == pos)
    {
      hide From, RingOk, LaneOk;
      if wals[t].cp <= pos <= wals[t].head {
        wals[t].Release(pos);
      }
    }

    /** A step of one server that touches only its own queues. */
    method LocalStep(a: Action)
      requires Valid() && (a.CommitGroup? || a.TakeBatches? || a.SettleBatch?) && a.s < |fw|
      modifies fw[a.s]
      ensures Valid() && fw[a.s].produced == old(fw[a.s].produced) && Did(a)
      ensures a.TakeBatches? ==> fw[a.s].answers == old(fw[a.s].answers) && fw[a.s].caps == old(fw[a.s].caps)
    {
      hide From, RingOk, LaneOk;
      Sizes();
      var f := fw[a.s];
      if a.CommitGroup? {
        f.Commit();
      } else if a.TakeBatches? {
        if forall t :: 0 <= t < |fw| ==> f.flying[t] == [] && f.answers[t] == Waiting {
          f.Take();
        }
      } else if a.t < |fw| && f.answers[a.t].Answered? {
        f.Settle(a.t);
      }
    }

    /** No batch of s is under way. */
    predicate Idle(s: nat)
      requires s < |fw| && |fw[s].flying| == |fw[s].answers| == |fw|
      reads fw
    {
      forall t :: 0 <= t < |fw| ==> fw[s].flying[t] == [] && fw[s].answers[t] == Waiting
    }

    /** One target's call and its settlement. */
    method Exchange(s: nat, t: nat, ghost cap: nat)
      requires Valid() && s < |fw| && t < |fw| && s != t && fw[s].flying[t] != [] && fw[s].answers[t] == Waiting
      requires fw[s].pending[t] == [] || |fw[s].flying[t]| == cap
      modifies fw[s], wals[t], wals[t].ring
      ensures Valid() && fw[s].produced == old(fw[s].produced)
      ensures fw[s].answers == old(fw[s].answers) && fw[s].flying == old(fw[s].flying)[t := []]
      ensures fw[s].pending == old(fw[s].pending)[t := fw[s].pending[t]]
      ensures Delivered(old(fw[s].flying)[t] + old(fw[s].pending)[t], fw[s].pending[t], cap, old(wals[t].log), wals[t].log, s, wals[t].IsFull())
    {
      hide From, RingOk, LaneOk, WentOut, Delivered;
      ghost var batch, rest, log := fw[s].flying[t], fw[s].pending[t], wals[t].log;
      SendStep(s, t);
      ghost var back, answer := fw[s].flying[t], fw[s].answers[t];
      DeliveredBatch(batch, rest, back, answer, cap, log, wals[t].log, s, wals[t].IsFull());
      WentAnswered(batch, back, answer, log, wals[t].log, s, wals[t].IsFull());
      fw[s].Settle(t);
    }

    /** The turn of one target in a round. */
    method ServeOne(s: nat, t: nat, ghost queue: seq<Change>, ghost cap: nat)
      requires Valid() && s < |fw| && t < |fw| && s != t && fw[s].answers[t] == Waiting
      requires fw[s].flying[t] + fw[s].pending[t] == queue && (fw[s].pending[t] == [] || |fw[s].flying[t]| == cap) && cap > 0
      modifies fw[s], wals[t], wals[t].ring
      ensures Valid() && fw[s].produced == old(fw[s].produced)
      ensures fw[s].answers == old(fw[s].answers) && fw[s].flying == old(fw[s].flying)[t := []]
      ensures fw[s].pending == old(fw[s].pending)[t := fw[s].pending[t]]
      ensures Delivered(queue, fw[s].pending[t], cap, old(wals[t].log), wals[t].log, s, wals[t].IsFull())
    {
      hide From, RingOk, LaneOk, Delivered;
      if fw[s].flying[t] != [] {
        Exchange(s, t, cap);
      } else {
        DeliveredNothing(queue, wals[t].log, s, wals[t].IsFull());
      }
    }

    /** ServicePendingRemoteInodeChanges, undisturbed: a whole round leaves nothing in flight and serves every
        target. */
    method ServiceRound(s: nat)
      requires Valid() && s < |fw| && Idle(s)
      modifies fw[s], wals, set w | w in wals :: w.ring
      ensures Valid() && fw[s].produced == old(fw[s].produced) && Idle(s)
      ensures forall t :: 0 <= t < |fw| && t != s ==>
                Delivered(old(fw[s].pending)[t], fw[s].pending[t], old(fw[s].caps)[t], old(wals[t].log), wals[t].log, s, wals[t].IsFull())
    {
      hide From, RingOk, LaneOk, Delivered, Valid;
      Sizes();
      CapsPositive(s);
      ghost var queues, caps := fw[s].pending, fw[s].caps;
      LocalStep(TakeBatches(s));
      Sizes();
      for t := 0 to |fw|
        invariant Valid() && |fw| == |wals| && fw[s].produced == old(fw[s].produced)
        invariant |fw[s].flying| == |fw[s].answers| == |fw[s].pending| == |fw|
        invariant forall k :: 0 <= k < t ==> fw[s].flying[k] == []
        invariant forall k :: 0 <= k < |fw| ==> fw[s].answers[k] == Waiting
        invariant forall k :: 0 <= k < t && k != s ==>
                    Delivered(queues[k], fw[s].pending[k], caps[k], old(wals[k].log), wals[k].log, s, wals[k].IsFull())
        invariant forall k :: t <= k < |fw| ==> fw[s].flying[k] + fw[s].pending[k] == queues[k] && (fw[s].pending[k] == [] || |fw[s].flying[k]| == caps[k])
        invariant forall k :: t <= k < |fw| ==> wals[k].log == old(wals[k].log)
      {
        Separate(t);
        if t == s {
          NoneForSelf(s);
        } else {
          ServeOne(s, t, queues[t], caps[t]);
        }
        Sizes();
      }
    }

    lemma Separate(t: nat)
      requires Valid() && t < |fw|
      ensures |fw| == |wals| && forall k :: 0 <= k < |fw| && k != t ==> wals[k] != wals[t]
    {
    }

    lemma NoneForSelf(s: nat)
      requires Valid() && s < |fw|
      ensures |fw[s].flying| == |fw| && fw[s].flying[s] == []
    {
      fw[s].OwnLane();
    }

    lemma CapsPositive(s: nat)
      requires Valid() && s < |fw|
      ensures forall t :: 0 <= t < |fw| ==> fw[s].caps[t] > 0
    {
      forall t | 0 <= t < |fw| ensures fw[s].caps[t] > 0 {
        assert fw[s].Lane(t);
      }
    }

    /** A step that is not possible in the current state changes nothing. */
    method Step(a: Action)
      requires Valid()
      modifies fw, wals, set w | w in wals :: w.ring
      ensures Valid()
      ensures forall s, t :: 0 <= s < |fw| && 0 <= t < |fw| ==> fw[s].produced[t] == old(fw[s].produced[t]) + Queued([a], s, t)
      ensures Did(a)
    {
      hide From, RingOk, LaneOk;
      Sizes();
      assert [a][..0] == [];
      match a {
        case Produce(s, t, change) =>
          if s < |fw| && t < |fw| && s != t {
            ProduceStep(s, t, change);
          }
        case SendBatch(s, t) =>
          if s < |fw| && t < |fw| {
            SendStep(s, t);
          }
        case ReleaseLog(t, pos) =>
          if t < |wals| {
            ReleaseStep(t, pos);
          }
        case _ =>
          if a.s < |fw| {
            LocalStep(a);
          }
      }
    }

    /** Any interleaving of any servers' steps. */
    method Run(schedule: seq<Action>)
      requires Valid()
      modifies fw, wals, set w | w in wals :: w.ring
      ensures Valid() && forall s, t :: 0 <= s < |fw| && 0 <= t < |fw| ==> Conserved(s, t)
      ensures forall s, t :: 0 <= s < |fw| && 0 <= t < |fw| ==> fw[s].produced[t] == old(fw[s].produced[t]) + Queued(schedule, s, t)
    {
      for k := 0 to |schedule|
        invariant Valid()
        invariant forall s, t :: 0 <= s < |fw| && 0 <= t < |fw| ==> fw[s].produced[t] == old(fw[s].produced[t]) + Queued(schedule[..k], s, t)
      {
        Step(schedule[k]);
        QueuedNext(schedule, k);
      }
      assert schedule[..|schedule|] == schedule;
      AlwaysConserved();
    }
  }

  lemma QueuedNext(schedule: seq<Action>, k: nat)
    requires k < |schedule|
    ensures forall s, t :: Queued(schedule[..k + 1], s, t) == Queued(schedule[..k], s, t) + Queued([schedule[k]], s, t)
  {
    assert schedule[..k + 1][..k] == schedule[..k] && [schedule[k]][..0] == [];
  }
}
