/** The write-back page cache under both SSD regions: a dense page index, a pool of frames
    threaded on an intrusive LRU list, and a free list.

    Flash is total: every page can be read, and a page never written reads as it was
    initially.  `lru` and `free` are the lists that the index links spell out. */
module PageCaches {
  const NIL: int := -1

  datatype Frame<T> = Frame(off: nat, prev: int, next: int, dirty: bool, page: T)

  /** `ids` is the doubly linked list from `head` to `tail`. */
  ghost predicate Linked<T>(f: seq<Frame<T>>, ids: seq<int>, head: int, tail: int) {
    && (forall k :: 0 <= k < |ids| ==> 0 <= ids[k] < |f|)
    && (forall j, k :: 0 <= j < k < |ids| ==> ids[j] != ids[k])
    && head == At(ids, 0) && tail == At(ids, |ids| - 1)
    && (forall k :: 0 <= k < |ids| ==> LinkOk(f, ids, k))
  }

  ghost function At(ids: seq<int>, k: int): int {
    if 0 <= k < |ids| then ids[k] else NIL
  }

  ghost predicate LinkOk<T>(f: seq<Frame<T>>, ids: seq<int>, k: int)
    requires 0 <= k < |ids| && 0 <= ids[k] < |f|
  {
    f[ids[k]].prev == At(ids, k - 1) && f[ids[k]].next == At(ids, k + 1)
  }

  /** `ids` is the singly linked free list from `head`. */
  ghost predicate Chained<T>(f: seq<Frame<T>>, ids: seq<int>, head: int) {
    && (forall k :: 0 <= k < |ids| ==> 0 <= ids[k] < |f|)
    && (forall j, k :: 0 <= j < k < |ids| ==> ids[j] != ids[k])
    && head == At(ids, 0)
    && (forall k :: 0 <= k < |ids| ==> f[ids[k]].next == At(ids, k + 1))
  }

  /** The two lists share no frame and together hold all of them. */
  ghost predicate Partition(lru: seq<int>, free: seq<int>, n: nat) {
    && |lru| + |free| == n
    && forall j, k :: 0 <= j < |lru| && 0 <= k < |free| ==> lru[j] != free[k]
  }

  /** The index maps exactly the cached pages to their frames, and clean frames match flash. */
  ghost predicate Indexed<T>(f: seq<Frame<T>>, lru: seq<int>, slots: seq<int>, flash: seq<T>) {
    && |slots| == |flash|
    && (forall k :: 0 <= k < |lru| ==> 0 <= lru[k] < |f|)
    && (forall k :: 0 <= k < |lru| ==> f[lru[k]].off < |slots| && slots[f[lru[k]].off] == lru[k])
    && (forall p :: 0 <= p < |slots| && slots[p] != NIL ==> slots[p] in lru && f[slots[p]].off == p)
    && (forall k :: 0 <= k < |lru| && !f[lru[k]].dirty ==> f[lru[k]].page == flash[f[lru[k]].off])
  }

  /** The flat array of pages the cache stands for. */
  ghost function View<T>(f: seq<Frame<T>>, lru: seq<int>, slots: seq<int>, flash: seq<T>): seq<T>
    requires Indexed(f, lru, slots, flash)
  {
    seq(|flash|, p requires 0 <= p < |flash| => if slots[p] == NIL then flash[p] else f[slots[p]].page)
  }

  // ── list surgery ──

  ghost function Without(ids: seq<int>, k: nat): seq<int>
    requires k < |ids|
  {
    ids[..k] + ids[k + 1..]
  }

  /** Frame i after frame idx has been taken out of the list. */
  function UnlinkedAt<T>(f: seq<Frame<T>>, idx: int, i: int): Frame<T>
    requires 0 <= idx < |f| && 0 <= i < |f|
  {
    if i == idx then f[i].(prev := NIL, next := NIL)
    else f[i].(next := if f[idx].prev == i then f[idx].next else f[i].next,
               prev := if f[idx].next == i then f[idx].prev else f[i].prev)
  }

  lemma LinkAt<T>(f: seq<Frame<T>>, ids: seq<int>, head: int, tail: int, k: nat)
    requires Linked(f, ids, head, tail) && k < |ids|
    ensures 0 <= ids[k] < |f|
    ensures f[ids[k]].prev == At(ids, k - 1) && f[ids[k]].next == At(ids, k + 1)
    ensures -1 <= f[ids[k]].prev < |f| && -1 <= f[ids[k]].next < |f|
    ensures f[ids[k]].prev != ids[k] && f[ids[k]].next != ids[k]
  {
    assert LinkOk(f, ids, k);
  }

  lemma UnlinkLink<T>(f: seq<Frame<T>>, g: seq<Frame<T>>, ids: seq<int>, head: int, tail: int, k: nat, j: nat)
    requires Linked(f, ids, head, tail) && k < |ids| && |g| == |f| && j < |ids| - 1
    requires forall i :: 0 <= i < |f| ==> g[i] == UnlinkedAt(f, ids[k], i)
    ensures var w := Without(ids, k); j < |w| && 0 <= w[j] < |f| && LinkOk(g, w, j)
  {
    hide Linked;
    var w := Without(ids, k);
    var i := if j < k then j else j + 1;
    assert w[j] == ids[i];
    assert j > 0 ==> w[j - 1] == ids[if j <= k then j - 1 else j];
    assert j + 1 < |w| ==> w[j + 1] == ids[if j + 1 < k then j + 1 else j + 2];
    LinkAt(f, ids, head, tail, k);
    LinkAt(f, ids, head, tail, i);
    Different(f, ids, head, tail, i, k);
    if k > 0 && i != k - 1 {
      Different(f, ids, head, tail, i, k - 1);
    }
    if k + 1 < |ids| && i != k + 1 {
      Different(f, ids, head, tail, i, k + 1);
    }
  }

  lemma Different<T>(f: seq<Frame<T>>, ids: seq<int>, head: int, tail: int, i: nat, j: nat)
    requires Linked(f, ids, head, tail) && i < |ids| && j < |ids| && i != j
    ensures ids[i] != ids[j] && ids[i] != NIL && ids[j] != NIL
  {
  }

  lemma UnlinkKeeps<T>(f: seq<Frame<T>>, g: seq<Frame<T>>, ids: seq<int>, head: int, tail: int, k: nat)
    requires Linked(f, ids, head, tail) && k < |ids| && |g| == |f|
    requires forall i :: 0 <= i < |f| ==> g[i] == UnlinkedAt(f, ids[k], i)
    ensures Linked(g, Without(ids, k),
                   if f[ids[k]].prev != NIL then head else f[ids[k]].next,
                   if f[ids[k]].next != NIL then tail else f[ids[k]].prev)
  {
    hide LinkOk, UnlinkedAt;
    LinkAt(f, ids, head, tail, k);
    var w := Without(ids, k);
    forall j | 0 <= j < |w| ensures 0 <= w[j] < |f| && LinkOk(g, w, j) {
      UnlinkLink(f, g, ids, head, tail, k, j);
    }
  }

  /** Frame i after frame idx has been pushed in front of `head`. */
  function PushedAt<T>(f: seq<Frame<T>>, head: int, idx: int, i: int): Frame<T>
    requires 0 <= i < |f|
  {
    if i == idx then f[i].(prev := NIL, next := head)
    else if i == head then f[i].(prev := idx)
    else f[i]
  }

  lemma PushKeeps<T>(f: seq<Frame<T>>, g: seq<Frame<T>>, ids: seq<int>, head: int, tail: int, idx: int)
    requires Linked(f, ids, head, tail) && 0 <= idx < |f| == |g| && idx !in ids
    requires forall i :: 0 <= i < |f| ==> g[i] == PushedAt(f, head, idx, i)
    ensures Linked(g, [idx] + ids, idx, if head != NIL then tail else idx)
  {
    var w := [idx] + ids;
    forall j | 0 <= j < |w| ensures LinkOk(g, w, j) {
      if j > 0 {
        LinkAt(f, ids, head, tail, j - 1);
        assert w[j] == ids[j - 1];
      }
    }
  }

  /** Same payload: offset, dirty bit and page of every frame. */
  ghost predicate SamePayload<T>(f: seq<Frame<T>>, g: seq<Frame<T>>) {
    |f| == |g| && forall i :: 0 <= i < |f| ==> g[i].off == f[i].off && g[i].dirty == f[i].dirty && g[i].page == f[i].page
  }

  ghost predicate SameNext<T>(f: seq<Frame<T>>, g: seq<Frame<T>>, ids: seq<int>) {
    |f| == |g| && forall k :: 0 <= k < |ids| && 0 <= ids[k] < |f| ==> g[ids[k]].next == f[ids[k]].next
  }

  lemma FreeListKept<T>(f: seq<Frame<T>>, g: seq<Frame<T>>, ids: seq<int>, head: int)
    requires Chained(f, ids, head) && SameNext(f, g, ids)
    ensures Chained(g, ids, head)
  {}

  /** Reordering the LRU list or changing links does not change the cached view. */
  lemma IndexKept<T>(f: seq<Frame<T>>, g: seq<Frame<T>>, lru: seq<int>, lru': seq<int>, slots: seq<int>, flash: seq<T>)
    requires Indexed(f, lru, slots, flash) && SamePayload(f, g)
    requires forall i :: i in lru <==> i in lru'
    ensures Indexed(g, lru', slots, flash) && View(g, lru', slots, flash) == View(f, lru, slots, flash)
  {
    forall k | 0 <= k < |lru'| ensures lru'[k] in lru {
      var x := lru'[k];
      assert x in lru';
      assert x in lru;
    }
  }

  /** Position in `ids` of the j-th element of `Without(ids, k)`. */
  ghost function Skip(j: int, k: int): int {
    if j < k then j else j + 1
  }

  lemma EvictIndex<T>(f: seq<Frame<T>>, lru: seq<int>, slots: seq<int>, flash: seq<T>, k: nat, flash': seq<T>)
    requires Indexed(f, lru, slots, flash) && k < |lru|
    requires forall i, j :: 0 <= i < j < |lru| ==> lru[i] != lru[j]
    requires flash' == if f[lru[k]].dirty then flash[f[lru[k]].off := f[lru[k]].page] else flash
    ensures Indexed(f, Without(lru, k), slots[f[lru[k]].off := NIL], flash')
  {
    var off, w, slots' := f[lru[k]].off, Without(lru, k), slots[f[lru[k]].off := NIL];
    forall j | 0 <= j < |w|
      ensures 0 <= w[j] < |f| && f[w[j]].off < |slots'| && slots'[f[w[j]].off] == w[j]
      ensures !f[w[j]].dirty ==> f[w[j]].page == flash'[f[w[j]].off]
    {
      var i := Skip(j, k);
      assert w[j] == lru[i] && lru[i] != lru[k];
      assert slots[f[lru[i]].off] == lru[i] && slots[off] == lru[k];
    }
    forall p | 0 <= p < |slots'| && slots'[p] != NIL ensures slots'[p] in w && f[slots'[p]].off == p {
      var i :| 0 <= i < |lru| && lru[i] == slots[p];
      assert i != k;
      assert w[if i < k then i else i - 1] == lru[i];
    }
  }

  /** Writing a victim back and dropping it from the index keeps the view. */
  lemma EvictKeeps<T>(f: seq<Frame<T>>, lru: seq<int>, slots: seq<int>, flash: seq<T>, k: nat, flash': seq<T>)
    requires Indexed(f, lru, slots, flash) && k < |lru|
    requires forall i, j :: 0 <= i < j < |lru| ==> lru[i] != lru[j]
    requires flash' == if f[lru[k]].dirty then flash[f[lru[k]].off := f[lru[k]].page] else flash
    ensures Indexed(f, Without(lru, k), slots[f[lru[k]].off := NIL], flash')
    ensures View(f, Without(lru, k), slots[f[lru[k]].off := NIL], flash') == View(f, lru, slots, flash)
  {
    EvictIndex(f, lru, slots, flash, k, flash');
    var off, w, slots' := f[lru[k]].off, Without(lru, k), slots[f[lru[k]].off := NIL];
    assert slots[off] == lru[k] && f[lru[k]].off < |flash|;
    assert lru[k] != NIL;
    hide Without;
    forall p | 0 <= p < |flash| ensures View(f, w, slots', flash')[p] == View(f, lru, slots, flash)[p] {
      if p != off {
        assert slots'[p] == slots[p] && flash'[p] == flash[p];
      }
    }
  }

  /** Filling an unlisted frame with an uncached page replaces that page in the view. */
  lemma FillKeeps<T>(f: seq<Frame<T>>, g: seq<Frame<T>>, lru: seq<int>, slots: seq<int>, flash: seq<T>, idx: int, p: nat)
    requires Indexed(f, lru, slots, flash) && 0 <= idx < |f| == |g| && idx !in lru && p < |slots| && slots[p] == NIL
    requires forall i :: 0 <= i < |f| && i != idx ==> g[i].off == f[i].off && g[i].dirty == f[i].dirty && g[i].page == f[i].page
    requires g[idx].off == p && (!g[idx].dirty ==> g[idx].page == flash[p])
    ensures Indexed(g, [idx] + lru, slots[p := idx], flash)
    ensures View(g, [idx] + lru, slots[p := idx], flash) == View(f, lru, slots, flash)[p := g[idx].page]
  {
    var w, slots' := [idx] + lru, slots[p := idx];
    forall k | 0 <= k < |w| ensures g[w[k]].off < |slots'| && slots'[g[w[k]].off] == w[k] {
      if k > 0 {
        assert w[k] == lru[k - 1] && lru[k - 1] in lru;
        assert slots[f[lru[k - 1]].off] == lru[k - 1];
      }
    }
    forall q | 0 <= q < |slots'| && slots'[q] != NIL ensures slots'[q] in w && g[slots'[q]].off == q {
      if q == p {
        assert w[0] == idx;
      } else {
        var i :| 0 <= i < |lru| && lru[i] == slots[q];
        assert w[i + 1] == slots[q];
      }
    }
    forall k | 0 <= k < |w| && !g[w[k]].dirty ensures g[w[k]].page == flash[g[w[k]].off] {
      if k > 0 {
        assert w[k] == lru[k - 1] && lru[k - 1] in lru;
      }
    }
    assert Indexed(g, w, slots', flash);
    forall q | 0 <= q < |flash| ensures View(g, w, slots', flash)[q] == View(f, lru, slots, flash)[p := g[idx].page][q] {}
  }

  lemma LinksKept<T>(f: seq<Frame<T>>, g: seq<Frame<T>>, ids: seq<int>, head: int, tail: int)
    requires Linked(f, ids, head, tail) && |f| == |g|
    requires forall k :: 0 <= k < |ids| ==> g[ids[k]].prev == f[ids[k]].prev && g[ids[k]].next == f[ids[k]].next
    ensures Linked(g, ids, head, tail)
  {
    forall k | 0 <= k < |ids| ensures LinkOk(g, ids, k) {
      assert LinkOk(f, ids, k);
    }
  }

  lemma TailFacts<T>(f: seq<Frame<T>>, lru: seq<int>, free: seq<int>, head: int, tail: int, slots: seq<int>, flash: seq<T>)
    requires Linked(f, lru, head, tail) && Partition(lru, free, |f|) && |lru| >= |f| > 0 && Indexed(f, lru, slots, flash)
    ensures |lru| > 0 && tail == lru[|lru| - 1] && 0 <= tail < |f| && f[tail].off < |slots| == |flash| && free == []
  {}

  lemma EvictStep<T>(f: seq<Frame<T>>, g: seq<Frame<T>>, lru: seq<int>, free: seq<int>, freeHead: int, head: int, tail: int,
                     slots: seq<int>, flash: seq<T>, flash': seq<T>)
    requires Linked(f, lru, head, tail) && Chained(f, free, freeHead) && Partition(lru, free, |f|)
    requires Indexed(f, lru, slots, flash) && |lru| >= |f| > 0 && |g| == |f|
    requires f[lru[|lru| - 1]].off < |slots| && f[lru[|lru| - 1]].off < |flash|
    requires forall i :: 0 <= i < |f| ==> g[i] == UnlinkedAt(f, lru[|lru| - 1], i)
    requires flash' == if f[tail].dirty then flash[f[tail].off := f[tail].page] else flash
    ensures var w, slots' := Without(lru, |lru| - 1), slots[f[tail].off := NIL];
            && tail !in w && tail !in free && Chained(g, free, freeHead) && Partition([tail] + w, free, |f|)
            && Indexed(g, w, slots', flash') && View(g, w, slots', flash') == View(f, lru, slots, flash)
  {
    hide LinkOk, View;
    var k := |lru| - 1;
    TailFacts(f, lru, free, head, tail, slots, flash);
    EvictKeeps(f, lru, slots, flash, k, flash');
    IndexKept(f, g, Without(lru, k), Without(lru, k), slots[f[tail].off := NIL], flash');
    FreeListKept(f, g, free, freeHead);
  }

  lemma FreeFacts<T>(f: seq<Frame<T>>, lru: seq<int>, free: seq<int>, freeHead: int)
    requires Chained(f, free, freeHead) && Partition(lru, free, |f|) && |lru| < |f|
    ensures |free| > 0 && freeHead == free[0] && 0 <= freeHead < |f|
  {}

  lemma PopStep<T>(f: seq<Frame<T>>, g: seq<Frame<T>>, lru: seq<int>, free: seq<int>, idx: int, head: int, tail: int,
                   slots: seq<int>, flash: seq<T>)
    requires Linked(f, lru, head, tail) && Chained(f, free, idx) && Partition(lru, free, |f|)
    requires Indexed(f, lru, slots, flash) && |free| > 0 && 0 <= idx < |f|
    requires g == f[idx := f[idx].(next := NIL)]
    ensures idx !in lru && idx !in free[1..] && Linked(g, lru, head, tail) && Chained(g, free[1..], f[idx].next)
    ensures Partition([idx] + lru, free[1..], |f|)
    ensures Indexed(g, lru, slots, flash) && View(g, lru, slots, flash) == View(f, lru, slots, flash)
  {
    hide LinkOk, View;
    var rest := free[1..];
    assert idx == free[0];
    assert forall k :: 0 <= k < |rest| ==> rest[k] == free[k + 1];
    LinksKept(f, g, lru, head, tail);
    IndexKept(f, g, lru, lru, slots, flash);
    assert Chained(g, rest, f[idx].next);
  }

  lemma TakenLinks<T>(f: seq<Frame<T>>, g: seq<Frame<T>>, lru: seq<int>, free: seq<int>, head: int, tail: int, freeHead: int, idx: int)
    requires Linked(f, lru, head, tail) && Chained(f, free, freeHead) && 0 <= idx < |f|
    requires |g| == |f| && forall i :: 0 <= i < |f| ==> g[i].prev == f[i].prev && g[i].next == f[i].next
    ensures Linked(g, lru, head, tail) && Chained(g, free, freeHead)
  {
    hide LinkOk;
    LinksKept(f, g, lru, head, tail);
    FreeListKept(f, g, free, freeHead);
  }

  lemma PushChain<T>(f: seq<Frame<T>>, g: seq<Frame<T>>, head: int, idx: int, free: seq<int>, freeHead: int)
    requires Chained(f, free, freeHead) && idx !in free && |g| == |f|
    requires forall i :: 0 <= i < |f| ==> g[i] == PushedAt(f, head, idx, i)
    ensures Chained(g, free, freeHead)
  {
    FreeListKept(f, g, free, freeHead);
  }

  lemma WithoutFacts<T>(f: seq<Frame<T>>, ids: seq<int>, head: int, tail: int, k: nat)
    requires Linked(f, ids, head, tail) && k < |ids|
    ensures 0 <= ids[k] < |f| && ids[k] !in Without(ids, k)
    ensures forall i :: i in ids <==> i in [ids[k]] + Without(ids, k)
  {
    var w := Without(ids, k);
    forall j | 0 <= j < |w| ensures w[j] != ids[k] && w[j] in ids {
      assert w[j] == ids[if j < k then j else j + 1];
    }
    forall i | i in ids ensures i in [ids[k]] + w {
      var j :| 0 <= j < |ids| && ids[j] == i;
      if j != k {
        assert w[if j < k then j else j - 1] == i;
      }
    }
  }

  /** Taking a listed frame out does not touch the free list. */
  lemma UnlinkFree<T>(f: seq<Frame<T>>, g: seq<Frame<T>>, ids: seq<int>, free: seq<int>, freeHead: int, head: int, tail: int, k: nat)
    requires Linked(f, ids, head, tail) && Chained(f, free, freeHead) && Partition(ids, free, |f|) && k < |ids| && |g| == |f|
    requires forall i :: 0 <= i < |f| ==> g[i] == UnlinkedAt(f, ids[k], i)
    ensures Chained(g, free, freeHead)
  {
    hide LinkOk;
    LinkAt(f, ids, head, tail, k);
    forall j | 0 <= j < |free| ensures g[free[j]].next == f[free[j]].next {
      assert free[j] != ids[k];
      assert k > 0 ==> free[j] != ids[k - 1];
    }
    FreeListKept(f, g, free, freeHead);
  }

  lemma TouchPartition(ids: seq<int>, free: seq<int>, n: nat, k: nat)
    requires Partition(ids, free, n) && k < |ids|
    ensures Partition([ids[k]] + Without(ids, k), free, n)
  {
    var w := [ids[k]] + Without(ids, k);
    forall j, l | 0 <= j < |w| && 0 <= l < |free| ensures w[j] != free[l] {
      assert w[j] == if j == 0 then ids[k] else ids[Skip(j - 1, k)];
    }
  }

  lemma TouchStep<T>(f: seq<Frame<T>>, f1: seq<Frame<T>>, g: seq<Frame<T>>, ids: seq<int>, free: seq<int>, freeHead: int,
                     head: int, tail: int, k: nat, h1: int, slots: seq<int>, flash: seq<T>)
    requires Linked(f, ids, head, tail) && Chained(f, free, freeHead) && Partition(ids, free, |f|) && k < |ids|
    requires Indexed(f, ids, slots, flash) && |f1| == |g| == |f| && 0 <= ids[k] < |f|
    requires forall i :: 0 <= i < |f| ==> f1[i] == UnlinkedAt(f, ids[k], i)
    requires forall i :: 0 <= i < |f| ==> g[i] == PushedAt(f1, h1, ids[k], i)
    ensures var lru' := [ids[k]] + Without(ids, k);
            && Chained(g, free, freeHead) && Partition(lru', free, |f|)
            && Indexed(g, lru', slots, flash) && View(g, lru', slots, flash) == View(f, ids, slots, flash)
  {
    hide View, Linked, Chained, Indexed, Without;
    WithoutFacts(f, ids, head, tail, k);
    UnlinkFree(f, f1, ids, free, freeHead, head, tail, k);
    assert ids[k] !in free;
    PushChain(f1, g, h1, ids[k], free, freeHead);
    TouchPartition(ids, free, |f|, k);
    IndexKept(f, g, ids, [ids[k]] + Without(ids, k), slots, flash);
  }

  lemma ViewAt<T>(f: seq<Frame<T>>, lru: seq<int>, slots: seq<int>, flash: seq<T>, p: nat)
    requires Indexed(f, lru, slots, flash) && p < |flash|
    ensures p < |slots| && slots[p] < |f| && |View(f, lru, slots, flash)| == |flash|
    ensures View(f, lru, slots, flash)[p] == if slots[p] == NIL then flash[p] else f[slots[p]].page
    ensures slots[p] != NIL ==> 0 <= slots[p]
  {}

  lemma StoreStep<T>(f: seq<Frame<T>>, g: seq<Frame<T>>, lru: seq<int>, head: int, tail: int, free: seq<int>, freeHead: int,
                     slots: seq<int>, flash: seq<T>, idx: int, p: nat)
    requires Linked(f, lru, head, tail) && Chained(f, free, freeHead) && Indexed(f, lru, slots, flash)
    requires p < |flash| && slots[p] == idx && 0 <= idx < |f| == |g| && g == f[idx := f[idx].(page := g[idx].page, dirty := true)]
    ensures Linked(g, lru, head, tail) && Chained(g, free, freeHead) && Indexed(g, lru, slots, flash)
    ensures View(g, lru, slots, flash) == View(f, lru, slots, flash)[p := g[idx].page]
  {
    hide LinkOk;
    TakenLinks(f, g, lru, free, head, tail, freeHead, idx);
  }

  lemma HeadFacts<T>(f: seq<Frame<T>>, lru: seq<int>, head: int, tail: int)
    requires Linked(f, lru, head, tail)
    ensures head == At(lru, 0) && (|lru| > 0 ==> 0 <= head < |f|)
  {}

  lemma FlushFacts<T>(f: seq<Frame<T>>, lru: seq<int>, head: int, tail: int, slots: seq<int>, flash: seq<T>, k: nat)
    requires Linked(f, lru, head, tail) && Indexed(f, lru, slots, flash) && k < |lru|
    ensures 0 <= lru[k] < |f| && f[lru[k]].off < |flash| && f[lru[k]].next == At(lru, k + 1)
    ensures k + 1 < |lru| ==> 0 <= f[lru[k]].next < |f|
    ensures forall j :: 0 <= j < k ==> lru[j] != lru[k]
  {
    LinkAt(f, lru, head, tail, k);
  }

  /** Writing back one dirty frame. */
  lemma CleanStep<T>(f: seq<Frame<T>>, g: seq<Frame<T>>, lru: seq<int>, head: int, tail: int, free: seq<int>, freeHead: int,
                     slots: seq<int>, flash: seq<T>, flash': seq<T>, k: nat)
    requires Linked(f, lru, head, tail) && Chained(f, free, freeHead) && Indexed(f, lru, slots, flash) && k < |lru|
    requires g == f[lru[k] := f[lru[k]].(dirty := false)] && flash' == flash[f[lru[k]].off := f[lru[k]].page]
    ensures Linked(g, lru, head, tail) && Chained(g, free, freeHead) && Indexed(g, lru, slots, flash')
    ensures View(g, lru, slots, flash') == View(f, lru, slots, flash)
  {
    hide LinkOk;
    TakenLinks(f, g, lru, free, head, tail, freeHead, lru[k]);
    forall j | 0 <= j < |lru| && !g[lru[j]].dirty ensures g[lru[j]].page == flash'[g[lru[j]].off] {
      assert slots[f[lru[j]].off] == lru[j] && slots[f[lru[k]].off] == lru[k];
    }
  }

  lemma AllClean<T>(f: seq<Frame<T>>, lru: seq<int>, slots: seq<int>, flash: seq<T>)
    requires Indexed(f, lru, slots, flash) && forall j :: 0 <= j < |lru| ==> !f[lru[j]].dirty
    ensures View(f, lru, slots, flash) == flash
  {
    forall p | 0 <= p < |flash| ensures View(f, lru, slots, flash)[p] == flash[p] {
      if slots[p] != NIL {
        var k :| 0 <= k < |lru| && lru[k] == slots[p];
      }
    }
  }

  lemma InitFacts<T>(f: seq<Frame<T>>, slots: seq<int>, n: nat, disk: seq<T>)
    requires |f| == n > 0 && forall i :: 0 <= i < n ==> f[i].next == if i + 1 < n then i + 1 else NIL
    requires |slots| == |disk| && forall p :: 0 <= p < |slots| ==> slots[p] == NIL
    ensures Linked(f, [], NIL, NIL) && Chained(f, seq(n, i => i), 0) && Partition([], seq(n, i => i), n)
    ensures Indexed(f, [], slots, disk) && View(f, [], slots, disk) == disk
  {}

  /** Least recently used: the loaded frame comes first, the others keep their order, and only a
      full pool gives up its last one. */
  ghost predicate Recent(before: seq<int>, after: seq<int>, idx: int, cached: bool, room: bool) {
    && after != [] && after[0] == idx
    && if cached then exists k: nat :: k < |before| && before[k] == idx && after[1..] == Without(before, k)
       else if room then after[1..] == before
       else before == after[1..] + [idx]
  }

  lemma HeadIsFirst<T>(f: seq<Frame<T>>, ids: seq<int>, head: int, tail: int, k: nat)
    requires Linked(f, ids, head, tail) && k < |ids| && ids[k] == head
    ensures k == 0 && ids == [head] + Without(ids, 0)
  {
  }

  class PageCache<T(==)> {
    const pool: array<Frame<T>>
    const pageSlots: array<int>
    var lruHead: int
    var lruTail: int
    var freeHead: int
    var numCached: nat
    /** The backing file, one page per index. */
    var flash: seq<T>

    ghost var lru: seq<int>
    ghost var free: seq<int>

    ghost predicate Valid()
      reads this, pool, pageSlots
    {
      && pool.Length > 0
      && Linked(pool[..], lru, lruHead, lruTail)
      && Chained(pool[..], free, freeHead)
      && Partition(lru, free, pool.Length)
      && numCached == |lru|
      && Indexed(pool[..], lru, pageSlots[..], flash)
    }

    ghost function Pages(): seq<T>
      reads this, pool, pageSlots
      requires Valid()
    {
      View(pool[..], lru, pageSlots[..], flash)
    }

    /** LruUnlink */
    method LruUnlink(idx: int, ghost k: nat)
      requires Linked(pool[..], lru, lruHead, lruTail) && k < |lru| && idx == lru[k]
      modifies this`lruHead, this`lruTail, this`lru, pool
      ensures lru == Without(old(lru), k) && Linked(pool[..], lru, lruHead, lruTail)
      ensures forall i :: 0 <= i < pool.Length ==> pool[i] == UnlinkedAt(old(pool[..]), idx, i)
    {
      hide Linked, Without;
      LinkAt(pool[..], lru, lruHead, lruTail, k);
      ghost var f := pool[..];
      var e := pool[idx];
      if e.prev != NIL {
        pool[e.prev] := pool[e.prev].(next := e.next);
      } else {
        lruHead := e.next;
      }
      if e.next != NIL {
        pool[e.next] := pool[e.next].(prev := e.prev);
      } else {
        lruTail := e.prev;
      }
      pool[idx] := pool[idx].(prev := NIL, next := NIL);
      UnlinkKeeps(f, pool[..], lru, old(lruHead), old(lruTail), k);
      lru := Without(lru, k);
    }

    /** LruPushFront */
    method LruPushFront(idx: int)
      requires 0 <= idx < pool.Length && idx !in lru && Linked(pool[..], lru, lruHead, lruTail)
      modifies this`lruHead, this`lruTail, this`lru, pool
      ensures lru == [idx] + old(lru) && Linked(pool[..], lru, lruHead, lruTail)
      ensures forall i :: 0 <= i < pool.Length ==> pool[i] == PushedAt(old(pool[..]), old(lruHead), idx, i)
    {
      ghost var f := pool[..];
      pool[idx] := pool[idx].(prev := NIL, next := lruHead);
      if lruHead != NIL {
        pool[lruHead] := pool[lruHead].(prev := idx);
      } else {
        lruTail := idx;
      }
      PushKeeps(f, pool[..], lru, lruHead, old(lruTail), idx);
      lruHead := idx;
      lru := [idx] + lru;
    }

    /** Between taking a frame and listing it again. */
    ghost predicate Taken(idx: int)
      reads this, pool, pageSlots
    {
      && 0 <= idx < pool.Length && idx !in lru && idx !in free
      && Linked(pool[..], lru, lruHead, lruTail)
      && Chained(pool[..], free, freeHead)
      && Partition([idx] + lru, free, pool.Length)
      && numCached == |lru| + 1
      && Indexed(pool[..], lru, pageSlots[..], flash)
    }

    /** The eviction half of TakePoolSlot. */
    method EvictTail() returns (idx: int)
      requires Valid() && numCached >= pool.Length
      modifies this, pool, pageSlots
      ensures Taken(idx) && View(pool[..], lru, pageSlots[..], flash) == old(Pages()) && old(lru) == lru + [idx]
      ensures forall p :: 0 <= p < pageSlots.Length && old(pageSlots[p]) == NIL ==> pageSlots[p] == NIL
    {
      hide View, Linked, Chained, Indexed, Partition;
      ghost var f, k := pool[..], |lru| - 1;
      TailFacts(f, lru, free, lruHead, lruTail, pageSlots[..], flash);
      idx := lruTail;
      var v := pool[idx];
      if v.dirty {
        flash := flash[v.off := v.page];
      }
      pageSlots[v.off] := NIL;
      assert pageSlots[..] == old(pageSlots[..])[v.off := NIL];
      LruUnlink(idx, k);
      EvictStep(f, pool[..], old(lru), free, freeHead, old(lruHead), old(lruTail), old(pageSlots[..]), old(flash), flash);
    }

    /** The free-list half of TakePoolSlot. */
    method PopFree() returns (idx: int)
      requires Valid() && numCached < pool.Length
      modifies this, pool
      ensures Taken(idx) && View(pool[..], lru, pageSlots[..], flash) == old(Pages()) && lru == old(lru)
    {
      hide View, Linked, Chained, Indexed, Partition;
      ghost var f := pool[..];
      FreeFacts(f, lru, free, freeHead);
      idx := freeHead;
      freeHead := pool[idx].next;
      pool[idx] := pool[idx].(next := NIL);
      numCached := numCached + 1;
      free := free[1..];
      PopStep(f, pool[..], lru, old(free), idx, lruHead, lruTail, pageSlots[..], flash);
    }

    /** List frame `idx` as the cached copy of page `p`. */
    method Install(idx: int, p: nat, page: T, dirty: bool)
      requires Taken(idx) && p < pageSlots.Length && pageSlots[p] == NIL
      requires p < |flash| && (!dirty ==> page == flash[p])
      modifies this, pool, pageSlots
      ensures Valid() && flash == old(flash) && pageSlots[..] == old(pageSlots[..])[p := idx] && lru == [idx] + old(lru)
      ensures Pages() == old(View(pool[..], lru, pageSlots[..], flash))[p := page]
    {
      hide View, Linked, Chained, Indexed, Partition;
      ghost var f := pool[..];
      pool[idx] := pool[idx].(off := p, dirty := dirty, page := page);
      ghost var f1 := pool[..];
      TakenLinks(f, f1, lru, free, lruHead, lruTail, freeHead, idx);
      pageSlots[p] := idx;
      assert pageSlots[..] == old(pageSlots[..])[p := idx];
      LruPushFront(idx);
      PushChain(f1, pool[..], old(lruHead), idx, free, freeHead);
      FillKeeps(f, pool[..], old(lru), old(pageSlots[..]), flash, idx, p);
    }

    /** Hit path of LoadPage: move the frame to the LRU front. */
    method Touch(idx: int, ghost k: nat)
      requires Valid() && k < |lru| && lru[k] == idx
      modifies this, pool
      ensures Valid() && flash == old(flash) && Pages() == old(Pages()) && lru == [idx] + Without(old(lru), k)
    {
      hide View, Linked, Chained, Indexed, Partition;
      if idx == lruHead {
        HeadIsFirst(pool[..], lru, lruHead, lruTail, k);
      } else {
        ghost var f, ids := pool[..], lru;
        WithoutFacts(f, ids, lruHead, lruTail, k);
        LruUnlink(idx, k);
        ghost var f1, h1 := pool[..], lruHead;
        LruPushFront(idx);
        TouchStep(f, f1, pool[..], ids, free, freeHead, old(lruHead), old(lruTail), k, h1, pageSlots[..], flash);
      }
    }

    /** LoadPage / LoadPageSlot: bring page `p` into the cache and return its frame. */
    method LoadPage(p: nat) returns (idx: int)
      requires Valid() && p < |flash|
      modifies this, pool, pageSlots
      ensures Valid() && Pages() == old(Pages())
      ensures p < pageSlots.Length && idx == pageSlots[p] && 0 <= idx < pool.Length
      ensures Recent(old(lru), lru, idx, old(pageSlots[p]) != NIL, old(numCached) < pool.Length)
      ensures forall q :: 0 <= q < pageSlots.Length && q != p && old(pageSlots[q]) == NIL ==> pageSlots[q] == NIL
    {
      hide View, Linked, Chained, Partition;
      idx := pageSlots[p];
      if idx != NIL {
        ghost var k :| 0 <= k < |lru| && lru[k] == idx;
        Touch(idx, k);
        return;
      }
      ViewAt(pool[..], lru, pageSlots[..], flash, p);
      if numCached >= pool.Length {
        idx := EvictTail();
      } else {
        idx := PopFree();
      }
      ViewAt(pool[..], lru, pageSlots[..], flash, p);
      Install(idx, p, flash[p], false);
    }

    /** LoadPageSlotForFresh and the caller's overwrite of the whole page: no read from flash. */
    method LoadFresh(p: nat, page: T) returns (idx: int)
      requires Valid() && p < |flash|
      modifies this, pool, pageSlots
      ensures Valid() && Pages() == old(Pages())[p := page]
      ensures p < pageSlots.Length && idx == pageSlots[p] && 0 <= idx < pool.Length
      ensures Recent(old(lru), lru, idx, old(pageSlots[p]) != NIL, old(numCached) < pool.Length)
      ensures forall q :: 0 <= q < pageSlots.Length && q != p && old(pageSlots[q]) == NIL ==> pageSlots[q] == NIL
    {
      hide View, Linked, Chained, Partition;
      idx := pageSlots[p];
      if idx != NIL {
        ghost var k :| 0 <= k < |lru| && lru[k] == idx;
        Touch(idx, k);
        Store(idx, page, p);
        return;
      }
      if numCached >= pool.Length {
        idx := EvictTail();
      } else {
        idx := PopFree();
      }
      Install(idx, p, page, true);
    }

    /** Change a loaded page in place and mark it dirty. */
    method Store(idx: int, page: T, ghost p: nat)
      requires Valid() && p < |flash| && p < pageSlots.Length && pageSlots[p] == idx && 0 <= idx < pool.Length
      modifies pool
      ensures Valid() && Pages() == old(Pages())[p := page]
      ensures pageSlots[p] == idx
    {
      hide View, Linked, Chained, Partition, Indexed;
      ghost var f := pool[..];
      pool[idx] := pool[idx].(page := page, dirty := true);
      StoreStep(f, pool[..], lru, lruHead, lruTail, free, freeHead, pageSlots[..], flash, idx, p);
    }

    lemma Sizes()
      requires Valid()
      ensures |Pages()| == |flash| == pageSlots.Length
    {}

    /** A cached page is the frame its index entry names. */
    lemma PageAt(p: nat)
      requires Valid() && p < |flash| && pageSlots[p] != NIL
      ensures |Pages()| == |flash| == pageSlots.Length && 0 <= pageSlots[p] < pool.Length && pool[pageSlots[p]].page == Pages()[p]
    {
      ViewAt(pool[..], lru, pageSlots[..], flash, p);
    }

    /** ReadPage: the cached copy if there is one, else the flash copy; nothing changes. */
    method ReadPage(p: nat) returns (page: T)
      requires Valid() && p < |flash|
      ensures page == Pages()[p]
    {
      ViewAt(pool[..], lru, pageSlots[..], flash, p);
      var idx := pageSlots[p];
      page := if idx != NIL then pool[idx].page else flash[p];
    }

    /** FlushDirty: afterwards flash holds the whole abstract array. */
    method FlushDirty()
      requires Valid()
      modifies this`flash, pool
      ensures Valid() && Pages() == old(Pages()) && flash == Pages()
    {
      hide View, Linked, Chained, Partition, Indexed;
      var idx := lruHead;
      ghost var k := 0;
      HeadFacts(pool[..], lru, lruHead, lruTail);
      while idx != NIL
        invariant Valid() && Pages() == old(Pages())
        invariant 0 <= k <= |lru| && idx == At(lru, k) && (k < |lru| ==> 0 <= idx < pool.Length)
        invariant forall j :: 0 <= j < k ==> 0 <= lru[j] < pool.Length && !pool[lru[j]].dirty
        decreases |lru| - k
      {
        ghost var f, s0 := pool[..], flash;
        var e := pool[idx];
        FlushFacts(f, lru, lruHead, lruTail, pageSlots[..], flash, k);
        if e.dirty {
          flash := flash[e.off := e.page];
          pool[idx] := pool[idx].(dirty := false);
          CleanStep(f, pool[..], lru, lruHead, lruTail, free, freeHead, pageSlots[..], s0, flash, k);
        }
        idx := pool[idx].next;
        k := k + 1;
      }
      AllClean(pool[..], lru, pageSlots[..], flash);
    }

    /** Init */
    constructor (frames: nat, disk: seq<T>, blank: T)
      requires frames > 0
      ensures Valid() && flash == disk && Pages() == disk && fresh(pool) && fresh(pageSlots)
      ensures forall p :: 0 <= p < pageSlots.Length ==> pageSlots[p] == NIL
    {
      hide Linked, Chained, Partition, Indexed, View;
      pool := new Frame<T>[frames](i => Frame(0, NIL, if i + 1 < frames then i + 1 else NIL, false, blank));
      pageSlots := new int[|disk|](i => NIL);
      lruHead, lruTail, freeHead, numCached := NIL, NIL, 0, 0;
      flash := disk;
      lru, free := [], seq(frames, i => i);
      new;
      InitFacts(pool[..], pageSlots[..], frames, disk);
    }
  }
}
