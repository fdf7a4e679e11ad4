/** Paged transfer of a listing: record boundaries, slices, and the table of staged listings. */
module Paging {
  import opened DentRegions

  /** offsetof(DentView, name_) */
  const VIEW_HEADER: nat := 28

  /** DentView::SetRecLen */
  function RecLen(d: Dent): nat {
    VIEW_HEADER + |d.name| + 1
  }

  /** Byte offset of the i-th record. */
  function Off(entries: seq<Dent>, i: nat): nat
    requires i <= |entries|
  {
    if i == 0 then 0 else Off(entries, i - 1) + RecLen(entries[i - 1])
  }

  lemma {:induction false} OffGrows(entries: seq<Dent>, i: nat, j: nat)
    requires i < j <= |entries|
    ensures Off(entries, i) + RecLen(entries[i]) <= Off(entries, j)
  {
    if i < j - 1 {
      OffGrows(entries, i, j - 1);
    }
  }

  lemma OffZero(entries: seq<Dent>)
    ensures Off(entries, 0) == 0
  {
  }

  lemma OffStep(entries: seq<Dent>, i: nat)
    requires i < |entries|
    ensures Off(entries, i + 1) == Off(entries, i) + RecLen(entries[i])
  {
  }

  /** record_offsets */
  method BuildOffsets(entries: seq<Dent>) returns (offs: seq<nat>)
    ensures |offs| == |entries| + 1 && forall i :: 0 <= i <= |entries| ==> offs[i] == Off(entries, i)
  {
    hide Off;
    OffZero(entries);
    offs := [0];
    var pos: nat := 0;
    for k := 0 to |entries|
      invariant |offs| == k + 1 && pos == Off(entries, k)
      invariant forall i :: 0 <= i <= k ==> offs[i] == Off(entries, i)
    {
      OffStep(entries, k);
      pos := pos + RecLen(entries[k]);
      offs := offs + [pos];
    }
  }

  /** std::lower_bound (`strict` false: first element >= x) and std::upper_bound (first > x). */
  method Bound(a: seq<nat>, x: nat, strict: bool) returns (k: nat)
    requires forall i, j :: 0 <= i < j < |a| ==> a[i] <= a[j]
    ensures k <= |a|
    ensures forall i :: 0 <= i < k ==> if strict then a[i] <= x else a[i] < x
    ensures forall i :: k <= i < |a| ==> if strict then a[i] > x else a[i] >= x
  {
    k := 0;
    var hi := |a|;
    while k < hi
      invariant k <= hi <= |a|
      invariant forall i :: 0 <= i < k ==> if strict then a[i] <= x else a[i] < x
      invariant forall i :: hi <= i < |a| ==> if strict then a[i] > x else a[i] >= x
    {
      var mid := (k + hi) / 2;
      if (if strict then a[mid] <= x else a[mid] < x) {
        k := mid + 1;
      } else {
        hi := mid;
      }
    }
  }

  /** The chunk a request for `size` bytes at record i is answered with: records i up to j. */
  ghost predicate ChunkTo(entries: seq<Dent>, i: nat, size: nat, j: nat) {
    && i <= j <= |entries|
    && Off(entries, j) <= Off(entries, i) + size
    && (j < |entries| ==> Off(entries, j + 1) > Off(entries, i) + size)
  }

  /** The answer to a request at record i. */
  ghost predicate Sliced(entries: seq<Dent>, i: nat, size: nat, chunk: seq<Dent>, written: nat) {
    exists j: nat :: ChunkTo(entries, i, size, j) && chunk == entries[i..j] && Off(entries, i) + written == Off(entries, j)
  }

  /** The slicing half of GetDentViews: a record-aligned offset is answered with as many whole records
      as fit in `size` bytes, any other offset with nothing. */
  method Slice(entries: seq<Dent>, size: nat, offset: nat) returns (chunk: seq<Dent>, written: nat, total: nat)
    ensures total == Off(entries, |entries|)
    ensures forall i: nat :: i <= |entries| && offset == Off(entries, i) ==> Sliced(entries, i, size, chunk, written)
    ensures (forall i: nat :: i <= |entries| ==> offset != Off(entries, i)) ==> chunk == [] && written == 0
  {
    var offs := BuildOffsets(entries);
    forall i, j | 0 <= i < j < |offs| ensures offs[i] < offs[j] { OffGrows(entries, i, j); }
    chunk, written, total := [], 0, offs[|entries|];
    if offset >= total {
      // End of stream.
      assert offset == total ==> ChunkTo(entries, |entries|, size, |entries|);
      return;
    }
    var beg := Bound(offs, offset, false);
    if beg == |offs| || offs[beg] != offset {
      return;
    }
    var above := Bound(offs, offset + size, true);
    var end := above - 1;
    assert ChunkTo(entries, beg, size, end);
    if offs[end] <= offset {
      // The next record alone is larger than the chunk.
      assert end == beg;
      return;
    }
    written := offs[end] - offset;
    chunk := entries[beg..end];
  }

  class PendingListings {
    /** Staged listings by (directory, cutoff). */
    var staged: map<(nat, nat), seq<Dent>>

    constructor ()
      ensures staged == map[]
    {
      staged := map[];
    }

    method Stage(dir: nat, cutoff: nat, entries: seq<Dent>)
      modifies this
      ensures staged == old(staged)[(dir, cutoff) := entries]
    {
      staged := staged[(dir, cutoff) := entries];
    }

    method Release(dir: nat, cutoff: nat)
      modifies this
      ensures staged == old(staged) - {(dir, cutoff)}
    {
      staged := staged - {(dir, cutoff)};
    }

    /** SweepExpired, given the keys whose time is up. */
    method Sweep(expired: set<(nat, nat)>)
      modifies this
      ensures staged == old(staged) - expired
    {
      staged := staged - expired;
    }
  }

  /** The longest prefix whose records all fit in a chunk. */
  function Drainable(entries: seq<Dent>, size: nat): (k: nat)
    ensures k <= |entries|
    ensures forall i :: 0 <= i < k ==> RecLen(entries[i]) <= size
    ensures k < |entries| ==> RecLen(entries[k]) > size
  {
    if entries == [] || RecLen(entries[0]) > size then 0 else 1 + Drainable(entries[1..], size)
  }

  /** An answer never crosses a record that does not fit, and is empty only at one or at the end. */
  lemma SliceProgress(entries: seq<Dent>, i: nat, size: nat, j: nat)
    requires ChunkTo(entries, i, size, j) && i <= Drainable(entries, size)
    ensures j <= Drainable(entries, size)
    ensures Off(entries, j) == Off(entries, i) <==> i == Drainable(entries, size)
    ensures Off(entries, j) == Off(entries, i) ==> j == i
  {
    var k := Drainable(entries, size);
    if i < j {
      OffGrows(entries, i, j);
    }
    if i <= k < j {
      // Record k alone would overflow the chunk.
      OffGrows(entries, k, j);
      if i < k {
        OffGrows(entries, i, k);
      }
    }
  }

  /** One client's stream from one metadata server after `pos` records. */
  ghost predicate Progress(entries: seq<Dent>, size: nat, stream: seq<Dent>, offset: nat, done: bool, pos: nat) {
    && pos <= Drainable(entries, size)
    && stream == entries[..pos]
    && offset == Off(entries, pos)
    && (done ==> pos == Drainable(entries, size))
  }

  lemma Advance(entries: seq<Dent>, size: nat, stream: seq<Dent>, offset: nat, pos: nat, chunk: seq<Dent>, written: nat) returns (next: nat)
    requires Progress(entries, size, stream, offset, false, pos) && Sliced(entries, pos, size, chunk, written)
    ensures Progress(entries, size, stream + chunk, offset + written, written == 0, next)
    ensures next >= pos && (next > pos || written == 0)
  {
    next :| ChunkTo(entries, pos, size, next) && chunk == entries[pos..next] && Off(entries, pos) + written == Off(entries, next);
    SliceProgress(entries, pos, size, next);
    assert entries[..next] == entries[..pos] + entries[pos..next];
  }

  lemma AtRecord(entries: seq<Dent>, size: nat, stream: seq<Dent>, offset: nat, done: bool, pos: nat)
    requires Progress(entries, size, stream, offset, done, pos)
    ensures pos <= |entries| && offset == Off(entries, pos)
  {
  }

  ghost function Longest(now: seq<seq<Dent>>): (n: nat)
    ensures forall m :: 0 <= m < |now| ==> |now[m]| <= n
  {
    if now == [] then 0
    else
      var rest := Longest(now[1..]);
      assert forall m :: 0 < m < |now| ==> now[m] == now[1..][m - 1];
      if |now[0]| > rest then |now[0]| else rest
  }
}
