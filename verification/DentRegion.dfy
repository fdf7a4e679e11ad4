/** SSDDentRegion: per-directory append-only event logs, stored as chains of 4 KB pages.

    Pages are numbered; page number 0 is the null link.  A page's data area is the
    sequence of records laid out in it; `used` counts its bytes. */
module DentRegions {
  import opened PageCaches

  const NAME_MAX: nat := 63
  const RECORD_HEADER: nat := 20
  const DATA_BYTES: nat := 4074

  /** A directory event; `tomb` marks a removal. */
  datatype Dent = Dent(inode: nat, version: nat, kind: nat, tomb: bool, name: string)

  datatype DirPage = DirPage(dir: nat, next: nat, used: nat, count: nat, puts: nat, recs: seq<Dent>)

  function RecordSize(d: Dent): nat {
    RECORD_HEADER + |d.name| + 1
  }

  function Bytes(recs: seq<Dent>): nat {
    if recs == [] then 0 else Bytes(recs[..|recs| - 1]) + RecordSize(recs[|recs| - 1])
  }

  /** The records never overflow the page, and its header describes them. */
  predicate PageOk(p: DirPage) {
    p.used == Bytes(p.recs) <= DATA_BYTES && p.count == |p.recs|
  }

  predicate HasSpace(p: DirPage, size: nat) {
    p.used + size <= DATA_BYTES
  }

  function FreshPage(dir: nat, next: nat): DirPage {
    DirPage(dir, next, 0, 0, 0, [])
  }

  function WithRecord(p: DirPage, d: Dent): DirPage {
    DirPage(p.dir, p.next, p.used + RecordSize(d), p.count + 1, p.puts + (if d.tomb then 0 else 1), p.recs + [d])
  }

  lemma WithRecordOk(p: DirPage, d: Dent)
    requires PageOk(p) && HasSpace(p, RecordSize(d))
    ensures PageOk(WithRecord(p, d))
  {
    assert (p.recs + [d])[..|p.recs|] == p.recs;
  }

  // ── chains ──

  /** A directory's chain: its own pages only, each linking to a strictly smaller page number. */
  ghost predicate ChainOk(pages: seq<DirPage>, h: nat, dir: nat)
    decreases h
  {
    h != 0 ==>
      && h < |pages| && pages[h].dir == dir && PageOk(pages[h])
      && pages[h].next < h && ChainOk(pages, pages[h].next, dir)
  }

  /** The directory's events in the order they were appended: oldest page first. */
  ghost function Log(pages: seq<DirPage>, h: nat, dir: nat): seq<Dent>
    requires ChainOk(pages, h, dir)
    decreases h
  {
    if h == 0 then [] else Log(pages, pages[h].next, dir) + pages[h].recs
  }

  /** A chain depends only on the directory's own pages up to its head. */
  lemma {:induction false} ChainKept(pages: seq<DirPage>, pages': seq<DirPage>, h: nat, dir: nat)
    requires ChainOk(pages, h, dir) && |pages'| == |pages|
    requires forall p :: 0 < p <= h && p < |pages| && pages[p].dir == dir ==> pages'[p] == pages[p]
    ensures ChainOk(pages', h, dir) && Log(pages', h, dir) == Log(pages, h, dir)
    decreases h
  {
    if h != 0 {
      ChainKept(pages, pages', pages[h].next, dir);
    }
  }

  /** Appending a record to the head page appends it to the log. */
  lemma AppendInPage(pages: seq<DirPage>, h: nat, dir: nat, d: Dent)
    requires ChainOk(pages, h, dir) && h != 0 && HasSpace(pages[h], RecordSize(d))
    ensures var pages' := pages[h := WithRecord(pages[h], d)];
            ChainOk(pages', h, dir) && Log(pages', h, dir) == Log(pages, h, dir) + [d]
  {
    var pages' := pages[h := WithRecord(pages[h], d)];
    WithRecordOk(pages[h], d);
    ChainKept(pages, pages', pages[h].next, dir);
  }

  /** Rewriting a page of one directory leaves every other directory's chain alone. */
  lemma OtherPages(pages: seq<DirPage>, p: nat, dir: nat, page: DirPage, h: nat, other: nat)
    requires ChainOk(pages, h, other) && p < |pages| && pages[p].dir == dir != other
    ensures ChainOk(pages[p := page], h, other) && Log(pages[p := page], h, other) == Log(pages, h, other)
  {
    ChainKept(pages, pages[p := page], h, other);
  }

  /** A fresh head page in front of the chain adds no events. */
  lemma NewHead(pages: seq<DirPage>, h: nat, dir: nat, h': nat)
    requires ChainOk(pages, h, dir) && h < h' < |pages|
    ensures var pages' := pages[h' := FreshPage(dir, h)];
            ChainOk(pages', h', dir) && Log(pages', h', dir) == if h == 0 then [] else Log(pages, h, dir)
  {
    ChainKept(pages, pages[h' := FreshPage(dir, h)], h, dir);
  }

  // ── the latest event per name ──

  function UpTo(log: seq<Dent>, cutoff: nat): seq<Dent> {
    if log == [] then []
    else UpTo(log[..|log| - 1], cutoff) + if log[|log| - 1].version <= cutoff then [log[|log| - 1]] else []
  }

  lemma {:induction false} UpToAppend(a: seq<Dent>, b: seq<Dent>, cutoff: nat)
    ensures UpTo(a + b, cutoff) == UpTo(a, cutoff) + UpTo(b, cutoff)
  {
    if b == [] {
      assert a + b == a;
    } else {
      UpToAppend(a, b[..|b| - 1], cutoff);
      assert (a + b)[..|a + b| - 1] == a + b[..|b| - 1];
    }
  }

  lemma UpToEmpty(cutoff: nat)
    ensures UpTo([], cutoff) == []
  {}

  ghost function Elems(s: seq<Dent>): set<Dent> {
    set d | d in s
  }

  /** `latest` holds, for exactly the names in `evs`, an event of highest version. */
  ghost predicate Latest(latest: map<string, Dent>, evs: set<Dent>) {
    && (forall n :: n in latest ==> latest[n] in evs && latest[n].name == n)
    && (forall e :: e in evs ==> e.name in latest && e.version <= latest[e.name].version)
  }

  lemma {:induction false} BytesPrefix(recs: seq<Dent>, k: nat)
    requires k <= |recs|
    ensures Bytes(recs[..k]) <= Bytes(recs)
    ensures k < |recs| ==> Bytes(recs[..k]) + RecordSize(recs[k]) <= Bytes(recs)
  {
    var n := |recs| - 1;
    if k == |recs| {
      assert recs[..k] == recs;
    } else if k < n {
      BytesPrefix(recs[..n], k);
      assert recs[..n][..k] == recs[..k];
    }
  }

  /** The record walk of one page, with its bounds and corruption checks; it meets every
      record and reports those up to the cutoff in page order. */
  method ReadRecords(page: DirPage, cutoff: nat) returns (out: seq<Dent>)
    requires PageOk(page)
    ensures out == UpTo(page.recs, cutoff)
  {
    var pos, seen := 0, 0;
    out := [];
    assert page.recs[..0] == [];
    while pos + RECORD_HEADER <= page.used && seen < page.count
      invariant seen <= |page.recs| && pos == Bytes(page.recs[..seen])
      invariant out == UpTo(page.recs[..seen], cutoff)
      decreases |page.recs| - seen
    {
      var rec := page.recs[seen];
      var reclen := RecordSize(rec);
      BytesPrefix(page.recs, seen);
      if reclen < RECORD_HEADER || pos + reclen > page.used {
        break;
      }
      assert page.recs[..seen + 1][..seen] == page.recs[..seen];
      if rec.version <= cutoff {
        out := out + [rec];
      }
      pos, seen := pos + reclen, seen + 1;
    }
    BytesPrefix(page.recs, seen);
    assert page.recs[..|page.recs|] == page.recs;
  }

  /** The update of `latest` for one page's records. */
  method MergeLatest(evs: seq<Dent>, latest: map<string, Dent>, ghost before: set<Dent>) returns (r: map<string, Dent>)
    requires Latest(latest, before)
    ensures Latest(r, before + Elems(evs))
  {
    r := latest;
    for i := 0 to |evs|
      invariant Latest(r, before + Elems(evs[..i]))
    {
      var e := evs[i];
      ghost var s := before + Elems(evs[..i]);
      assert evs[..i + 1] == evs[..i] + [e];
      assert before + Elems(evs[..i + 1]) == s + {e};
      if e.name !in r || r[e.name].version < e.version {
        r := r[e.name := e];
      }
    }
    assert evs[..|evs|] == evs;
  }

  class DentRegion {
    const cache: PageCache<DirPage>
    var allocPos: nat
    var dirIndex: map<nat, nat>

    ghost predicate Valid()
      reads this, cache, cache.pool, cache.pageSlots
    {
      && cache.Valid()
      && 0 < allocPos <= |cache.flash|
      && (forall d :: d in dirIndex ==> 0 < dirIndex[d] < allocPos && ChainOk(cache.Pages(), dirIndex[d], d))
      && (forall p :: allocPos <= p < cache.pageSlots.Length ==> cache.pageSlots[p] == NIL)
    }

    /** The events appended for a directory so far. */
    ghost function Events(d: nat): seq<Dent>
      reads this, cache, cache.pool, cache.pageSlots
      requires Valid()
    {
      if d in dirIndex then Log(cache.Pages(), dirIndex[d], d) else []
    }

    constructor (frames: nat, disk: seq<DirPage>, blank: DirPage)
      requires frames > 0 && |disk| > 0
      ensures Valid() && forall d :: Events(d) == []
    {
      cache := new PageCache(frames, disk, blank);
      allocPos := 1;
      dirIndex := map[];
    }

    /** Only directory `d` gained events, namely `evs`. */
    twostate predicate Gained(d: nat, evs: seq<Dent>)
      reads this, cache, cache.pool, cache.pageSlots
      requires old(Valid()) && Valid()
    {
      && Events(d) == old(Events(d)) + evs
      && forall e :: e != d ==> Events(e) == old(Events(e))
    }

    /** GetOrCreateHeadPage and the new-head branch of AppendEntries. */
    method PushHead(d: nat) returns (idx: int)
      requires Valid() && allocPos < |cache.flash|
      modifies this, cache, cache.pool, cache.pageSlots
      ensures Valid() && d in dirIndex && allocPos == old(allocPos) + 1 && |cache.flash| == old(|cache.flash|)
      ensures Gained(d, []) && OnHead(d, idx) && cache.Pages()[dirIndex[d]].used == 0
    {
      hide Linked, Chained, Partition, Indexed, View, PageOk, Log;
      cache.Sizes();
      var h := if d in dirIndex then dirIndex[d] else 0;
      ghost var pages := cache.Pages();
      var p := allocPos;
      allocPos := allocPos + 1;
      idx := cache.LoadFresh(p, FreshPage(d, h));
      cache.Sizes();
      dirIndex := dirIndex[d := p];
      NewHead(pages, h, d, p);
      forall e | e in old(dirIndex) && e != d
        ensures ChainOk(cache.Pages(), dirIndex[e], e) && Log(cache.Pages(), dirIndex[e], e) == Log(pages, dirIndex[e], e)
      {
        ChainKept(pages, cache.Pages(), dirIndex[e], e);
      }
    }

    /** Frame `idx` caches the head page of directory `d`. */
    ghost predicate OnHead(d: nat, idx: int)
      reads this, cache, cache.pool, cache.pageSlots
      requires Valid()
    {
      d in dirIndex && 0 <= idx < cache.pool.Length && cache.pageSlots[dirIndex[d]] == idx
    }

    /** Append one record to the head page that frame `idx` caches, which has room for it. */
    method AppendRecord(d: nat, idx: int, e: Dent)
      requires Valid() && OnHead(d, idx) && HasSpace(cache.pool[idx].page, RecordSize(e))
      modifies cache.pool
      ensures Valid() && OnHead(d, idx)
      ensures Gained(d, [e])
    {
      hide Linked, Chained, Partition, Indexed, View, PageOk, Log, HasSpace, WithRecord;
      ghost var pages, h := cache.Pages(), dirIndex[d];
      cache.Sizes();
      cache.PageAt(h);
      var page := cache.pool[idx].page;
      AppendInPage(pages, h, d, e);
      cache.Store(idx, WithRecord(page, e), h);
      cache.Sizes();
      forall x | x in dirIndex && x != d
        ensures ChainOk(cache.Pages(), dirIndex[x], x) && Log(cache.Pages(), dirIndex[x], x) == Log(pages, dirIndex[x], x)
      {
        OtherPages(pages, h, d, WithRecord(page, e), dirIndex[x], x);
      }
    }

    /** The frame of the directory's head page, created if it has none. */
    method HeadFrame(d: nat) returns (idx: int)
      requires Valid() && allocPos < |cache.flash|
      modifies this, cache, cache.pool, cache.pageSlots
      ensures Valid() && OnHead(d, idx) && Gained(d, [])
      ensures allocPos <= old(allocPos) + 1 && |cache.flash| == old(|cache.flash|)
    {
      hide Linked, Chained, Partition, Indexed, View, PageOk, Log, ChainOk;
      cache.Sizes();
      if d !in dirIndex {
        idx := PushHead(d);
      } else {
        idx := cache.LoadPage(dirIndex[d]);
        cache.Sizes();
      }
    }

    /** One iteration of AppendEntries: a new head page if the record does not fit, then the record. */
    method AppendOne(d: nat, at: int, e: Dent) returns (idx: int)
      requires Valid() && OnHead(d, at) && allocPos < |cache.flash| && |e.name| <= NAME_MAX
      modifies this, cache, cache.pool, cache.pageSlots
      ensures Valid() && OnHead(d, idx) && Gained(d, [e])
      ensures allocPos <= old(allocPos) + 1 && |cache.flash| == old(|cache.flash|)
    {
      hide Linked, Chained, Partition, Indexed, View, PageOk, Log, ChainOk;
      idx := at;
      if !HasSpace(cache.pool[idx].page, RecordSize(e)) {
        idx := PushHead(d);
        cache.Sizes();
        cache.PageAt(dirIndex[d]);
      }
      AppendRecord(d, idx, e);
    }

    /** AppendEntries: every event goes, in order, to the end of the directory's log. */
    method AppendEntries(d: nat, entries: seq<Dent>)
      requires Valid() && allocPos + |entries| < |cache.flash|
      requires forall i :: 0 <= i < |entries| ==> |entries[i].name| <= NAME_MAX
      modifies this, cache, cache.pool, cache.pageSlots
      ensures Valid() && Gained(d, entries)
      ensures allocPos <= old(allocPos) + |entries| + 1 && |cache.flash| == old(|cache.flash|)
    {
      hide Linked, Chained, Partition, Indexed, View, PageOk, Log, ChainOk, OnHead;
      if entries == [] {
        return;
      }
      var idx := HeadFrame(d);
      for i := 0 to |entries|
        invariant Valid() && OnHead(d, idx)
        invariant Gained(d, entries[..i])
        invariant allocPos + |entries| - i <= |cache.flash| && allocPos <= old(allocPos) + 1 + i && |cache.flash| == old(|cache.flash|)
      {
        idx := AppendOne(d, idx, entries[i]);
        assert entries[..i + 1] == entries[..i] + [entries[i]];
      }
      assert entries[..|entries|] == entries;
    }

    /** ReadDirLatestFlat: every event of the directory up to the cutoff, each exactly as often
        as it was appended. */
    method ReadDirLatestFlat(d: nat, cutoff: nat) returns (out: seq<Dent>)
      requires Valid()
      ensures multiset(out) == multiset(UpTo(Events(d), cutoff))
    {
      hide Linked, Chained, Partition, Indexed, View, PageOk, UpTo;
      out := [];
      UpToEmpty(cutoff);
      if d !in dirIndex {
        return;
      }
      ghost var pages := cache.Pages();
      var h := dirIndex[d];
      while h != 0
        invariant ChainOk(pages, h, d)
        invariant multiset(out) + multiset(UpTo(Log(pages, h, d), cutoff)) == multiset(UpTo(Events(d), cutoff))
        decreases h
      {
        cache.Sizes();
        var page := cache.ReadPage(h);
        var recs := ReadRecords(page, cutoff);
        UpToAppend(Log(pages, page.next, d), page.recs, cutoff);
        out := out + recs;
        h := page.next;
      }
    }

    /** ReadDirLatest: the highest-version event of every name under the cutoff. */
    method ReadDirLatest(d: nat, cutoff: nat) returns (latest: map<string, Dent>)
      requires Valid()
      ensures Latest(latest, Elems(UpTo(Events(d), cutoff)))
    {
      hide Linked, Chained, Partition, Indexed, View, PageOk, UpTo;
      latest := map[];
      UpToEmpty(cutoff);
      if d !in dirIndex {
        return;
      }
      ghost var pages, seen := cache.Pages(), {};
      var h := dirIndex[d];
      while h != 0
        invariant ChainOk(pages, h, d) && Latest(latest, seen)
        invariant seen + Elems(UpTo(Log(pages, h, d), cutoff)) == Elems(UpTo(Events(d), cutoff))
        decreases h
      {
        cache.Sizes();
        var page := cache.ReadPage(h);
        var recs := ReadRecords(page, cutoff);
        UpToAppend(Log(pages, page.next, d), page.recs, cutoff);
        latest := MergeLatest(recs, latest, seen);
        seen := seen + Elems(recs);
        h := page.next;
      }
    }

    /** FlushDirty: afterwards every chain is intact on flash alone. */
    method FlushDirty()
      requires Valid()
      modifies cache, cache.pool
      ensures Valid() && |cache.flash| == old(|cache.flash|) && forall d :: Events(d) == old(Events(d))
      ensures forall d :: d in dirIndex ==> ChainOk(cache.flash, dirIndex[d], d) && Log(cache.flash, dirIndex[d], d) == Events(d)
    {
      hide Linked, Chained, Partition, Indexed, View, PageOk, Log, ChainOk;
      cache.Sizes();
      cache.FlushDirty();
      cache.Sizes();
    }
  }
}
