/** SSDInodeRegion: the persisted inode array, cached page by page. */
module InodeRegions {
  import opened PageCaches

  type uint32 = n: int | 0 <= n < 0x1_0000_0000

  datatype Inode = Inode(id: nat, nlink: nat, mode: uint32, extra: uint32, uid: nat, gid: nat, atime: nat, mtime: nat, ctime: nat)

  /** An unwritten slot: id_ == 0. */
  const ZERO_INODE := Inode(0, 0, 0, 0, 0, 0, 0, 0, 0)

  const PER_PAGE: nat := 32
  type InodePage = p: seq<Inode> | |p| == PER_PAGE witness seq(PER_PAGE, i => ZERO_INODE)

  /** Page and in-page slot of a region slot. */
  function PageOf(slot: nat): nat { slot / PER_PAGE }
  function InPage(slot: nat): nat { slot % PER_PAGE }

  ghost function Flat(pages: seq<InodePage>): seq<Inode> {
    seq(PER_PAGE * |pages|, n requires 0 <= n < PER_PAGE * |pages| => pages[PageOf(n)][InPage(n)])
  }

  /** Changing one slot of one page changes exactly that slot of the flat array. */
  lemma FlatSet(pages: seq<InodePage>, slot: nat, x: Inode)
    requires slot < PER_PAGE * |pages|
    ensures Flat(pages[PageOf(slot) := pages[PageOf(slot)][InPage(slot) := x]]) == Flat(pages)[slot := x]
  {
    var pages' := pages[PageOf(slot) := pages[PageOf(slot)][InPage(slot) := x]];
    forall n | 0 <= n < PER_PAGE * |pages|
      ensures Flat(pages')[n] == Flat(pages)[slot := x][n]
    {
      assert n == PER_PAGE * PageOf(n) + InPage(n) && slot == PER_PAGE * PageOf(slot) + InPage(slot);
    }
  }

  class InodeRegion {
    const cache: PageCache<InodePage>

    ghost predicate Valid()
      reads this, cache, cache.pool, cache.pageSlots
    {
      cache.Valid() && |cache.flash| > 0
    }

    /** max_inodes_ */
    function MaxInodes(): nat
      reads cache
    {
      PER_PAGE * |cache.flash|
    }

    /** The region as a flat array of slots, whether cached or on flash. */
    ghost function Slots(): (s: seq<Inode>)
      requires Valid()
      reads this, cache, cache.pool, cache.pageSlots
      ensures |s| == MaxInodes()
    {
      Flat(cache.Pages())
    }

    constructor (frames: nat, disk: seq<InodePage>)
      requires frames > 0 && |disk| > 0
      ensures Valid() && cache.flash == disk && cache.Pages() == disk && fresh(cache) && fresh(cache.pool) && fresh(cache.pageSlots)
    {
      cache := new PageCache(frames, disk, seq(PER_PAGE, i => ZERO_INODE));
    }

    method WriteInode(id: nat, inode: Inode)
      requires Valid()
      modifies cache, cache.pool, cache.pageSlots
      ensures Valid() && MaxInodes() == old(MaxInodes())
      ensures Slots() == old(Slots())[id % MaxInodes() := inode]
    {
      var slot := id % MaxInodes();
      var p := PageOf(slot);
      var idx := cache.LoadPage(p);
      cache.PageAt(p);
      FlatSet(cache.Pages(), slot, inode);
      cache.Store(idx, cache.pool[idx].page[InPage(slot) := inode], p);
    }

    method ReadInode(id: nat) returns (inode: Inode)
      requires Valid()
      modifies cache, cache.pool, cache.pageSlots
      ensures Valid() && MaxInodes() == old(MaxInodes())
      ensures Slots() == old(Slots()) && inode == Slots()[id % MaxInodes()]
    {
      var slot := id % MaxInodes();
      var idx := cache.LoadPage(PageOf(slot));
      cache.PageAt(PageOf(slot));
      inode := cache.pool[idx].page[InPage(slot)];
    }

    /** MutateInode: false, with nothing changed, if the slot is empty. */
    method MutateInode(id: nat, f: Inode -> Inode) returns (ok: bool)
      requires Valid()
      modifies cache, cache.pool, cache.pageSlots
      ensures Valid() && MaxInodes() == old(MaxInodes())
      ensures var n := id % MaxInodes();
              && ok == (old(Slots())[n].id != 0)
              && Slots() == if ok then old(Slots())[n := f(old(Slots())[n])] else old(Slots())
    {
      var slot := id % MaxInodes();
      var p := PageOf(slot);
      var idx := cache.LoadPage(p);
      cache.PageAt(p);
      var inode := cache.pool[idx].page[InPage(slot)];
      if inode.id == 0 {
        return false;
      }
      FlatSet(cache.Pages(), slot, f(inode));
      cache.Store(idx, cache.pool[idx].page[InPage(slot) := f(inode)], p);
      return true;
    }

    /** FlushDirty: flash alone now holds the abstract array. */
    method FlushDirty()
      requires Valid()
      modifies cache, cache.pool
      ensures Valid() && MaxInodes() == old(MaxInodes())
      ensures Slots() == old(Slots()) == Flat(cache.flash)
    {
      cache.FlushDirty();
    }
  }
}
