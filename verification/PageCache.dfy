/** The direct-mapped page cache of page_cache.c. */
module PageCaches {
  const CACHED_PAGE_LIFETIME: nat := 2

  datatype CacheItem<T> = Empty | Item(addr: nat, age: nat, data: T)

  /** After an insertion: the page is there, and nothing else is that was not. */
  ghost predicate Inserted<T>(before: map<nat, T>, after: map<nat, T>, addr: nat, data: T) {
    && addr in after && after[addr] == data
    && forall a :: a in after && a != addr ==> a in before && after[a] == before[a]
  }

  // Addresses are page numbers: cache_get_cache_pos divides by the page size first.
  class PageCache<T> {
    var items: seq<CacheItem<T>>
    ghost var view: map<nat, T>         // the cached pages by address

    ghost predicate Valid()
      reads this
    {
      && |items| > 0
      && (forall i :: 0 <= i < |items| && items[i].Item? ==> Pos(items[i].addr) == i && items[i].addr in view)
      && (forall a :: a in view ==> Has(a) && view[a] == items[Pos(a)].data)
    }

    /** cache_get_cache_pos; the number of items is a power of two. */
    function Pos(addr: nat): (pos: nat)
      requires |items| > 0
      reads this
      ensures pos < |items|
    {
      addr % |items|
    }

    predicate Has(addr: nat)
      requires |items| > 0
      reads this
    {
      items[Pos(addr)].Item? && items[Pos(addr)].addr == addr
    }

    /** The slot is the page's own, or free and memory is to be had, or its page is old enough. */
    predicate Admits(addr: nat, age: nat, memory: bool)
      requires |items| > 0
      reads this
    {
      match items[Pos(addr)]
      case Empty => memory
      case Item(a, g, _) => a == addr || g + CACHED_PAGE_LIFETIME <= age
    }

    constructor (n: nat)
      requires n > 0
      ensures Valid() && view == map[]
    {
      items := seq(n, _ => Empty);
      view := map[];
    }

    /** cache_is_cached: a hit refreshes the item's age. */
    method IsCached(addr: nat, age: nat) returns (hit: bool)
      requires Valid()
      modifies this
      ensures Valid() && view == old(view) && (hit <==> addr in view)
      ensures |items| == old(|items|) && forall i :: 0 <= i < |items| && i != Pos(addr) ==> items[i] == old(items)[i]
      ensures if hit then items[Pos(addr)] == Item(addr, age, view[addr]) else items == old(items)
    {
      hit := Has(addr);
      if hit {
        items := items[Pos(addr) := items[Pos(addr)].(age := age)];
      }
    }

    /** get_cached_data. */
    method Get(addr: nat) returns (data: T)
      requires Valid() && addr in view
      ensures data == view[addr]
    {
      data := items[Pos(addr)].data;
    }

    /** Copying into the page get_cached_data returned. */
    method Overwrite(addr: nat, data: T)
      requires Valid() && addr in view
      modifies this
      ensures Valid() && view == old(view)[addr := data]
      ensures |items| == old(|items|) && forall i :: 0 <= i < |items| && i != Pos(addr) ==> items[i] == old(items)[i]
      ensures old(items)[Pos(addr)].Item? && items[Pos(addr)] == Item(addr, old(items)[Pos(addr)].age, data)
    {
      items := items[Pos(addr) := items[Pos(addr)].(data := data)];
      view := view[addr := data];
    }

    /** cache_insert: a page that is already cached is always replaced; another page gives way
        only when it is old enough. `memory` says whether an allocation would succeed. */
    method Insert(addr: nat, data: T, age: nat, memory: bool) returns (ok: bool)
      requires Valid()
      modifies this
      ensures Valid() && (ok <==> old(Admits(addr, age, memory)))
      ensures ok ==> Inserted(old(view), view, addr, data)
      ensures !ok ==> view == old(view) && addr !in view
      ensures |items| == old(|items|) && forall i :: 0 <= i < |items| && i != Pos(addr) ==> items[i] == old(items)[i]
      ensures items[Pos(addr)] == if ok then Item(addr, age, data) else old(items)[Pos(addr)]
      ensures forall a :: a in old(view) && Pos(a) != Pos(addr) ==> a in view && view[a] == old(view)[a]
    {
      var pos := Pos(addr);
      var it := items[pos];
      if it.Item? && it.addr != addr && it.age + CACHED_PAGE_LIFETIME > age {
        return false;
      }
      if it.Empty? && !memory {
        return false;
      }
      if it.Item? {
        view := view - {it.addr};
      }
      items := items[pos := Item(addr, age, data)];
      view := view[addr := data];
      ok := true;
    }
  }
}
