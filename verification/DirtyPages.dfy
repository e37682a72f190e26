/** Bit strings and how many bits are set in them. */
module Bits {
  function Pop(s: seq<bool>): (n: nat)
    ensures n <= |s|
  {
    if s == [] then 0 else Pop(s[..|s| - 1]) + if s[|s| - 1] then 1 else 0
  }

  lemma {:induction false} PopConcat(a: seq<bool>, b: seq<bool>)
    ensures Pop(a + b) == Pop(a) + Pop(b)
  {
    if b == [] {
      assert a + b == a;
    } else {
      var c := b[..|b| - 1];
      assert (a + b)[..|a + b| - 1] == a + c;
      PopConcat(a, c);
    }
  }

  lemma PopUpdate(s: seq<bool>, i: nat, v: bool)
    requires i < |s| && s[i] != v
    ensures Pop(s[i := v]) == if v then Pop(s) + 1 else Pop(s) - 1
  {
    var a, b := s[..i], s[i + 1..];
    PopConcat(a, [s[i]]);
    PopConcat(a + [s[i]], b);
    PopConcat(a, [v]);
    PopConcat(a + [v], b);
    assert s == a + [s[i]] + b && s[i := v] == a + [v] + b;
  }

  lemma {:induction false} PopNone(s: seq<bool>)
    ensures Pop(s) == 0 <==> forall i :: 0 <= i < |s| ==> !s[i]
  {
    if s != [] { PopNone(s[..|s| - 1]); }
  }

  /** Two strings that differ from lo to hi only, where the first has no bit set and the second all. */
  lemma {:induction false} PopRange(s: seq<bool>, t: seq<bool>, lo: nat, hi: nat)
    requires lo <= hi <= |s| == |t|
    requires forall i :: 0 <= i < |s| ==> t[i] == (s[i] || lo <= i < hi)
    requires forall i :: lo <= i < hi ==> !s[i]
    ensures Pop(t) == Pop(s) + hi - lo
    decreases hi - lo
  {
    if lo == hi {
      assert s == t;
    } else {
      var u := s[lo := true];
      PopUpdate(s, lo, true);
      PopRange(u, t, lo + 1, hi);
    }
  }
}

/** The migration bitmap and the dirty log it is filled from (arch_init.c). */
module DirtyPages {
  import opened Bits
  import opened RamStream

  const BITS_PER_LONG: nat := 64

  predicate InBlock(b: Block, p: nat) { b.base <= p < b.base + b.len }

  ghost predicate Used(blocks: seq<Block>, p: nat) {
    exists b :: 0 <= b < |blocks| && InBlock(blocks[b], p)
  }

  /** The bits of pages that belong to a block. */
  ghost function InUse(blocks: seq<Block>, bits: seq<bool>): (r: seq<bool>)
    ensures |r| == |bits|
  {
    seq(|bits|, p requires 0 <= p < |bits| => bits[p] && Used(blocks, p))
  }

  function TotalPages(blocks: seq<Block>): nat {
    if blocks == [] then 0 else TotalPages(blocks[..|blocks| - 1]) + blocks[|blocks| - 1].len
  }

  /** No bit of block b is set from page lo up to page hi. */
  ghost predicate ClearIn(bits: seq<bool>, b: Block, lo: nat, hi: nat)
    requires b.base + hi <= |bits|
  {
    forall p :: b.base + lo <= p < b.base + hi ==> !bits[p]
  }

  ghost predicate NoneDirty(blocks: seq<Block>, bits: seq<bool>) {
    forall p :: 0 <= p < |bits| && bits[p] ==> !Used(blocks, p)
  }

  /** A bitmap with all bits set has as many in use as the blocks have pages. */
  lemma {:induction false} AllSet(blocks: seq<Block>, bits: seq<bool>)
    requires BlocksOk(blocks, |bits|) && forall p :: 0 <= p < |bits| ==> bits[p]
    ensures Pop(InUse(blocks, bits)) == TotalPages(blocks)
  {
    if blocks == [] {
      PopNone(InUse(blocks, bits));
    } else {
      var n := |blocks| - 1;
      var front, b := blocks[..n], blocks[n];
      AllSet(front, bits);
      hide Used, Pop;
      var s, t := InUse(front, bits), InUse(blocks, bits);
      forall p | 0 <= p < |bits|
        ensures t[p] == (s[p] || b.base <= p < b.base + b.len)
        ensures b.base <= p < b.base + b.len ==> !s[p]
      {
        UsedFront(blocks, |bits|, p);
      }
      PopRange(s, t, b.base, b.base + b.len);
    }
  }

  lemma UsedFront(blocks: seq<Block>, total: nat, p: nat)
    requires BlocksOk(blocks, total) && blocks != []
    ensures Used(blocks, p) <==> Used(blocks[..|blocks| - 1], p) || InBlock(blocks[|blocks| - 1], p)
    ensures InBlock(blocks[|blocks| - 1], p) ==> !Used(blocks[..|blocks| - 1], p)
  {
    var front := blocks[..|blocks| - 1];
    if Used(blocks, p) {
      var b :| 0 <= b < |blocks| && InBlock(blocks[b], p);
      if b < |front| { assert front[b] == blocks[b]; }
    }
    if Used(front, p) {
      var b :| 0 <= b < |front| && InBlock(front[b], p);
      assert blocks[b] == front[b];
    }
  }

  /** The words of the bitmap from lo to hi or-ed with those of the log. */
  function Merge(bits: seq<bool>, log: seq<bool>, lo: nat, hi: nat): seq<bool>
    requires |bits| == |log|
  {
    seq(|bits|, p requires 0 <= p < |bits| => bits[p] || (lo <= p < hi && log[p]))
  }

  function Reset(log: seq<bool>, lo: nat, hi: nat): seq<bool> {
    seq(|log|, p requires 0 <= p < |log| => log[p] && !(lo <= p < hi))
  }

  /** The bits of the log that the bitmap does not have yet. */
  function NewDirty(bits: seq<bool>, log: seq<bool>, lo: nat, hi: nat): seq<bool>
    requires |bits| == |log| && lo <= hi <= |bits|
  {
    seq(hi - lo, i requires 0 <= i < hi - lo => log[lo + i] && !bits[lo + i])
  }

  /** Adding the population count of the new bits keeps count of the dirty pages. */
  lemma {:induction false} WordCount(blocks: seq<Block>, bits: seq<bool>, log: seq<bool>, lo: nat, hi: nat)
    requires |bits| == |log| && lo <= hi <= |bits|
    requires forall p :: 0 <= p < |log| && log[p] ==> Used(blocks, p)
    ensures Pop(InUse(blocks, Merge(bits, log, lo, hi))) == Pop(InUse(blocks, bits)) + Pop(NewDirty(bits, log, lo, hi))
    decreases hi - lo
  {
    hide Pop, InUse, Merge, NewDirty, Used;
    if lo == hi {
      NoMoreBits(bits, log, lo);
    } else {
      var h := hi - 1;
      WordCount(blocks, bits, log, lo, h);
      OneMoreBit(bits, log, lo, h);
      if log[h] && !bits[h] { FlipBit(blocks, Merge(bits, log, lo, h), h, true); }
    }
  }

  lemma NoMoreBits(bits: seq<bool>, log: seq<bool>, lo: nat)
    requires |bits| == |log| && lo <= |bits|
    ensures Merge(bits, log, lo, lo) == bits && Pop(NewDirty(bits, log, lo, lo)) == 0
  {
    assert Merge(bits, log, lo, lo) == bits && NewDirty(bits, log, lo, lo) == [];
  }

  lemma OneMoreBit(bits: seq<bool>, log: seq<bool>, lo: nat, h: nat)
    requires |bits| == |log| && lo <= h < |bits|
    ensures Pop(NewDirty(bits, log, lo, h + 1)) == Pop(NewDirty(bits, log, lo, h)) + if log[h] && !bits[h] then 1 else 0
    ensures h < |Merge(bits, log, lo, h)| && Merge(bits, log, lo, h)[h] == bits[h]
    ensures Merge(bits, log, lo, h + 1) == if log[h] && !bits[h] then Merge(bits, log, lo, h)[h := true]
      else Merge(bits, log, lo, h)
  {
    assert NewDirty(bits, log, lo, h + 1)[..h - lo] == NewDirty(bits, log, lo, h);
    assert NewDirty(bits, log, lo, h + 1)[h - lo] == (log[h] && !bits[h]);
  }

  lemma FlipBit(blocks: seq<Block>, bits: seq<bool>, p: nat, v: bool)
    requires p < |bits| && Used(blocks, p) && bits[p] != v
    ensures Pop(InUse(blocks, bits[p := v])) == Pop(InUse(blocks, bits)) + if v then 1 else -1
  {
    PopUpdate(InUse(blocks, bits), p, v);
    assert InUse(blocks, bits[p := v]) == InUse(blocks, bits)[p := v];
  }

  class DirtyBitmap {
    const blocks: seq<Block>
    var bits: seq<bool>
    var log: seq<bool>
    var pages: int

    ghost predicate Valid()
      reads this
    {
      && |bits| == |log| && BlocksOk(blocks, |bits|)
      && (forall p :: 0 <= p < |log| && log[p] ==> Used(blocks, p))
      && pages == Pop(InUse(blocks, bits))
    }

    /** ram_save_setup: every page starts dirty. */
    constructor (blocks: seq<Block>, total: nat)
      requires BlocksOk(blocks, total)
      ensures Valid() && this.blocks == blocks && |bits| == total
      ensures forall p :: 0 <= p < total ==> bits[p] && !log[p]
    {
      this.blocks := blocks;
      bits := seq(total, _ => true);
      log := seq(total, _ => false);
      pages := TotalPages(blocks);
      new;
      AllSet(blocks, bits);
    }

    /** find_next_bit. */
    method FindNextBit(size: nat, start: nat) returns (next: nat)
      requires start <= size <= |bits|
      ensures start <= next <= size && (next < size ==> bits[next])
      ensures forall p :: start <= p < next ==> !bits[p]
    {
      next := start;
      while next < size && !bits[next]
        invariant start <= next <= size && forall p :: start <= p < next ==> !bits[p]
      {
        next := next + 1;
      }
    }

    /** migration_bitmap_find_and_reset_dirty. In the bulk stage the page after the last one is
        taken without looking, so it must be dirty. */
    method FindAndResetDirty(bulk: bool, b: nat, start: nat) returns (offset: nat)
      requires Valid() && b < |blocks| && start <= blocks[b].len
      requires bulk && 0 < start && start + 1 < blocks[b].len ==> bits[blocks[b].base + start + 1]
      modifies this
      ensures Valid() && log == old(log)
      ensures if bulk && start > 0 then offset == start + 1
        else start <= offset <= blocks[b].len && ClearIn(old(bits), blocks[b], start, offset)
      ensures offset < blocks[b].len ==> old(bits)[blocks[b].base + offset]
      ensures bits == if offset < blocks[b].len then old(bits)[blocks[b].base + offset := false] else old(bits)
      ensures pages == if offset < blocks[b].len then old(pages) - 1 else old(pages)
    {
      var base, size := blocks[b].base, blocks[b].base + blocks[b].len;
      var nr, next := base + start, 0;
      if bulk && nr > base {
        next := nr + 1;
      } else {
        next := FindNextBit(size, nr);
      }
      if next < size {
        assert InBlock(blocks[b], next);
        FlipBit(blocks, bits, next, false);
        bits := bits[next := false];
        pages := pages - 1;
      }
      offset := next - base;
    }

    /** A guest write marks the page in the log. */
    method Log(p: nat)
      requires Valid() && p < |log| && Used(blocks, p)
      modifies this
      ensures Valid() && bits == old(bits) && log == old(log)[p := true]
    {
      log := log[p := true];
    }

    /** migration_bitmap_set_dirty. */
    method SetDirty(p: nat) returns (was: bool)
      requires Valid() && p < |bits| && Used(blocks, p)
      modifies this
      ensures Valid() && log == old(log) && bits == old(bits)[p := true] && was == old(bits)[p]
    {
      was := bits[p];
      if !was {
        FlipBit(blocks, bits, p, true);
        pages := pages + 1;
      } else {
        assert bits[p := true] == bits;
      }
      bits := bits[p := true];
    }

    /** The log's bits from lo to hi have moved into the bitmap. */
    ghost predicate Moved(bits0: seq<bool>, log0: seq<bool>, lo: nat, hi: nat)
      requires |bits0| == |log0|
      reads this
    {
      && |bits| == |bits0| && |log| == |log0|
      && (forall p :: 0 <= p < |bits| ==> bits[p] == (bits0[p] || (lo <= p < hi && log0[p])))
      && (forall p :: 0 <= p < |log| ==> log[p] == (log0[p] && !(lo <= p < hi)))
    }

    /** One long of the word path of migration_bitmap_sync_range. */
    method SyncWord(lo: nat, hi: nat)
      requires Valid() && lo <= hi <= |bits|
      modifies this
      ensures Valid() && Moved(old(bits), old(log), lo, hi)
    {
      if exists p :: lo <= p < hi && log[p] {
        WordCount(blocks, bits, log, lo, hi);
        pages := pages + Pop(NewDirty(bits, log, lo, hi));
        bits := Merge(bits, log, lo, hi);
        log := Reset(log, lo, hi);
      }
    }

    /** migration_bitmap_sync_range: every logged page of the range is moved to the bitmap,
        whether by words or page by page. The word path may go on to the end of its last word. */
    method SyncRange(start: nat, length: nat) returns (ghost end: nat)
      requires Valid() && start + length <= |bits|
      requires forall p :: start <= p < start + length ==> Used(blocks, p)
      modifies this
      ensures Valid() && start + length <= end <= |bits|
      ensures Moved(old(bits), old(log), start, end)
    {
      var k := start / BITS_PER_LONG;
      if k * BITS_PER_LONG == start {
        var lo := start;
        while lo < start + length
          invariant start <= lo <= |bits| && Valid()
          invariant Moved(old(bits), old(log), start, lo)
        {
          var hi := if lo + BITS_PER_LONG <= |bits| then lo + BITS_PER_LONG else |bits|;
          SyncWord(lo, hi);
          lo := hi;
        }
        end := lo;
      } else {
        var p := start;
        while p < start + length
          invariant start <= p <= start + length <= |bits| && Valid()
          invariant Moved(old(bits), old(log), start, p)
        {
          if log[p] {
            log := log[p := false];
            var _ := SetDirty(p);
          }
          p := p + 1;
        }
        end := p;
      }
    }

    /** migration_bitmap_sync: the whole log is moved to the bitmap. */
    method Sync()
      requires Valid()
      modifies this
      ensures Valid() && Moved(old(bits), old(log), 0, |bits|)
    {
      var b := 0;
      while b < |blocks|
        invariant 0 <= b <= |blocks| && Valid() && |bits| == old(|bits|)
        invariant forall p :: 0 <= p < |bits| ==> (bits[p] || log[p] <==> old(bits)[p] || old(log)[p])
        invariant forall c, p :: 0 <= c < b && 0 <= p < |log| && InBlock(blocks[c], p) ==> !log[p]
      {
        ghost var _ := SyncRange(blocks[b].base, blocks[b].len);
        b := b + 1;
      }
    }
  }
}
