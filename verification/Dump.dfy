/** What a guest memory dump stores of the physical blocks, and where. */
module DumpLayout {
  import opened LongWords

  // A GuestPhysBlock: guest physical addresses from `start` to `end`, in host memory.
  datatype PhysBlock = PhysBlock(start: nat, end: nat, host: Bytes)

  datatype Filter = NoFilter | Range(begin: nat, length: nat)

  predicate BlockOk(b: PhysBlock) { b.start <= b.end && |b.host| == b.end - b.start }

  predicate Outside(b: PhysBlock, f: Filter) {
    f.Range? && (b.start >= f.begin + f.length || b.end <= f.begin)
  }

  function ClipStart(b: PhysBlock, f: Filter): nat {
    if f.Range? && f.begin > b.start then f.begin else b.start
  }

  function ClipEnd(b: PhysBlock, f: Filter): nat {
    if f.Range? && f.begin + f.length < b.end then f.begin + f.length else b.end
  }

  /** The part of a block inside the filter. */
  function Piece(b: PhysBlock, f: Filter): (p: Bytes)
    requires BlockOk(b)
    ensures |p| == if Outside(b, f) then 0 else ClipEnd(b, f) - ClipStart(b, f)
  {
    if Outside(b, f) then [] else b.host[ClipStart(b, f) - b.start..ClipEnd(b, f) - b.start]
  }

  predicate Contains(b: PhysBlock, f: Filter, addr: nat) {
    !Outside(b, f) && ClipStart(b, f) <= addr < ClipEnd(b, f)
  }

  /** All the memory a dump stores. */
  function Stored(blocks: seq<PhysBlock>, f: Filter): Bytes
    requires forall i :: 0 <= i < |blocks| ==> BlockOk(blocks[i])
  {
    if blocks == [] then [] else Stored(blocks[..|blocks| - 1], f) + Piece(blocks[|blocks| - 1], f)
  }

  lemma StoredNone(f: Filter)
    ensures Stored([], f) == []
  {}

  lemma StoredMore(blocks: seq<PhysBlock>, f: Filter, i: nat)
    requires i < |blocks| && forall j :: 0 <= j < |blocks| ==> BlockOk(blocks[j])
    ensures Stored(blocks[..i + 1], f) == Stored(blocks[..i], f) + Piece(blocks[i], f)
  {
    assert blocks[..i + 1][..i] == blocks[..i];
  }

  /** Blocks outside the filter add nothing. */
  lemma {:induction false} StoredSkip(blocks: seq<PhysBlock>, f: Filter, i: nat, k: nat)
    requires i <= k <= |blocks| && forall j :: 0 <= j < |blocks| ==> BlockOk(blocks[j])
    requires forall j :: i <= j < k ==> Outside(blocks[j], f)
    ensures Stored(blocks[..k], f) == Stored(blocks[..i], f)
  {
    hide Stored, Piece, BlockOk;
    if i < k {
      StoredSkip(blocks, f, i, k - 1);
      StoredMore(blocks, f, k - 1);
      assert Piece(blocks[k - 1], f) == [];
    }
  }

  lemma PrefixMore(a: Bytes, b: Bytes, p: Bytes)
    requires a <= b
    ensures a <= b + p
  {}

  /** What the first blocks store comes first. */
  lemma {:induction false} StoredPrefix(blocks: seq<PhysBlock>, f: Filter, k: nat, n: nat)
    requires k <= n <= |blocks| && forall j :: 0 <= j < |blocks| ==> BlockOk(blocks[j])
    ensures Stored(blocks[..k], f) <= Stored(blocks[..n], f)
  {
    hide Stored, Piece, BlockOk;
    if k < n {
      StoredPrefix(blocks, f, k, n - 1);
      StoredMore(blocks, f, n - 1);
      PrefixMore(Stored(blocks[..k], f), Stored(blocks[..n - 1], f), Piece(blocks[n - 1], f));
    }
  }

  lemma Inside(all: Bytes, a: Bytes, p: Bytes, d: nat, n: nat, o: nat)
    requires a + p <= all && d + n <= |p| && o == |a| + d
    ensures o + n <= |all| && all[o..o + n] == p[d..d + n]
  {
    assert all[..|a + p|] == a + p;
    assert all[o..o + n] == all[..|a + p|][o..o + n];
  }

  lemma PieceBytes(b: PhysBlock, f: Filter, addr: nat, n: nat, d: nat, x: nat)
    requires BlockOk(b) && Contains(b, f, addr) && addr + n <= ClipEnd(b, f)
    requires d == addr - ClipStart(b, f) && x == addr - b.start
    ensures d + n <= |Piece(b, f)| && x + n <= |b.host| && Piece(b, f)[d..d + n] == b.host[x..x + n]
  {
    SliceSlice(b.host, ClipStart(b, f) - b.start, ClipEnd(b, f) - b.start, d, n, x);
  }

  /** What dump_iterate writes of a block. */
  lemma PieceIs(b: PhysBlock, f: Filter, from: nat, size: nat)
    requires BlockOk(b) && !Outside(b, f) && from == ClipStart(b, f) - b.start && from + size == ClipEnd(b, f) - b.start
    ensures from + size <= |b.host| && b.host[from..from + size] == Piece(b, f)
  {}

  lemma SliceSlice(h: Bytes, lo: nat, hi: nat, d: nat, n: nat, x: nat)
    requires lo <= hi <= |h| && d + n <= hi - lo && x == lo + d
    ensures h[lo..hi][d..d + n] == h[x..x + n]
  {
    var a, b := h[lo..hi][d..d + n], h[x..x + n];
    assert |a| == n == |b|;
    forall i | 0 <= i < n ensures a[i] == b[i] {
      assert a[i] == h[lo..hi][d + i] == h[lo + (d + i)];
      assert b[i] == h[x + i];
    }
  }

  /** The bytes stored for a run of addresses inside one block. */
  lemma StoredBytes(blocks: seq<PhysBlock>, f: Filter, k: nat, addr: nat, n: nat, o: nat, x: nat)
    requires k < |blocks| && forall j :: 0 <= j < |blocks| ==> BlockOk(blocks[j])
    requires Contains(blocks[k], f, addr) && addr + n <= ClipEnd(blocks[k], f)
    requires o == |Stored(blocks[..k], f)| + addr - ClipStart(blocks[k], f) && x == addr - blocks[k].start
    ensures o + n <= |Stored(blocks, f)| && x + n <= |blocks[k].host|
    ensures Stored(blocks, f)[o..o + n] == blocks[k].host[x..x + n]
  {
    hide Stored, Piece;
    var d := addr - ClipStart(blocks[k], f);
    StoredMore(blocks, f, k);
    StoredPrefix(blocks, f, k + 1, |blocks|);
    assert blocks[..|blocks|] == blocks;
    PieceBytes(blocks[k], f, addr, n, d, x);
    Inside(Stored(blocks, f), Stored(blocks[..k], f), Piece(blocks[k], f), d, n, o);
  }
}

/** The ELF dump: dump_init's arithmetic, the headers, and the memory after them (dump.c). */
module Dump {
  import opened Wrappers
  import opened LongWords
  import opened Endian
  import opened DumpLayout

  const PAGE_SIZE: nat := 4096
  const UINT16_MAX: nat := 0xffff
  const UINT32_MAX: nat := 0xffff_ffff
  const PN_XNUM: nat := 0xffff
  const PT_LOAD: nat := 1
  const PT_NOTE: nat := 4
  const NOT_STORED: nat := 0xffff_ffff_ffff_ffff      // hwaddr -1

  datatype Mapping = Mapping(phys: nat, virt: nat, length: nat)

  datatype Phdr = Phdr(kind: nat, offset: nat, vaddr: nat, paddr: nat, filesz: nat, memsz: nat)

  function EhdrSize(class64: bool): nat { if class64 then 64 else 52 }
  function PhdrSize(class64: bool): nat { if class64 then 56 else 32 }
  function ShdrSize(class64: bool): nat { if class64 then 64 else 40 }

  /** Elf64_Phdr and Elf32_Phdr; flags and alignment are zero. */
  function PhdrBytes(p: Phdr, class64: bool, big: bool): (s: Bytes)
    ensures |s| == PhdrSize(class64)
  {
    if class64 then
      (Num(4, p.kind, big) + Num(4, 0, big)) + Num(8, p.offset, big) + (Num(8, p.vaddr, big) + Num(8, p.paddr, big))
      + Num(8, p.filesz, big) + (Num(8, p.memsz, big) + Num(8, 0, big))
    else
      Num(4, p.kind, big) + Num(4, p.offset, big) + (Num(4, p.vaddr, big) + Num(4, p.paddr, big))
      + Num(4, p.filesz, big) + (Num(4, p.memsz, big) + (Num(4, 0, big) + Num(4, 0, big)))
  }

  /** What a reader of the header finds. */
  function ReadOffset(s: Bytes, class64: bool, big: bool): nat
    requires |s| == PhdrSize(class64)
  {
    if class64 then UnNum(s[8..16], big) else UnNum(s[4..8], big)
  }

  function ReadFilesz(s: Bytes, class64: bool, big: bool): nat
    requires |s| == PhdrSize(class64)
  {
    if class64 then UnNum(s[32..40], big) else UnNum(s[16..20], big)
  }

  function ReadKind(s: Bytes, class64: bool, big: bool): nat
    requires |s| == PhdrSize(class64)
  {
    UnNum(s[0..4], big)
  }

  function ReadVaddr(s: Bytes, class64: bool, big: bool): nat
    requires |s| == PhdrSize(class64)
  {
    if class64 then UnNum(s[16..24], big) else UnNum(s[8..12], big)
  }

  function ReadPaddr(s: Bytes, class64: bool, big: bool): nat
    requires |s| == PhdrSize(class64)
  {
    if class64 then UnNum(s[24..32], big) else UnNum(s[12..16], big)
  }

  function ReadMemsz(s: Bytes, class64: bool, big: bool): nat
    requires |s| == PhdrSize(class64)
  {
    if class64 then UnNum(s[40..48], big) else UnNum(s[20..24], big)
  }

  function WordLimit(class64: bool): (limit: nat)
    ensures limit > 0
  {
    if class64 then 0x1_0000_0000_0000_0000 else 0x1_0000_0000
  }

  lemma FiveParts(s: Bytes, a: Bytes, b: Bytes, c: Bytes, d: Bytes, e: Bytes, i: nat, j: nat, k: nat, l: nat)
    requires s == a + b + c + d + e && i == |a| && j == i + |b| && k == j + |c| && l == k + |d|
    ensures |s| == l + |e| && s[0..i] == a && s[i..j] == b && s[j..k] == c && s[k..l] == d && s[l..] == e
  {}

  lemma TwoParts(s: Bytes, i: nat, j: nat, k: nat, a: Bytes, b: Bytes)
    requires i <= j <= k <= |s| && j == i + |a| && k == j + |b| && s[i..k] == a + b
    ensures s[i..j] == a && s[j..k] == b
  {
    SliceSlice(s, i, k, 0, |a|, i);
    SliceSlice(s, i, k, |a|, |b|, j);
  }

  /** Where the fields of a 64-bit header are. */
  lemma Parts64(p: Phdr, big: bool)
    ensures var s := PhdrBytes(p, true, big);
      && s[0..4] == Num(4, p.kind, big) && s[8..16] == Num(8, p.offset, big)
      && s[16..24] == Num(8, p.vaddr, big) && s[24..32] == Num(8, p.paddr, big)
      && s[32..40] == Num(8, p.filesz, big) && s[40..48] == Num(8, p.memsz, big)
  {
    hide Num;
    var s := PhdrBytes(p, true, big);
    var a, c := Num(4, p.kind, big) + Num(4, 0, big), Num(8, p.vaddr, big) + Num(8, p.paddr, big);
    var e := Num(8, p.memsz, big) + Num(8, 0, big);
    FiveParts(s, a, Num(8, p.offset, big), c, Num(8, p.filesz, big), e, 8, 16, 32, 40);
    assert s[40..56] == s[40..];
    hide PhdrBytes;
    TwoParts(s, 0, 4, 8, Num(4, p.kind, big), Num(4, 0, big));
    TwoParts(s, 16, 24, 32, Num(8, p.vaddr, big), Num(8, p.paddr, big));
    TwoParts(s, 40, 48, 56, Num(8, p.memsz, big), Num(8, 0, big));
  }

  lemma Parts32(p: Phdr, big: bool)
    ensures var s := PhdrBytes(p, false, big);
      && s[0..4] == Num(4, p.kind, big) && s[4..8] == Num(4, p.offset, big)
      && s[8..12] == Num(4, p.vaddr, big) && s[12..16] == Num(4, p.paddr, big)
      && s[16..20] == Num(4, p.filesz, big) && s[20..24] == Num(4, p.memsz, big)
  {
    hide Num;
    var s := PhdrBytes(p, false, big);
    var c, z := Num(4, p.vaddr, big) + Num(4, p.paddr, big), Num(4, 0, big) + Num(4, 0, big);
    FiveParts(s, Num(4, p.kind, big), Num(4, p.offset, big), c, Num(4, p.filesz, big), Num(4, p.memsz, big) + z,
        4, 8, 16, 20);
    assert s[20..32] == s[20..];
    hide PhdrBytes;
    TwoParts(s, 8, 12, 16, Num(4, p.vaddr, big), Num(4, p.paddr, big));
    TwoParts(s, 20, 24, 32, Num(4, p.memsz, big), z);
  }

  /** The header gives every field back, if it fits its class; a 32-bit one drops the rest. */
  lemma PhdrRoundTrip(p: Phdr, class64: bool, big: bool)
    ensures var s := PhdrBytes(p, class64, big);
      && ReadKind(s, class64, big) == p.kind % 0x1_0000_0000
      && ReadOffset(s, class64, big) == p.offset % WordLimit(class64)
      && ReadVaddr(s, class64, big) == p.vaddr % WordLimit(class64)
      && ReadPaddr(s, class64, big) == p.paddr % WordLimit(class64)
      && ReadFilesz(s, class64, big) == p.filesz % WordLimit(class64)
      && ReadMemsz(s, class64, big) == p.memsz % WordLimit(class64)
  {
    assert Pow256(4) == 0x1_0000_0000 && Pow256(8) == 0x1_0000_0000_0000_0000;
    hide Num, UnNum, Pow256, PhdrBytes;
    NumRoundTrip(4, p.kind, big);
    var n := if class64 then 8 else 4;
    NumRoundTrip(n, p.offset, big);
    NumRoundTrip(n, p.vaddr, big);
    NumRoundTrip(n, p.paddr, big);
    NumRoundTrip(n, p.filesz, big);
    NumRoundTrip(n, p.memsz, big);
    if class64 { Parts64(p, big); } else { Parts32(p, big); }
  }

  lemma OffsetRead(p: Phdr, class64: bool, big: bool)
    ensures ReadOffset(PhdrBytes(p, class64, big), class64, big) == p.offset % WordLimit(class64)
  {
    PhdrRoundTrip(p, class64, big);
  }

  /** A reader gets the offset that was meant if and only if it fits the header's class; so too
      the size. */
  lemma OffsetReadable(p: Phdr, class64: bool, big: bool)
    ensures ReadOffset(PhdrBytes(p, class64, big), class64, big) == p.offset <==> p.offset < WordLimit(class64)
    ensures ReadFilesz(PhdrBytes(p, class64, big), class64, big) == p.filesz <==> p.filesz < WordLimit(class64)
  {
    hide ReadOffset, ReadFilesz, PhdrBytes;
    PhdrRoundTrip(p, class64, big);
  }

  ghost predicate BlocksOk(blocks: seq<PhysBlock>) {
    forall j :: 0 <= j < |blocks| ==> BlockOk(blocks[j])
  }

  /** The first block, from the i-th on, whose part in the filter holds an address. */
  function Holder(blocks: seq<PhysBlock>, f: Filter, addr: nat, i: nat): (k: Option<nat>)
    ensures k.Some? ==> i <= k.value < |blocks| && Contains(blocks[k.value], f, addr)
    ensures k.None? ==> forall j :: i <= j < |blocks| ==> !Contains(blocks[j], f, addr)
    decreases |blocks| - i
  {
    if i >= |blocks| then None else if Contains(blocks[i], f, addr) then Some(i) else Holder(blocks, f, addr, i + 1)
  }

  /** Offset and size, in the file, of a mapping's memory. */
  function RangeOf(blocks: seq<PhysBlock>, f: Filter, memoryOffset: nat, m: Mapping): (nat, nat)
    requires BlocksOk(blocks)
  {
    var k := Holder(blocks, f, m.phys, 0);
    if k.None? then (NOT_STORED, 0)
    else
      var b := blocks[k.value];
      (memoryOffset + |Stored(blocks[..k.value], f)| + m.phys - ClipStart(b, f),
       if m.phys + m.length <= ClipEnd(b, f) then m.length else ClipEnd(b, f) - m.phys)
  }

  /** The size in the file never exceeds the mapping, nor what is left of the block. */
  lemma RangeFits(blocks: seq<PhysBlock>, f: Filter, memoryOffset: nat, m: Mapping)
    requires BlocksOk(blocks)
    ensures var k := Holder(blocks, f, m.phys, 0); var (offset, filesz) := RangeOf(blocks, f, memoryOffset, m);
      filesz <= m.length && (k.Some? ==> m.phys + filesz <= ClipEnd(blocks[k.value], f) && memoryOffset <= offset)
  {}

  /** The headers and the memory agree: the bytes a header points to are the guest's, at the
      mapping's physical address, as far as one block goes. */
  lemma RangeAgrees(blocks: seq<PhysBlock>, f: Filter, memoryOffset: nat, m: Mapping, head: Bytes, k: nat, offset: nat,
                    filesz: nat, x: nat)
    requires BlocksOk(blocks) && |head| == memoryOffset && Holder(blocks, f, m.phys, 0) == Some(k)
    requires RangeOf(blocks, f, memoryOffset, m) == (offset, filesz) && x == m.phys - blocks[k].start
    ensures var file := head + Stored(blocks, f);
      && offset + filesz <= |file| && x + filesz <= |blocks[k].host|
      && file[offset..offset + filesz] == blocks[k].host[x..x + filesz]
  {
    hide Stored, Holder;
    RangeFits(blocks, f, memoryOffset, m);
    var o := offset - memoryOffset;
    StoredBytes(blocks, f, k, m.phys, filesz, o, x);
    hide RangeOf, Contains, ClipStart, ClipEnd;
    Inside(head + Stored(blocks, f), head, Stored(blocks, f), o, filesz, offset);
  }

  /** The program header of a mapping. */
  function LoadOf(blocks: seq<PhysBlock>, f: Filter, memoryOffset: nat, m: Mapping): Phdr
    requires BlocksOk(blocks)
  {
    var r := RangeOf(blocks, f, memoryOffset, m);
    Phdr(PT_LOAD, r.0, m.virt, m.phys, r.1, m.length)
  }

  function LoadBytes(blocks: seq<PhysBlock>, f: Filter, memoryOffset: nat, list: seq<Mapping>, class64: bool,
                     big: bool): Bytes
    requires BlocksOk(blocks)
  {
    if list == [] then []
    else
      var n := |list| - 1;
      LoadBytes(blocks, f, memoryOffset, list[..n], class64, big)
          + PhdrBytes(LoadOf(blocks, f, memoryOffset, list[n]), class64, big)
  }

  lemma LoadMore(blocks: seq<PhysBlock>, f: Filter, memoryOffset: nat, list: seq<Mapping>, class64: bool, big: bool,
                 i: nat)
    requires BlocksOk(blocks) && i < |list|
    ensures LoadBytes(blocks, f, memoryOffset, list[..i + 1], class64, big) ==
      LoadBytes(blocks, f, memoryOffset, list[..i], class64, big)
          + PhdrBytes(LoadOf(blocks, f, memoryOffset, list[i]), class64, big)
  {
    assert list[..i + 1][..i] == list[..i];
  }

  lemma {:induction false} LoadLength(blocks: seq<PhysBlock>, f: Filter, memoryOffset: nat, list: seq<Mapping>,
                                      class64: bool, big: bool)
    requires BlocksOk(blocks)
    ensures |LoadBytes(blocks, f, memoryOffset, list, class64, big)| == PhdrSize(class64) * |list|
  {
    hide PhdrBytes, LoadOf, PhdrSize;
    if list != [] {
      var n, size := |list| - 1, PhdrSize(class64);
      LoadLength(blocks, f, memoryOffset, list[..n], class64, big);
      assert size * (n + 1) == size * n + size;
    }
  }

  lemma {:induction false} LoadPrefix(blocks: seq<PhysBlock>, f: Filter, memoryOffset: nat, list: seq<Mapping>,
                                      class64: bool, big: bool, k: nat, n: nat)
    requires BlocksOk(blocks) && k <= n <= |list|
    ensures LoadBytes(blocks, f, memoryOffset, list[..k], class64, big) <= LoadBytes(blocks, f, memoryOffset, list[..n],
      class64, big)
  {
    hide LoadBytes, PhdrBytes, LoadOf;
    if k < n {
      LoadPrefix(blocks, f, memoryOffset, list, class64, big, k, n - 1);
      LoadMore(blocks, f, memoryOffset, list, class64, big, n - 1);
      PrefixMore(LoadBytes(blocks, f, memoryOffset, list[..k], class64, big),
          LoadBytes(blocks, f, memoryOffset, list[..n - 1], class64, big),
                 PhdrBytes(LoadOf(blocks, f, memoryOffset, list[n - 1]), class64, big));
    }
  }

  /** Where a mapping's header is in the file. */
  lemma LoadAt(blocks: seq<PhysBlock>, f: Filter, memoryOffset: nat, list: seq<Mapping>, class64: bool, big: bool,
               n: nat, i: nat, head: Bytes, file: Bytes, at: nat, size: nat)
    requires BlocksOk(blocks) && i < n <= |list| && size == PhdrSize(class64) && at == |head| + size * i
    requires head + LoadBytes(blocks, f, memoryOffset, list[..n], class64, big) <= file
    ensures at + size <= |file|
    ensures file[at..at + size] == PhdrBytes(LoadOf(blocks, f, memoryOffset, list[i]), class64, big)
  {
    hide LoadBytes, PhdrBytes, LoadOf, PhdrSize;
    LoadLength(blocks, f, memoryOffset, list[..i], class64, big);
    LoadMore(blocks, f, memoryOffset, list, class64, big, i);
    LoadPrefix(blocks, f, memoryOffset, list, class64, big, i + 1, n);
    var a := LoadBytes(blocks, f, memoryOffset, list[..i], class64, big);
    var p := PhdrBytes(LoadOf(blocks, f, memoryOffset, list[i]), class64, big);
    var all := LoadBytes(blocks, f, memoryOffset, list[..n], class64, big);
    PrefixUnder(head, a + p, all, file);
    assert head + (a + p) == head + a + p;
    Inside(file, head + a, p, 0, size, at);
    assert p[0..size] == p;
  }

  lemma PrefixUnder(head: Bytes, a: Bytes, all: Bytes, file: Bytes)
    requires a <= all && head + all <= file
    ensures head + a <= file
  {
    assert (head + all)[..|head + a|] == head + a;
  }

  /** A mapping's header is at its place; what is to be found where it ought to point, and what
      a reader finds who goes by the header, are the guest's bytes. */
  ghost predicate LoadAgrees(file: Bytes, blocks: seq<PhysBlock>, f: Filter, memoryOffset: nat, m: Mapping,
                             class64: bool, big: bool, at: nat)
    requires BlocksOk(blocks)
  {
    && at + PhdrSize(class64) <= |file|
    && file[at..at + PhdrSize(class64)] == PhdrBytes(LoadOf(blocks, f, memoryOffset, m), class64, big)
    && MemoryAgrees(file, blocks, f, memoryOffset, m)
    && ReaderAgrees(file, file[at..at + PhdrSize(class64)], blocks, f, memoryOffset, m, class64, big)
    && Describes(file[at..at + PhdrSize(class64)], m, class64, big)
  }

  /** The header is that of loadable memory, with the mapping's addresses and size, cut to the class. */
  ghost predicate Describes(header: Bytes, m: Mapping, class64: bool, big: bool)
    requires |header| == PhdrSize(class64)
  {
    && ReadKind(header, class64, big) == PT_LOAD
    && ReadVaddr(header, class64, big) == m.virt % WordLimit(class64)
    && ReadPaddr(header, class64, big) == m.phys % WordLimit(class64)
    && ReadMemsz(header, class64, big) == m.length % WordLimit(class64)
  }

  lemma LoadDescribes(blocks: seq<PhysBlock>, f: Filter, memoryOffset: nat, m: Mapping, class64: bool, big: bool)
    requires BlocksOk(blocks)
    ensures Describes(PhdrBytes(LoadOf(blocks, f, memoryOffset, m), class64, big), m, class64, big)
  {
    hide PhdrBytes, RangeOf, WordLimit, ReadKind, ReadVaddr, ReadPaddr, ReadMemsz, ReadOffset, ReadFilesz;
    PhdrRoundTrip(LoadOf(blocks, f, memoryOffset, m), class64, big);
  }

  /** From `base` on, the file has a header for each of the mappings. */
  ghost predicate Described(file: Bytes, base: nat, list: seq<Mapping>, class64: bool, big: bool) {
    forall i :: 0 <= i < |list| ==> DescribedAt(file, base + PhdrSize(class64) * i, list[i], class64, big)
  }

  ghost predicate DescribedAt(file: Bytes, at: nat, m: Mapping, class64: bool, big: bool) {
    at + PhdrSize(class64) <= |file| && Describes(file[at..at + PhdrSize(class64)], m, class64, big)
  }

  lemma AllDescribed(blocks: seq<PhysBlock>, f: Filter, memoryOffset: nat, list: seq<Mapping>, class64: bool, big: bool,
                     head: Bytes, file: Bytes)
    requires BlocksOk(blocks) && file == head + LoadBytes(blocks, f, memoryOffset, list, class64, big)
    ensures Described(file, |head|, list, class64, big)
  {
    hide LoadBytes, PhdrSize, DescribedAt;
    forall i | 0 <= i < |list| ensures DescribedAt(file, |head| + PhdrSize(class64) * i, list[i], class64, big) {
      OneDescribed(blocks, f, memoryOffset, list, class64, big, head, file, i, |head| + PhdrSize(class64) * i);
    }
  }

  lemma OneDescribed(blocks: seq<PhysBlock>, f: Filter, memoryOffset: nat, list: seq<Mapping>, class64: bool, big: bool,
                     head: Bytes, file: Bytes, i: nat, at: nat)
    requires BlocksOk(blocks) && file == head + LoadBytes(blocks, f, memoryOffset, list, class64, big)
    requires i < |list| && at == |head| + PhdrSize(class64) * i
    ensures DescribedAt(file, at, list[i], class64, big)
  {
    hide LoadBytes, PhdrBytes, LoadOf, PhdrSize, Describes;
    assert list[..|list|] == list;
    LoadAt(blocks, f, memoryOffset, list, class64, big, |list|, i, head, file, at, PhdrSize(class64));
    LoadDescribes(blocks, f, memoryOffset, list[i], class64, big);
  }

  /** The note's header is at its place, and the notes where it points, if that fits the class. */
  ghost predicate NoteAgrees(file: Bytes, memoryOffset: nat, notes: Bytes, class64: bool, big: bool)
    requires |notes| <= memoryOffset <= |file| && EhdrSize(class64) + PhdrSize(class64) <= |file|
  {
    var header := file[EhdrSize(class64)..EhdrSize(class64) + PhdrSize(class64)];
    && file[memoryOffset - |notes|..memoryOffset] == notes
    && ReadKind(header, class64, big) == PT_NOTE
    && ReadOffset(header, class64, big) == (memoryOffset - |notes|) % WordLimit(class64)
    && ReadFilesz(header, class64, big) == ReadMemsz(header, class64, big) == |notes| % WordLimit(class64)
    && ReadVaddr(header, class64, big) == ReadPaddr(header, class64, big) == 0
  }

  /** The note's program header. */
  function NoteHeader(memoryOffset: nat, size: nat, class64: bool, big: bool): (s: Bytes)
    ensures |s| == PhdrSize(class64)
  {
    PhdrBytes(Phdr(PT_NOTE, Sub(memoryOffset, size), 0, 0, size, size), class64, big)
  }

  lemma NoteReads(memoryOffset: nat, size: nat, class64: bool, big: bool)
    requires size <= memoryOffset
    ensures var s := NoteHeader(memoryOffset, size, class64, big);
      && ReadKind(s, class64, big) == PT_NOTE
      && ReadOffset(s, class64, big) == (memoryOffset - size) % WordLimit(class64)
      && ReadFilesz(s, class64, big) == ReadMemsz(s, class64, big) == size % WordLimit(class64)
      && ReadVaddr(s, class64, big) == ReadPaddr(s, class64, big) == 0
  {
    hide PhdrBytes, ReadKind, ReadVaddr, ReadPaddr, ReadMemsz, ReadOffset, ReadFilesz;
    PhdrRoundTrip(Phdr(PT_NOTE, Sub(memoryOffset, size), 0, 0, size, size), class64, big);
  }

  /** Offset and size, as read from the header, give the guest's bytes from the mapping's address
      on, as far as the mapping or its block goes, when they fit the header's class; and a mapping
      that no block holds reads as empty. */
  ghost predicate ReaderAgrees(file: Bytes, header: Bytes, blocks: seq<PhysBlock>, f: Filter, memoryOffset: nat,
                               m: Mapping, class64: bool, big: bool)
    requires BlocksOk(blocks) && |header| == PhdrSize(class64)
  {
    var k := Holder(blocks, f, m.phys, 0);
    var o, n := ReadOffset(header, class64, big), ReadFilesz(header, class64, big);
    if k.None? then n == 0
    else if !Fits(blocks, f, memoryOffset, m, k.value, WordLimit(class64)) then true
    else Finds(file, o, n, blocks[k.value], f, m)
  }

  /** At o in the file are the n bytes a block has of a mapping. */
  ghost predicate Finds(file: Bytes, o: nat, n: nat, b: PhysBlock, f: Filter, m: Mapping)
    requires b.start <= m.phys
  {
    var x := m.phys - b.start;
    && n == (if m.phys + m.length <= ClipEnd(b, f) then m.length else ClipEnd(b, f) - m.phys)
    && o + n <= |file| && x + n <= |b.host| && file[o..o + n] == b.host[x..x + n]
  }

  /** Where the memory is in the file, and how much of it there is, can be written in the class. */
  ghost predicate Fits(blocks: seq<PhysBlock>, f: Filter, memoryOffset: nat, m: Mapping, k: nat, limit: nat)
    requires BlocksOk(blocks) && k < |blocks|
  {
    && memoryOffset + |Stored(blocks[..k], f)| + m.phys - ClipStart(blocks[k], f) < limit
    && (m.length < limit || ClipEnd(blocks[k], f) - m.phys < limit)
  }

  lemma ReaderFinds(file: Bytes, blocks: seq<PhysBlock>, f: Filter, memoryOffset: nat, m: Mapping, class64: bool,
                    big: bool)
    requires BlocksOk(blocks) && MemoryAgrees(file, blocks, f, memoryOffset, m)
    ensures ReaderAgrees(file, PhdrBytes(LoadOf(blocks, f, memoryOffset, m), class64, big), blocks, f, memoryOffset, m,
      class64, big)
  {
    hide PhdrBytes, ReadOffset, ReadFilesz, Stored, Holder, RangeOf, WordLimit, Fits, MemoryAgrees, Finds, BlockOk;
    hide PhdrSize;
    var p := LoadOf(blocks, f, memoryOffset, m);
    OffsetReadable(p, class64, big);
    var k := Holder(blocks, f, m.phys, 0);
    if k.None? {
      RangeNone(blocks, f, memoryOffset, m);
    } else if Fits(blocks, f, memoryOffset, m, k.value, WordLimit(class64)) {
      MemoryAt(file, blocks, f, memoryOffset, m, k.value, WordLimit(class64));
    }
  }

  lemma MemoryAt(file: Bytes, blocks: seq<PhysBlock>, f: Filter, memoryOffset: nat, m: Mapping, k: nat, limit: nat)
    requires BlocksOk(blocks) && MemoryAgrees(file, blocks, f, memoryOffset, m)
    requires Holder(blocks, f, m.phys, 0) == Some(k)
    requires Fits(blocks, f, memoryOffset, m, k, limit)
    ensures var (o, n) := RangeOf(blocks, f, memoryOffset, m);
      o < limit && n < limit && blocks[k].start <= m.phys && Finds(file, o, n, blocks[k], f, m)
  {
    hide Holder, Stored, RangeOf;
    RangeAt(blocks, f, memoryOffset, m, k);
  }

  lemma RangeAt(blocks: seq<PhysBlock>, f: Filter, memoryOffset: nat, m: Mapping, k: nat)
    requires BlocksOk(blocks) && Holder(blocks, f, m.phys, 0) == Some(k)
    ensures RangeOf(blocks, f, memoryOffset, m) ==
      (memoryOffset + |Stored(blocks[..k], f)| + m.phys - ClipStart(blocks[k], f),
       if m.phys + m.length <= ClipEnd(blocks[k], f) then m.length else ClipEnd(blocks[k], f) - m.phys)
    ensures blocks[k].start <= ClipStart(blocks[k], f) <= m.phys < ClipEnd(blocks[k], f) <= blocks[k].end
  {
    hide Holder, Stored;
  }

  lemma RangeNone(blocks: seq<PhysBlock>, f: Filter, memoryOffset: nat, m: Mapping)
    requires BlocksOk(blocks) && Holder(blocks, f, m.phys, 0).None?
    ensures RangeOf(blocks, f, memoryOffset, m).1 == 0
  {}


  ghost predicate MemoryAgrees(file: Bytes, blocks: seq<PhysBlock>, f: Filter, memoryOffset: nat, m: Mapping)
    requires BlocksOk(blocks)
  {
    var k := Holder(blocks, f, m.phys, 0);
    var (offset, filesz) := RangeOf(blocks, f, memoryOffset, m);
    k.Some? ==>
      var x := m.phys - blocks[k.value].start;
      && offset + filesz <= |file| && x + filesz <= |blocks[k.value].host|
      && file[offset..offset + filesz] == blocks[k.value].host[x..x + filesz]
  }

  /** Where in the file the header of the i-th mapping is: after the ELF header and the note's. */
  function LoadPlace(class64: bool, i: nat): nat {
    EhdrSize(class64) + PhdrSize(class64) + PhdrSize(class64) * i
  }

  ghost predicate LoadsAgree(file: Bytes, blocks: seq<PhysBlock>, f: Filter, memoryOffset: nat, list: seq<Mapping>,
                             class64: bool, big: bool)
    requires BlocksOk(blocks)
  {
    forall i :: 0 <= i < |list| ==>
      LoadAgrees(file, blocks, f, memoryOffset, list[i], class64, big, LoadPlace(class64, i))
  }

  lemma AllAgree(file: Bytes, blocks: seq<PhysBlock>, f: Filter, memoryOffset: nat, m: Mapping)
    requires BlocksOk(blocks) && memoryOffset <= |file| && file[memoryOffset..] == Stored(blocks, f)
    ensures MemoryAgrees(file, blocks, f, memoryOffset, m)
  {
    hide Stored, RangeOf, Holder;
    var k := Holder(blocks, f, m.phys, 0);
    if k.Some? {
      var (offset, filesz) := RangeOf(blocks, f, memoryOffset, m);
      assert file == file[..memoryOffset] + Stored(blocks, f);
      RangeAgrees(blocks, f, memoryOffset, m, file[..memoryOffset], k.value, offset, filesz,
          m.phys - blocks[k.value].start);
    }
  }

  class DumpState {
    const blocks: seq<PhysBlock>
    const filter: Filter
    const list: seq<Mapping>
    const noteSize: nat
    const class64: bool
    const big: bool
    const room: nat -> bool               // whether the file can grow to a length
    var phdrNum: nat
    var haveSection: bool
    var shInfo: nat
    var memoryOffset: nat
    var next: nat                         // next_block, by its place in the list
    var start: nat
    var file: Bytes

    constructor (blocks: seq<PhysBlock>, filter: Filter, list: seq<Mapping>, noteSize: nat, class64: bool, big: bool,
                 room: nat -> bool)
      ensures this.blocks == blocks && this.filter == filter && this.list == list && this.noteSize == noteSize
      ensures this.class64 == class64 && this.big == big && this.room == room && file == []
    {
      this.blocks, this.filter, this.list, this.noteSize := blocks, filter, list, noteSize;
      this.class64, this.big, this.room := class64, big, room;
      phdrNum, haveSection, shInfo, memoryOffset, next, start, file := 0, false, 0, 0, 0, 0, [];
    }

    /** Block k is the next to be written, from its first byte inside the filter on. */
    ghost predicate Next(k: nat)
      reads this
    {
      && next == k < |blocks| && !Outside(blocks[k], filter) && start == ClipStart(blocks[k], filter) - blocks[k].start
    }

    /** get_start_block: the first block with something inside the filter, if there is one. */
    method GetStartBlock() returns (ok: bool)
      requires BlocksOk(blocks) && (filter.NoFilter? ==> blocks != [])
      modifies `next, `start
      ensures ok <==> exists j :: 0 <= j < |blocks| && !Outside(blocks[j], filter)
      ensures ok ==> Next(next) && forall j :: 0 <= j < next ==> Outside(blocks[j], filter)
    {
      if filter.NoFilter? {
        next, start := 0, 0;
        assert !Outside(blocks[0], filter);
        return true;
      }
      for i := 0 to |blocks|
        invariant forall j :: 0 <= j < i ==> Outside(blocks[j], filter)
      {
        if blocks[i].start >= filter.begin + filter.length || blocks[i].end <= filter.begin {
          continue;
        }
        next := i;
        start := if filter.begin > blocks[i].start then filter.begin - blocks[i].start else 0;
        return true;
      }
      ok := false;
    }

    /** get_next_block: the next block with something inside the filter. */
    method GetNextBlock() returns (done: bool)
      requires BlocksOk(blocks) && next < |blocks|
      modifies `next, `start
      ensures !done ==> Next(next) && old(next) < next && forall j :: old(next) < j < next ==>
        Outside(blocks[j], filter)
      ensures done ==> forall j :: old(next) < j < |blocks| ==> Outside(blocks[j], filter)
    {
      var i := next + 1;
      while i < |blocks|
        invariant old(next) < i <= |blocks| && forall j :: old(next) < j < i ==> Outside(blocks[j], filter)
      {
        start, next := 0, i;
        if filter.Range? {
          if blocks[i].start >= filter.begin + filter.length || blocks[i].end <= filter.begin {
            i := i + 1;
            continue;
          }
          if filter.begin > blocks[i].start {
            start := filter.begin - blocks[i].start;
          }
        }
        return false;
      }
      done := true;
    }

    /** Every write succeeds. */
    ghost predicate Roomy() { forall n :: room(n) }

    /** fd_write_vmcore; a write may fail. */
    method WriteVmcore(buf: Bytes) returns (ok: bool)
      modifies `file
      ensures ok ==> file == old(file) + buf
      ensures Roomy() ==> ok
    {
      ok := room(|file| + |buf|);
      if ok {
        file := file + buf;
      }
    }

    /** write_memory: a page at a time, then the rest. */
    method WriteMemory(block: PhysBlock, from: nat, size: nat) returns (ok: bool)
      requires from + size <= |block.host|
      modifies `file
      ensures ok ==> file == old(file) + block.host[from..from + size]
      ensures Roomy() ==> ok
    {
      var i, at := 0, from;
      while i < size / PAGE_SIZE
        invariant 0 <= i <= size / PAGE_SIZE && at == from + i * PAGE_SIZE && file == old(file) + block.host[from..at]
      {
        ok := WriteVmcore(block.host[at..at + PAGE_SIZE]);
        if !ok {
          return;
        }
        JoinSlices(old(file), block.host, from, at, at + PAGE_SIZE);
        i, at := i + 1, at + PAGE_SIZE;
      }
      ok := true;
      if size % PAGE_SIZE != 0 {
        ok := WriteVmcore(block.host[at..at + size % PAGE_SIZE]);
        JoinSlices(old(file), block.host, from, at, at + size % PAGE_SIZE);
      }
    }

    /** dump_iterate: the memory of all blocks, as far as the filter admits it. */
    method DumpIterate() returns (ok: bool)
      requires BlocksOk(blocks) && Next(next) && forall j :: 0 <= j < next ==> Outside(blocks[j], filter)
      modifies `file, `next, `start
      ensures ok ==> file == old(file) + Stored(blocks, filter)
      ensures Roomy() ==> ok
    {
      StoredSkip(blocks, filter, 0, next);
      assert blocks[..0] == [];
      var done := false;
      while !done
        invariant !done ==> Next(next) && file == old(file) + Stored(blocks[..next], filter)
        invariant done ==> file == old(file) + Stored(blocks, filter)
        decreases !done, |blocks| - next
      {
        done, ok := DumpBlock(old(file));
        if !ok {
          return;
        }
      }
      ok := true;
    }

    /** One round of dump_iterate's loop. */
    method DumpBlock(ghost before: Bytes) returns (done: bool, ok: bool)
      requires BlocksOk(blocks) && Next(next) && file == before + Stored(blocks[..next], filter)
      modifies `file, `next, `start
      ensures ok && !done ==> Next(next) && old(next) < next && file == before + Stored(blocks[..next], filter)
      ensures ok && done ==> file == before + Stored(blocks, filter)
      ensures Roomy() ==> ok
    {
      hide Stored, Piece;
      var block := blocks[next];
      var size := block.end - block.start;
      if filter.Range? {
        size := size - start;
        if filter.begin + filter.length < block.end {
          size := size - (block.end - (filter.begin + filter.length));
        }
      }
      PieceIs(block, filter, start, size);
      ok := WriteMemory(block, start, size);
      if !ok {
        return true, false;
      }
      StoredMore(blocks, filter, next);
      ghost var k := next;
      assert file == before + Stored(blocks[..k + 1], filter);
      done := GetNextBlock();
      StoredSkip(blocks, filter, k + 1, if done then |blocks| else next);
      assert blocks[..|blocks|] == blocks;
    }

    /** get_offset_range. */
    method GetOffsetRange(m: Mapping) returns (offset: nat, filesz: nat)
      requires BlocksOk(blocks)
      ensures (offset, filesz) == RangeOf(blocks, filter, memoryOffset, m)
    {
      hide Stored;
      if filter.Range? && (m.phys < filter.begin || m.phys >= filter.begin + filter.length) {
        assert forall j :: 0 <= j < |blocks| ==> !Contains(blocks[j], filter, m.phys);
        return NOT_STORED, 0;
      }
      offset := memoryOffset;
      StoredNone(filter);
      assert blocks[..0] == [];
      for i := 0 to |blocks|
        invariant offset == memoryOffset + |Stored(blocks[..i], filter)|
        invariant Holder(blocks, filter, m.phys, 0) == Holder(blocks, filter, m.phys, i)
      {
        StoredMore(blocks, filter, i);
        var start, size, outside := ClipBlock(blocks[i]);
        if outside {
          continue;
        }
        if start <= m.phys < start + size {
          filesz := if m.phys + m.length <= start + size then m.length else size - (m.phys - start);
          return m.phys - start + offset, filesz;
        }
        offset := offset + size;
      }
      return NOT_STORED, 0;
    }

    /** The part of a block inside the filter, as get_offset_range works it out. */
    method ClipBlock(block: PhysBlock) returns (start: nat, size: nat, outside: bool)
      requires BlockOk(block)
      ensures outside <==> Outside(block, filter)
      ensures !outside ==> start == ClipStart(block, filter) && start + size == ClipEnd(block, filter)
    {
      if filter.NoFilter? {
        return block.start, block.end - block.start, false;
      }
      if block.start >= filter.begin + filter.length || block.end <= filter.begin {
        return 0, 0, true;
      }
      start := if filter.begin <= block.start then block.start else filter.begin;
      size := block.end - start;
      if filter.begin + filter.length < block.end {
        size := size - (block.end - (filter.begin + filter.length));
      }
      outside := false;
    }

    /** What dump_init leaves: as many program headers as there are mappings, and the note's. */
    ghost predicate Prepared()
      reads this
    {
      && BlocksOk(blocks) && |list| <= UINT32_MAX && Next(next)
      && (forall j :: 0 <= j < next ==> Outside(blocks[j], filter))
      && MaxIndex() == (if |list| < UINT32_MAX then |list| + 1 else UINT32_MAX)
      && (haveSection <==> |list| >= UINT16_MAX - 2) && (haveSection ==> phdrNum == PN_XNUM)
      && memoryOffset == EhdrSize(class64) + PhdrSize(class64) * MaxIndex() + SectionSize() + noteSize
    }

    /** The section header, which is there only when the count of headers needs it. */
    function SectionSize(): nat
      reads `haveSection
    {
      if haveSection then ShdrSize(class64) else 0
    }

    function MaxIndex(): nat
      reads `haveSection, `shInfo, `phdrNum
    {
      if haveSection then shInfo else phdrNum
    }

    /** dump_init, where it sizes the headers. */
    method Init() returns (ok: bool)
      requires BlocksOk(blocks) && |list| <= UINT32_MAX && (filter.NoFilter? ==> blocks != [])
      modifies this
      ensures file == old(file) && (ok ==> Prepared())
      ensures ok <==> exists j :: 0 <= j < |blocks| && !Outside(blocks[j], filter)
    {
      ok := GetStartBlock();
      if !ok {
        return;
      }
      phdrNum := 1;
      if |list| < UINT16_MAX - 2 {
        phdrNum := phdrNum + |list|;
        haveSection := false;
      } else {
        haveSection := true;
        phdrNum := PN_XNUM;
        shInfo := 1;
        if |list| <= UINT32_MAX - 1 {
          shInfo := shInfo + |list|;
        } else {
          shInfo := UINT32_MAX;
        }
      }
      if haveSection {
        memoryOffset := EhdrSize(class64) + PhdrSize(class64) * shInfo + ShdrSize(class64) + noteSize;
      } else {
        memoryOffset := EhdrSize(class64) + PhdrSize(class64) * phdrNum + noteSize;
      }
    }

    /** write_elf_loads: one header for each mapping, up to the number announced. */
    method WriteElfLoads() returns (ok: bool)
      requires Prepared()
      modifies `file
      ensures ok ==> file == old(file) + LoadBytes(blocks, filter, memoryOffset, list[..MaxIndex() - 1], class64, big)
      ensures ok ==> Described(file, |old(file)|, list[..MaxIndex() - 1], class64, big)
      ensures Roomy() ==> ok
    {
      hide RangeOf, PhdrBytes, LoadBytes, Stored, Described;
      var i, index := 0, 1;
      LoadNone(blocks, filter, memoryOffset, class64, big);
      assert list[..0] == [];
      while i < |list|
        invariant 0 <= i <= |list| && index == i + 1 && index <= MaxIndex()
        invariant file == old(file) + LoadBytes(blocks, filter, memoryOffset, list[..i], class64, big)
        invariant if i == |list| then index == MaxIndex() else index < MaxIndex()
        decreases |list| - i
      {
        var offset, filesz := GetOffsetRange(list[i]);
        ok := WriteVmcore(PhdrBytes(Phdr(PT_LOAD, offset, list[i].virt, list[i].phys, filesz, list[i].length), class64,
            big));
        if !ok {
          return;
        }
        LoadMore(blocks, filter, memoryOffset, list, class64, big, i);
        index := index + 1;
        i := i + 1;
        if index >= MaxIndex() {
          break;
        }
      }
      assert i == MaxIndex() - 1;
      AllDescribed(blocks, filter, memoryOffset, list[..i], class64, big, old(file), file);
      ok := true;
    }

    /** The first part of dump_begin: the ELF header and the program headers. */
    method WriteHeaders(ehdr: Bytes) returns (ok: bool)
      requires Prepared() && file == []
      modifies `file
      ensures ok ==> file == HeadBytes(ehdr)
      ensures Roomy() ==> ok
    {
      hide Stored, LoadBytes, PhdrBytes, Outside, BlockOk, ClipStart;
      ok := WriteVmcore(ehdr);
      if !ok {
        return;
      }
      var note := NoteHeader(memoryOffset, noteSize, class64, big);
      ok := WriteVmcore(note);
      if !ok {
        return;
      }
      assert file == ehdr + note;
      ok := WriteElfLoads();
    }

    /** The ELF header, the note's header and those of the mappings. */
    ghost function HeadBytes(ehdr: Bytes): Bytes
      requires BlocksOk(blocks) && 1 <= MaxIndex() <= |list| + 1
      reads `haveSection, `shInfo, `phdrNum, `memoryOffset
    {
      ehdr + NoteHeader(memoryOffset, noteSize, class64, big)
        + LoadBytes(blocks, filter, memoryOffset, list[..MaxIndex() - 1], class64, big)
    }

    lemma HeadLength(ehdr: Bytes)
      requires Prepared()
      ensures |HeadBytes(ehdr)| == |ehdr| + PhdrSize(class64) * MaxIndex()
    {
      hide Stored, LoadBytes, PhdrBytes, Outside, BlockOk, ClipStart, PhdrSize, EhdrSize, ShdrSize;
      LoadLength(blocks, filter, memoryOffset, list[..MaxIndex() - 1], class64, big);
      OneMore(PhdrSize(class64), MaxIndex());
    }

    /** dump_begin: everything before the memory takes exactly memory_offset bytes. */
    method DumpBegin(ehdr: Bytes, shdr: Bytes, notes: Bytes) returns (ok: bool)
      requires Prepared() && file == []
      requires |ehdr| == EhdrSize(class64) && |shdr| == ShdrSize(class64) && |notes| == noteSize
      modifies `file
      ensures ok ==> |file| == memoryOffset && file == HeadBytes(ehdr) + (if haveSection then shdr else []) + notes
      ensures ok ==> |HeadBytes(ehdr)| == EhdrSize(class64) + PhdrSize(class64) * MaxIndex()
      ensures Roomy() ==> ok
    {
      hide Stored, HeadBytes, Outside, BlockOk, ClipStart;
      ok := WriteHeaders(ehdr);
      if !ok {
        return;
      }
      HeadLength(ehdr);
      if haveSection {
        ok := WriteVmcore(shdr);
        if !ok {
          return;
        }
      }
      ok := WriteVmcore(notes);
    }

    /** create_vmcore: the headers, then the memory, which starts at memory_offset. */
    method CreateVmcore(ehdr: Bytes, shdr: Bytes, notes: Bytes) returns (ok: bool)
      requires Prepared() && file == []
      requires |ehdr| == EhdrSize(class64) && |shdr| == ShdrSize(class64) && |notes| == noteSize
      modifies `file, `next, `start
      ensures ok ==> memoryOffset <= |file| && file[memoryOffset..] == Stored(blocks, filter)
      ensures ok ==> LoadsAgree(file, blocks, filter, memoryOffset, list[..MaxIndex() - 1], class64, big)
      ensures ok && |list| < UINT32_MAX ==> LoadsAgree(file, blocks, filter, memoryOffset, list, class64, big)
      ensures ok ==> noteSize <= memoryOffset && EhdrSize(class64) + PhdrSize(class64) <= |file|
      ensures ok ==> ehdr <= file && NoteAgrees(file, memoryOffset, notes, class64, big)
      ensures ok && haveSection ==> SectionAt(file, EhdrSize(class64) + PhdrSize(class64) * MaxIndex(), shdr)
      ensures Roomy() ==> ok
    {
      hide LoadsAgree, NoteAgrees, Stored, Outside, ClipStart, HeadBytes, EhdrSize, PhdrSize, ShdrSize, SectionAt;
      hide BlockOk;
      ok := DumpBegin(ehdr, shdr, notes);
      if !ok {
        return;
      }
      ghost var head := file;
      ok := DumpIterate();
      if ok {
        assert file[|head|..] == Stored(blocks, filter) && head <= file;
        BegunAt(ehdr, if haveSection then shdr else [], notes);
        LoadsAt(ehdr);
        assert |list| < UINT32_MAX ==> list[..MaxIndex() - 1] == list;
      }
    }

    lemma LoadsAt(ehdr: Bytes)
      requires BlocksOk(blocks) && 1 <= MaxIndex() <= |list| + 1 && |ehdr| == EhdrSize(class64)
      requires HeadBytes(ehdr) <= file && memoryOffset <= |file| && file[memoryOffset..] == Stored(blocks, filter)
      ensures LoadsAgree(file, blocks, filter, memoryOffset, list[..MaxIndex() - 1], class64, big)
    {
      hide LoadBytes, PhdrBytes, Stored, LoadAgrees, LoadPlace, Outside, ClipStart, BlockOk, HeadBytes;
      ghost var loads := list[..MaxIndex() - 1];
      forall i | 0 <= i < |loads|
        ensures LoadAgrees(file, blocks, filter, memoryOffset, loads[i], class64, big, LoadPlace(class64, i))
      {
        AgreesAt(ehdr, i);
      }
    }

    /** What dump_begin has written is there in the file. */
    lemma BegunAt(ehdr: Bytes, section: Bytes, notes: Bytes)
      requires BlocksOk(blocks) && 1 <= MaxIndex() <= |list| + 1 && |ehdr| == EhdrSize(class64) && |notes| == noteSize
      requires HeadBytes(ehdr) + section + notes <= file
      requires |HeadBytes(ehdr)| + |section| + |notes| == memoryOffset
      ensures HeadBytes(ehdr) <= file && SectionAt(file, |HeadBytes(ehdr)|, section)
      ensures noteSize <= memoryOffset && EhdrSize(class64) + PhdrSize(class64) <= |file|
      ensures ehdr <= file && NoteAgrees(file, memoryOffset, notes, class64, big)
    {
      hide LoadBytes, NoteHeader, EhdrSize, PhdrSize, NoteAgrees, BlockOk;
      ghost var loads := LoadBytes(blocks, filter, memoryOffset, list[..MaxIndex() - 1], class64, big);
      NotesIn(file, ehdr, loads, section, notes, memoryOffset, class64, big);
    }

    lemma AgreesAt(ehdr: Bytes, i: nat)
      requires BlocksOk(blocks) && 1 <= MaxIndex() <= |list| + 1 && i < MaxIndex() - 1 && |ehdr| == EhdrSize(class64)
      requires HeadBytes(ehdr) <= file && memoryOffset <= |file| && file[memoryOffset..] == Stored(blocks, filter)
      ensures LoadAgrees(file, blocks, filter, memoryOffset, list[i], class64, big, LoadPlace(class64, i))
    {
      hide LoadBytes, PhdrBytes, Stored, MemoryAgrees, ReaderAgrees, LoadOf;
      ghost var note := NoteHeader(memoryOffset, noteSize, class64, big);
      LoadAt(blocks, filter, memoryOffset, list, class64, big, MaxIndex() - 1, i, ehdr + note, file,
          LoadPlace(class64, i), PhdrSize(class64));
      AllAgree(file, blocks, filter, memoryOffset, list[i]);
      ReaderFinds(file, blocks, filter, memoryOffset, list[i], class64, big);
      LoadDescribes(blocks, filter, memoryOffset, list[i], class64, big);
    }
  }

  lemma NotesIn(file: Bytes, ehdr: Bytes, loads: Bytes, section: Bytes, notes: Bytes, memoryOffset: nat, class64: bool,
                big: bool)
    requires |ehdr| == EhdrSize(class64)
    requires ehdr + NoteHeader(memoryOffset, |notes|, class64, big) + loads + section + notes <= file
    requires memoryOffset == |ehdr + NoteHeader(memoryOffset, |notes|, class64, big) + loads| + |section| + |notes|
    ensures var head := ehdr + NoteHeader(memoryOffset, |notes|, class64, big) + loads;
      head <= file && SectionAt(file, |head|, section)
    ensures |notes| <= memoryOffset && EhdrSize(class64) + PhdrSize(class64) <= |file|
    ensures ehdr <= file && NoteAgrees(file, memoryOffset, notes, class64, big)
  {
    hide NoteHeader, EhdrSize, PhdrSize, ReadKind, ReadVaddr, ReadPaddr, ReadMemsz, ReadOffset, ReadFilesz, WordLimit;
    hide SectionAt;
    NoteReads(memoryOffset, |notes|, class64, big);
    var note := NoteHeader(memoryOffset, |notes|, class64, big);
    SixParts(file, ehdr, note, loads, section, notes, memoryOffset - |notes|, memoryOffset);
  }

  lemma SixParts(file: Bytes, a: Bytes, b: Bytes, c: Bytes, d: Bytes, e: Bytes, i: nat, j: nat)
    requires a + b + c + d + e <= file && j == |a + b + c| + |d| + |e| && i == j - |e|
    ensures a <= file && a + b + c <= file && file[|a|..|a| + |b|] == b && file[i..j] == e
    ensures SectionAt(file, |a + b + c|, d)
  {
    var h := a + b + c;
    Under(h + d, e, file);
    Under(h, d, file);
    Under(a + b, c, file);
    Under(a, b, file);
    WholePart(file, a, b);
    WholePart(file, h, d);
    WholePart(file, h + d, e);
  }

  lemma Under(a: Bytes, b: Bytes, file: Bytes)
    requires a + b <= file
    ensures a <= file
  {
    assert (a + b)[..|a|] == a;
  }

  lemma WholePart(file: Bytes, a: Bytes, b: Bytes)
    requires a + b <= file
    ensures |a| + |b| <= |file| && file[|a|..|a| + |b|] == b
  {
    Inside(file, a, b, 0, |b|, |a|);
    assert b[0..|b|] == b;
  }

  ghost predicate SectionAt(file: Bytes, at: nat, shdr: Bytes) {
    at + |shdr| <= |file| && file[at..at + |shdr|] == shdr
  }

  /** A mapping's header in the file reads back as it was meant if and only if the place of its
      memory is below the limit of the header's class. */
  lemma HeaderReadable(file: Bytes, blocks: seq<PhysBlock>, f: Filter, memoryOffset: nat, m: Mapping, class64: bool,
                       big: bool, at: nat, k: nat)
    requires BlocksOk(blocks) && LoadAgrees(file, blocks, f, memoryOffset, m, class64, big, at)
    requires Holder(blocks, f, m.phys, 0) == Some(k)
    ensures ReadOffset(file[at..at + PhdrSize(class64)], class64, big) == RangeOf(blocks, f, memoryOffset, m).0
      <==> memoryOffset + |Stored(blocks[..k], f)| + m.phys - ClipStart(blocks[k], f) < WordLimit(class64)
  {
    hide Describes, PhdrBytes, ReadOffset, ReadFilesz, Stored, Holder, MemoryAgrees, ReaderAgrees, RangeOf, WordLimit;
    var p := LoadOf(blocks, f, memoryOffset, m);
    OffsetReadable(p, class64, big);
    RangeAt(blocks, f, memoryOffset, m, k);
  }

  // ----- the class on a PC -----

  /** cpu_get_dump_info of the i386 target: 64-bit headers in long mode, or when there is a block
      above 4 GiB. */
  method CpuGetDumpInfo(longMode: bool, blocks: seq<PhysBlock>) returns (class64: bool)
    ensures class64 <==> longMode || exists i :: 0 <= i < |blocks| && blocks[i].end > UINT32_MAX
  {
    if longMode {
      return true;
    }
    for i := 0 to |blocks|
      invariant forall j :: 0 <= j < i ==> blocks[j].end <= UINT32_MAX
    {
      if blocks[i].end > UINT32_MAX {
        return true;
      }
    }
    class64 := false;
  }

  /** The blocks, in the order in which the memory listener adds them. */
  ghost predicate Ascending(blocks: seq<PhysBlock>) {
    forall i, j :: 0 <= i < j < |blocks| ==> blocks[i].end <= blocks[j].start
  }

  lemma PieceInside(b: PhysBlock, f: Filter)
    requires BlockOk(b)
    ensures b.start + |Piece(b, f)| <= b.end
  {}

  lemma {:induction false} StoredBelow(blocks: seq<PhysBlock>, f: Filter, k: nat)
    requires k < |blocks| && BlocksOk(blocks) && Ascending(blocks)
    ensures |Stored(blocks[..k], f)| <= blocks[k].start
  {
    hide Stored, Piece, BlockOk, ClipStart, ClipEnd;
    if k == 0 {
      StoredNone(f);
      assert blocks[..0] == [];
    } else {
      StoredMore(blocks, f, k - 1);
      StoredBelow(blocks, f, k - 1);
      PieceInside(blocks[k - 1], f);
    }
  }

  /** With the 32-bit headers this target chooses, sizes always fit; a place does not if and only
      if memory_offset carries it over 4 GiB, and then the header points before the memory, into
      the headers and notes. */
  lemma CutIntoHeaders(file: Bytes, blocks: seq<PhysBlock>, f: Filter, memoryOffset: nat, m: Mapping, big: bool,
                       at: nat, k: nat)
    requires BlocksOk(blocks) && Ascending(blocks) && (forall i :: 0 <= i < |blocks| ==> blocks[i].end <= UINT32_MAX)
    requires LoadAgrees(file, blocks, f, memoryOffset, m, false, big, at) && Holder(blocks, f, m.phys, 0) == Some(k)
    requires memoryOffset <= UINT32_MAX
    ensures ClipEnd(blocks[k], f) - m.phys <= UINT32_MAX
    ensures var offset := memoryOffset + |Stored(blocks[..k], f)| + m.phys - ClipStart(blocks[k], f);
      var read := ReadOffset(file[at..at + PhdrSize(false)], false, big);
      if offset <= UINT32_MAX then read == offset else read < memoryOffset
  {
    hide Describes, PhdrBytes, ReadOffset, ReadFilesz, Stored, Holder, MemoryAgrees, ReaderAgrees, RangeOf;
    StoredBelow(blocks, f, k);
    RangeAt(blocks, f, memoryOffset, m, k);
    OffsetRead(LoadOf(blocks, f, memoryOffset, m), false, big);
  }

  /** qemu_get_guest_simple_memory_mapping. */
  function SimpleMappings(blocks: seq<PhysBlock>): seq<Mapping>
    requires BlocksOk(blocks)
  {
    seq(|blocks|, i requires 0 <= i < |blocks| => Mapping(blocks[i].start, 0, blocks[i].end - blocks[i].start))
  }

  /** cpu_get_note_size of the i386 target outside long mode: a prstatus of 144 bytes and a CPU
      state of 432 for each CPU, with the heads and names of the notes. */
  function NoteSize(cpus: nat): nat {
    cpus * ((12 + 8 + 144) + (12 + 8 + 432))
  }

  const LOW_END: nat := 0xffff_e000
  const HIGH_END: nat := 0xffff_f000

  /** A guest with fourteen CPUs or more whose memory goes up to a page below 4 GiB, dumped whole,
      without paging: 32-bit headers are chosen, every write succeeds, and the header of the last
      page points into the notes. */
  method CutHeader(low: Bytes, high: Bytes, cpus: nat, ehdr: Bytes, shdr: Bytes, notes: Bytes) returns (d: DumpState)
    requires |low| == LOW_END && |high| == HIGH_END - LOW_END && 14 <= cpus <= 255
    requires |ehdr| == EhdrSize(false) && |shdr| == ShdrSize(false) && |notes| == NoteSize(cpus)
    ensures d.blocks == [PhysBlock(0, LOW_END, low), PhysBlock(LOW_END, HIGH_END, high)]
    ensures BlocksOk(d.blocks) && d.list == SimpleMappings(d.blocks) && d.filter == NoFilter
    ensures d.noteSize == NoteSize(cpus) && !d.class64
    ensures d.MaxIndex() == 3 && d.memoryOffset == 148 + NoteSize(cpus)
    ensures LoadAgrees(d.file, d.blocks, NoFilter, d.memoryOffset, d.list[1], false, false, 116)
    ensures RangeOf(d.blocks, NoFilter, d.memoryOffset, d.list[1]) == (d.memoryOffset + LOW_END, HIGH_END - LOW_END)
    ensures ReadOffset(d.file[116..148], false, false) == d.memoryOffset + LOW_END - 0x1_0000_0000 < d.memoryOffset
  {
    hide LoadAgrees, ReadOffset, Stored, RangeOf;
    var blocks := [PhysBlock(0, LOW_END, low), PhysBlock(LOW_END, HIGH_END, high)];
    assert BlocksOk(blocks);
    var class64 := CpuGetDumpInfo(false, blocks);
    d := new DumpState(blocks, NoFilter, SimpleMappings(blocks), NoteSize(cpus), class64, false, _ => true);
    var ok := d.Init();
    assert !Outside(blocks[0], NoFilter);
    ok := d.CreateVmcore(ehdr, shdr, notes);
    assert LoadPlace(false, 1) == 116 && d.list[..2][1] == d.list[1];
    LastPageCut(d.file, blocks, d.memoryOffset, d.list[1], cpus);
  }

  lemma LastPageCut(file: Bytes, blocks: seq<PhysBlock>, memoryOffset: nat, m: Mapping, cpus: nat)
    requires |blocks| == 2 && BlocksOk(blocks) && blocks[0].start == 0 && blocks[0].end == blocks[1].start == LOW_END
    requires blocks[1].end == HIGH_END
    requires m.phys == LOW_END && m.length == HIGH_END - LOW_END && memoryOffset == 148 + NoteSize(cpus)
    requires 14 <= cpus <= 255
    requires LoadAgrees(file, blocks, NoFilter, memoryOffset, m, false, false, 116)
    ensures RangeOf(blocks, NoFilter, memoryOffset, m) == (memoryOffset + LOW_END, HIGH_END - LOW_END)
    ensures ReadOffset(file[116..148], false, false) == memoryOffset + LOW_END - 0x1_0000_0000 < memoryOffset
  {
    hide Describes, PhdrBytes, ReadOffset, ReadFilesz, Stored, Holder, MemoryAgrees, ReaderAgrees, RangeOf;
    LastPageAt(blocks, memoryOffset, m);
    OffsetRead(LoadOf(blocks, NoFilter, memoryOffset, m), false, false);
  }

  lemma LastHolder(blocks: seq<PhysBlock>)
    requires |blocks| == 2 && blocks[0].start == 0 && blocks[0].end == blocks[1].start == LOW_END
    requires blocks[1].end == HIGH_END
    ensures Holder(blocks, NoFilter, LOW_END, 0) == Some(1)
  {
    assert !Contains(blocks[0], NoFilter, LOW_END) && Contains(blocks[1], NoFilter, LOW_END);
  }

  lemma FirstStored(blocks: seq<PhysBlock>)
    requires |blocks| == 2 && BlocksOk(blocks)
    ensures |Stored(blocks[..1], NoFilter)| == blocks[0].end - blocks[0].start
  {
    StoredMore(blocks, NoFilter, 0);
    StoredNone(NoFilter);
    assert blocks[..0] == [];
    hide Stored;
  }

  lemma LastPageAt(blocks: seq<PhysBlock>, memoryOffset: nat, m: Mapping)
    requires |blocks| == 2 && BlocksOk(blocks) && blocks[0].start == 0 && blocks[0].end == blocks[1].start == LOW_END
    requires blocks[1].end == HIGH_END
    requires m.phys == LOW_END && m.length == HIGH_END - LOW_END
    ensures RangeOf(blocks, NoFilter, memoryOffset, m) == (memoryOffset + LOW_END, HIGH_END - LOW_END)
  {
    hide Stored, Holder, RangeOf;
    LastHolder(blocks);
    FirstStored(blocks);
    RangeAt(blocks, NoFilter, memoryOffset, m, 1);
  }

  lemma JoinSlices(before: Bytes, h: Bytes, a: nat, b: nat, c: nat)
    requires a <= b <= c <= |h|
    ensures before + h[a..b] + h[b..c] == before + h[a..c]
  {}

  lemma OneMore(size: nat, n: nat)
    requires n > 0
    ensures size * n == size * (n - 1) + size
  {}

  function Sub(a: nat, b: nat): nat { if a < b then 0 else a - b }

  lemma LoadNone(blocks: seq<PhysBlock>, f: Filter, memoryOffset: nat, class64: bool, big: bool)
    requires BlocksOk(blocks)
    ensures LoadBytes(blocks, f, memoryOffset, [], class64, big) == []
  {}
}
