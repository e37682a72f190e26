/** The RAM migration stream: what the sender writes for a page and what the receiver makes
    of it (save_page_header, host_from_stream_offset, load_xbzrle and ram_load of arch_init.c). */
module RamStream {
  import opened Wrappers
  import opened LongWords
  import opened Xbzrle

  const PAGE: nat := 4096

  // In pages: `base` is the block's place in the RAM address space.
  datatype Block = Block(id: Bytes, base: nat, len: nat)

  datatype Body = Fill(ch: Byte) | Plain(page: Bytes) | Delta(bytes: Bytes)

  // A missing id is the CONTINUE flag: same block as the record before.
  datatype Record = Record(id: Option<Bytes>, offset: nat, body: Body)

  datatype Receiver = Receiver(cur: Option<nat>, ram: seq<Bytes>)

  function Filled(ch: Byte): (z: Bytes)
    ensures |z| == PAGE && forall k :: 0 <= k < PAGE ==> z[k] == ch
  {
    seq(PAGE, _ => ch)
  }

  function ZeroPage(): (z: Bytes) { Filled(0) }

  /** is_zero_range, on a page. */
  predicate AllZero(page: Bytes) {
    forall k :: 0 <= k < |page| ==> page[k] == 0
  }

  lemma ZeroPageIs(page: Bytes)
    requires |page| == PAGE
    ensures page == ZeroPage() <==> AllZero(page)
  {}

  /** A record that fits its fields on the wire. */
  predicate Sendable(rec: Record) {
    && (rec.offset + 1) * PAGE <= 0x1_0000_0000_0000_0000
    && (rec.id.Some? ==> |rec.id.value| < 256)
    && (rec.body.Plain? ==> |rec.body.page| == PAGE)
    && (rec.body.Delta? ==> |rec.body.bytes| <= PAGE)
  }

  /** idstr has 256 characters with its end; lengths are 64 bits of bytes. */
  predicate BlockOk(b: Block) {
    |b.id| < 256 && b.len * PAGE <= 0x1_0000_0000_0000_0000
  }

  /** Distinct names, disjoint places. */
  ghost predicate BlocksOk(blocks: seq<Block>, total: nat) {
    && (forall i :: 0 <= i < |blocks| ==>
          blocks[i].len > 0 && blocks[i].base + blocks[i].len <= total && BlockOk(blocks[i]))
    && (forall i, j :: 0 <= i < j < |blocks| ==> blocks[i].id != blocks[j].id)
    && (forall i, j :: 0 <= i < j < |blocks| ==>
          blocks[i].base + blocks[i].len <= blocks[j].base || blocks[j].base + blocks[j].len <= blocks[i].base)
  }

  /** The block a name and an offset lead to: the first with that name and that long. */
  function FindBlock(blocks: seq<Block>, id: Bytes, offset: nat, i: nat): Option<nat>
    decreases |blocks| - i
  {
    if i >= |blocks| then None
    else if blocks[i].id == id && blocks[i].len > offset then Some(i)
    else FindBlock(blocks, id, offset, i + 1)
  }

  /** host_from_stream_offset: the receiver's block after a record. */
  function Locate(blocks: seq<Block>, cur: Option<nat>, rec: Record): Option<nat> {
    if rec.id.None? then
      if cur.Some? && cur.value < |blocks| && rec.offset < blocks[cur.value].len then cur else None
    else FindBlock(blocks, rec.id.value, rec.offset, 0)
  }

  /** The page a record's body makes of the receiver's page. */
  function Apply(body: Body, page: Bytes): Option<Bytes> {
    match body
    case Fill(ch) => Some(Filled(ch))
    case Plain(p) => Some(p)
    case Delta(bytes) =>
      if |bytes| > PAGE then None
      else
        var r := Dec(bytes, 0, page, 0);
        if r.None? then None else Some(r.value.0)
  }

  /** ram_load of one page record. */
  function Load(blocks: seq<Block>, r: Receiver, rec: Record): Option<Receiver> {
    var b := Locate(blocks, r.cur, rec);
    if b.None? || b.value >= |blocks| then None
    else
      var p := blocks[b.value].base + rec.offset;
      if p >= |r.ram| then None
      else
        var page := Apply(rec.body, r.ram[p]);
        if page.None? then None else Some(Receiver(b, r.ram[p := page.value]))
  }

  function LoadAll(blocks: seq<Block>, r: Receiver, recs: seq<Record>): Option<Receiver> {
    if recs == [] then Some(r)
    else
      var before := LoadAll(blocks, r, recs[..|recs| - 1]);
      if before.None? then None else Load(blocks, before.value, recs[|recs| - 1])
  }

  lemma LoadSnoc(blocks: seq<Block>, r: Receiver, recs: seq<Record>, rec: Record)
    requires LoadAll(blocks, r, recs).Some?
    ensures LoadAll(blocks, r, recs + [rec]) == Load(blocks, LoadAll(blocks, r, recs).value, rec)
  {
    assert (recs + [rec])[..|recs + [rec]| - 1] == recs;
  }

  /** The first record first. */
  lemma {:induction false} LoadFirst(blocks: seq<Block>, r: Receiver, recs: seq<Record>)
    requires recs != []
    ensures LoadAll(blocks, r, recs) ==
      var one := Load(blocks, r, recs[0]); if one.None? then None else LoadAll(blocks, one.value, recs[1..])
  {
    var n := |recs| - 1;
    if n == 0 {
      assert LoadAll(blocks, r, recs[..0]) == Some(r);
    } else {
      LoadFirst(blocks, r, recs[..n]);
      assert recs[..n][1..] == recs[1..][..n - 1];
    }
  }

  /** A stream in two parts. */
  lemma {:induction false} LoadParts(blocks: seq<Block>, r: Receiver, a: seq<Record>, b: seq<Record>)
    ensures LoadAll(blocks, r, a + b) ==
      var one := LoadAll(blocks, r, a); if one.None? then None else LoadAll(blocks, one.value, b)
  {
    if b == [] {
      assert a + b == a;
    } else {
      var n := |b| - 1;
      LoadParts(blocks, r, a, b[..n]);
      assert (a + b)[..|a + b| - 1] == a + b[..n];
    }
  }

  /** The record header the sender writes for page `offset` of block b. */
  function Header(blocks: seq<Block>, b: nat, offset: nat, lastSent: Option<nat>, body: Body): Record
    requires b < |blocks|
  {
    Record(if lastSent == Some(b) then None else Some(blocks[b].id), offset, body)
  }

  lemma {:induction false} FindOwn(blocks: seq<Block>, b: nat, offset: nat, i: nat, total: nat)
    requires BlocksOk(blocks, total) && i <= b < |blocks| && offset < blocks[b].len
    ensures FindBlock(blocks, blocks[b].id, offset, i) == Some(b)
    decreases b - i
  {
    if i < b { FindOwn(blocks, b, offset, i + 1, total); }
  }

  /** The receiver, when its block is the one the sender last sent from, resolves the header to
      the sender's block, named or continued. */
  lemma LocateHeader(blocks: seq<Block>, total: nat, b: nat, offset: nat, lastSent: Option<nat>, body: Body)
    requires BlocksOk(blocks, total) && b < |blocks| && offset < blocks[b].len
    ensures Locate(blocks, lastSent, Header(blocks, b, offset, lastSent, body)) == Some(b)
  {
    FindOwn(blocks, b, offset, 0, total);
  }

  lemma HeaderSendable(blocks: seq<Block>, total: nat, b: nat, offset: nat, lastSent: Option<nat>, body: Body)
    requires BlocksOk(blocks, total) && b < |blocks| && offset < blocks[b].len
    requires (body.Plain? ==> |body.page| == PAGE) && (body.Delta? ==> |body.bytes| <= PAGE)
    ensures Sendable(Header(blocks, b, offset, lastSent, body))
  {}

  /** A delta against the page the receiver has rebuilds the page it was made from. */
  lemma DeltaRebuilds(prev: Bytes, cur: Bytes)
    requires |prev| == |cur| == PAGE && |Enc(prev, cur)| <= PAGE
    ensures Apply(Delta(Enc(prev, cur)), prev) == Some(cur)
  {
    RoundTrip(prev, cur);
  }
}
