/** The bytes of the RAM stream: save_page_header and the bodies ram_save_page writes, and the
    loop of ram_load that reads them. */
module RamWire {
  import opened Wrappers
  import opened LongWords
  import opened Endian
  import opened Xbzrle
  import opened RamStream

  const FLAG_COMPRESS: nat := 0x02
  const FLAG_PAGE: nat := 0x08
  const FLAG_EOS: nat := 0x10
  const FLAG_CONTINUE: nat := 0x20
  const FLAG_XBZRLE: nat := 0x40
  const ENCODING_FLAG_XBZRLE: nat := 0x1

  function Kind(body: Body): nat {
    match body
    case Fill(_) => FLAG_COMPRESS
    case Plain(_) => FLAG_PAGE
    case Delta(_) => FLAG_XBZRLE
  }

  function HeaderWord(rec: Record): nat {
    rec.offset * PAGE + Kind(rec.body) + if rec.id.None? then FLAG_CONTINUE else 0
  }

  function NameBytes(id: Option<Bytes>): Bytes
    requires id.Some? ==> |id.value| < 256
  {
    if id.None? then [] else [|id.value|] + id.value
  }

  function BodyBytes(body: Body): Bytes {
    match body
    case Fill(ch) => [ch]
    case Plain(page) => page
    case Delta(bytes) => [ENCODING_FLAG_XBZRLE] + Be(2, |bytes|) + bytes
  }

  /** The bytes of a record. */
  function Wire(rec: Record): Bytes
    requires Sendable(rec)
  {
    Be(8, HeaderWord(rec)) + NameBytes(rec.id) + BodyBytes(rec.body)
  }

  function WireAll(recs: seq<Record>): Bytes
    requires forall i :: 0 <= i < |recs| ==> Sendable(recs[i])
  {
    if recs == [] then Be(8, FLAG_EOS) else Wire(recs[0]) + WireAll(recs[1..])
  }

  /** The name that follows a header, unless the record continues a block. */
  function ParseName(cont: bool, s: Bytes): Option<(Option<Bytes>, Bytes)> {
    if cont then Some((None, s))
    else if |s| < 1 then None
    else
      var len: nat := s[0];
      if |s| < 1 + len then None else Some((Some(s[1..1 + len]), s[1 + len..]))
  }

  /** The body of a record; load_xbzrle refuses other encodings and lengths over a page. */
  function ParseBody(kind: nat, s: Bytes): Option<(Body, Bytes)> {
    if kind == FLAG_COMPRESS then
      if |s| < 1 then None else Some((Fill(s[0]), s[1..]))
    else if kind == FLAG_PAGE then
      if |s| < PAGE then None else Some((Plain(s[..PAGE]), s[PAGE..]))
    else if kind == FLAG_XBZRLE then
      if |s| < 3 then None
      else
        var len := UnBe(s[1..3]);
        if s[0] != ENCODING_FLAG_XBZRLE || len > PAGE || |s| < 3 + len then None
        else Some((Delta(s[3..3 + len]), s[3 + len..]))
    else None
  }

  /** The rest of a record after its header word. */
  function ParseRecord(v: nat, s: Bytes): Option<(Record, Bytes)> {
    var flags := v % PAGE;
    var cont := flags / FLAG_CONTINUE % 2 == 1;
    var name := ParseName(cont, s);
    if name.None? then None
    else
      var body := ParseBody(if cont then flags - FLAG_CONTINUE else flags, name.value.1);
      if body.None? then None else Some((Record(name.value.0, v / PAGE, body.value.0), body.value.1))
  }

  predicate IsEos(v: nat) {
    var flags := v % PAGE;
    flags == FLAG_EOS || flags == FLAG_EOS + FLAG_CONTINUE
  }

  lemma NameRoundTrip(id: Option<Bytes>, rest: Bytes)
    requires id.Some? ==> |id.value| < 256
    ensures ParseName(id.None?, NameBytes(id) + rest) == Some((id, rest))
  {
    if id.Some? {
      var s, len := NameBytes(id) + rest, |id.value|;
      assert s[0] == len && s[1..1 + len] == id.value && s[1 + len..] == rest;
    } else {
      assert NameBytes(id) + rest == rest;
    }
  }

  lemma BodyRoundTrip(body: Body, rest: Bytes)
    requires (body.Plain? ==> |body.page| == PAGE) && (body.Delta? ==> |body.bytes| <= PAGE)
    ensures ParseBody(Kind(body), BodyBytes(body) + rest) == Some((body, rest))
  {
    var s := BodyBytes(body) + rest;
    match body
    case Fill(ch) => assert s[1..] == rest;
    case Plain(page) => assert s[..PAGE] == page && s[PAGE..] == rest;
    case Delta(bytes) =>
      BeRoundTrip(2, |bytes|);
      assert s[1..3] == Be(2, |bytes|);
      assert s[3..3 + |bytes|] == bytes && s[3 + |bytes|..] == rest;
  }

  /** The flags fit below a page offset, and can be told apart. */
  lemma HeaderFields(rec: Record)
    requires Sendable(rec)
    ensures var v := HeaderWord(rec); var flags := v % PAGE;
      && v < Pow256(8) && v / PAGE == rec.offset
      && (flags / FLAG_CONTINUE % 2 == 1 <==> rec.id.None?)
      && flags == Kind(rec.body) + if rec.id.None? then FLAG_CONTINUE else 0
  {
    assert Pow256(8) == 0x1_0000_0000_0000_0000;
  }

  /** Reading what was written gives the record back, and nothing of what follows is read. */
  lemma RecordRoundTrip(rec: Record, rest: Bytes)
    requires Sendable(rec)
    ensures HeaderWord(rec) < Pow256(8) && !IsEos(HeaderWord(rec))
    ensures ParseRecord(HeaderWord(rec), NameBytes(rec.id) + (BodyBytes(rec.body) + rest)) == Some((rec, rest))
  {
    hide HeaderWord, Pow256, ParseName, ParseBody, NameBytes, BodyBytes;
    HeaderFields(rec);
    NameRoundTrip(rec.id, BodyBytes(rec.body) + rest);
    BodyRoundTrip(rec.body, rest);
  }

  /** What is on the wire for a record: a big-endian word of page address and flags, a name with its
      length unless the record continues a block, and the fill byte, the page, or encoding, length and
      bytes of a delta. */
  lemma WireLayout(rec: Record)
    requires Sendable(rec)
    ensures var s := Wire(rec);
      var at := if rec.id.None? then 8 else 9 + |rec.id.value|;
      && |s| >= at >= 8
      && UnBe(s[..8]) == rec.offset * 4096 + (if rec.id.None? then 0x20 else 0)
         + (match rec.body case Fill(_) => 0x02 case Plain(_) => 0x08 case Delta(_) => 0x40)
      && (rec.id.Some? ==> s[8] == |rec.id.value| && s[9..at] == rec.id.value)
      && match rec.body
         case Fill(ch) => s[at..] == [ch]
         case Plain(page) => s[at..] == page
         case Delta(bytes) => |s| >= at + 3 && s[at] == 1 && UnBe(s[at + 1..at + 3]) == |bytes| && s[at + 3..] == bytes
  {
    HeaderFields(rec);
    var h, n, b := Be(8, HeaderWord(rec)), NameBytes(rec.id), BodyBytes(rec.body);
    BeRoundTrip(8, HeaderWord(rec));
    ThreeSlices(h, n, b);
    if rec.body.Delta? {
      BeRoundTrip(2, |rec.body.bytes|);
      assert b[1..3] == Be(2, |rec.body.bytes|) && b[3..] == rec.body.bytes;
      hide Be, UnBe, HeaderWord;
      var s, at := h + n + b, |h| + |n|;
      assert s[at] == b[0] && s[at + 1..at + 3] == b[1..3] && s[at + 3..] == b[3..];
    }
  }

  lemma ThreeSlices(h: Bytes, n: Bytes, b: Bytes)
    ensures var s := h + n + b; s[..|h|] == h && s[|h|..|h| + |n|] == n && s[|h| + |n|..] == b
    ensures n != [] ==> (h + n + b)[|h|] == n[0] && (h + n + b)[|h| + 1..|h| + |n|] == n[1..]
  {}

  lemma NameExact(cont: bool, s: Bytes)
    requires ParseName(cont, s).Some?
    ensures var (id, rest) := ParseName(cont, s).value;
      id.None? == cont && (id.Some? ==> |id.value| < 256) && NameBytes(id) + rest == s
  {}

  lemma BodyExact(kind: nat, s: Bytes)
    requires ParseBody(kind, s).Some?
    ensures var (body, rest) := ParseBody(kind, s).value;
      && Kind(body) == kind && BodyBytes(body) + rest == s
      && (body.Plain? ==> |body.page| == PAGE) && (body.Delta? ==> |body.bytes| <= PAGE)
  {
    if kind == FLAG_XBZRLE {
      UnBeRoundTrip(s[1..3]);
      var len := UnBe(s[1..3]);
      hide UnBe, Be;
      assert [s[0]] + s[1..3] + s[3..3 + len] + s[3 + len..] == s;
    }
  }

  /** Only what a record that can be sent looks like on the wire is read as that record. */
  lemma RecordExact(v: nat, s: Bytes)
    requires v < Pow256(8) && ParseRecord(v, s).Some?
    ensures var (rec, rest) := ParseRecord(v, s).value;
      Sendable(rec) && HeaderWord(rec) == v && NameBytes(rec.id) + (BodyBytes(rec.body) + rest) == s
  {
    assert Pow256(8) == 0x1_0000_0000_0000_0000;
    var flags := v % PAGE;
    var cont := flags / FLAG_CONTINUE % 2 == 1;
    NameExact(cont, s);
    BodyExact(if cont then flags - FLAG_CONTINUE else flags, ParseName(cont, s).value.1);
    hide ParseName, ParseBody, NameBytes, BodyBytes, Pow256;
  }

  /** ram_load: records are taken from the stream and applied, up to an end marker. */
  function LoadBytes(blocks: seq<Block>, r: Receiver, s: Bytes): Option<(Receiver, Bytes)>
    decreases |s|
  {
    if |s| < 8 then None
    else
      var v := UnBe(s[..8]);
      if IsEos(v) then Some((r, s[8..]))
      else
        var rec := ParseRecord(v, s[8..]);
        if rec.None? || |rec.value.1| >= |s| then None
        else
          var next := Load(blocks, r, rec.value.0);
          if next.None? then None else LoadBytes(blocks, next.value, rec.value.1)
  }

  lemma WireParts(rec: Record, rest: Bytes)
    requires Sendable(rec)
    ensures var s := Wire(rec) + rest;
      |s| > 8 + |rest| && s[..8] == Be(8, HeaderWord(rec)) && s[8..] == NameBytes(rec.id) + (BodyBytes(rec.body) + rest)
  {
    BodyNotEmpty(rec);
    hide Be, HeaderWord, NameBytes, BodyBytes, Sendable;
    ThreeParts(Be(8, HeaderWord(rec)), NameBytes(rec.id), BodyBytes(rec.body), rest);
  }

  lemma BodyNotEmpty(rec: Record)
    requires Sendable(rec)
    ensures BodyBytes(rec.body) != []
  {}

  lemma ThreeParts(a: Bytes, b: Bytes, c: Bytes, rest: Bytes)
    requires |a| == 8
    ensures (a + b + c + rest)[..8] == a && (a + b + c + rest)[8..] == b + (c + rest)
  {}

  /** Loading the bytes of a record does what the record says. */
  lemma LoadOne(blocks: seq<Block>, r: Receiver, rec: Record, rest: Bytes)
    requires Sendable(rec)
    ensures LoadBytes(blocks, r, Wire(rec) + rest) ==
      var next := Load(blocks, r, rec); if next.None? then None else LoadBytes(blocks, next.value, rest)
  {
    hide ParseRecord, Load, UnBe, Be, NameBytes, BodyBytes, HeaderWord, Sendable, Wire, IsEos, Pow256;
    RecordRoundTrip(rec, rest);
    BeRoundTrip(8, HeaderWord(rec));
    WireParts(rec, rest);
  }

  /** Loading a section of the stream does what its records say. */
  lemma {:induction false} LoadSection(blocks: seq<Block>, r: Receiver, recs: seq<Record>, rest: Bytes)
    requires forall i :: 0 <= i < |recs| ==> Sendable(recs[i])
    ensures LoadBytes(blocks, r, WireAll(recs) + rest) ==
      var end := LoadAll(blocks, r, recs); if end.None? then None else Some((end.value, rest))
    decreases |recs|
  {
    hide ParseRecord, Load, Wire;
    var s := WireAll(recs) + rest;
    if recs == [] {
      BeRoundTrip(8, FLAG_EOS);
      assert s[..8] == Be(8, FLAG_EOS) && s[8..] == rest;
    } else {
      var rec, tail := recs[0], WireAll(recs[1..]) + rest;
      assert s == Wire(rec) + tail;
      LoadOne(blocks, r, rec, tail);
      LoadFirst(blocks, r, recs);
      var next := Load(blocks, r, rec);
      if next.Some? { LoadSection(blocks, next.value, recs[1..], rest); }
    }
  }

  ghost predicate AllSendable(recs: seq<Record>) {
    forall i :: 0 <= i < |recs| ==> Sendable(recs[i])
  }

  /** Where loading a section ends, with what is left of the stream. */
  function Ended(r: Option<Receiver>, rest: Bytes): Option<(Receiver, Bytes)> {
    if r.None? then None else Some((r.value, rest))
  }

  /** Records without an end marker. */
  function WireMany(recs: seq<Record>): Bytes
    requires forall i :: 0 <= i < |recs| ==> Sendable(recs[i])
  {
    if recs == [] then [] else Wire(recs[0]) + WireMany(recs[1..])
  }

  lemma WordAgain(s: Bytes)
    requires |s| >= 8
    ensures UnBe(s[..8]) < Pow256(8) && Be(8, UnBe(s[..8])) + s[8..] == s
  {
    UnBeRoundTrip(s[..8]);
  }

  lemma WireFirst(rec: Record, rest: Bytes, s: Bytes)
    requires Sendable(rec) && |s| >= 8 && Be(8, HeaderWord(rec)) + s[8..] == s
    requires NameBytes(rec.id) + (BodyBytes(rec.body) + rest) == s[8..]
    ensures Wire(rec) + rest == s
  {
    hide Be, HeaderWord, NameBytes, BodyBytes;
    assert Wire(rec) + rest == Be(8, HeaderWord(rec)) + (NameBytes(rec.id) + (BodyBytes(rec.body) + rest));
  }

  lemma EosWord(v: nat)
    ensures IsEos(v) <==> v % 4096 == 0x10 || v % 4096 == 0x30
  {}

  /** Records load up to any word with the end flag, whatever address comes with it and whether or not
      it continues a block. */
  lemma {:induction false} LoadUpTo(blocks: seq<Block>, r: Receiver, recs: seq<Record>, v: nat, rest: Bytes)
    requires AllSendable(recs) && v < Pow256(8) && (v % 4096 == 0x10 || v % 4096 == 0x30)
    ensures LoadBytes(blocks, r, WireMany(recs) + (Be(8, v) + rest)) == Ended(LoadAll(blocks, r, recs), rest)
    decreases |recs|
  {
    hide ParseRecord, Load, Wire, Be, UnBe, IsEos, Sendable, Pow256;
    var end := Be(8, v) + rest;
    var s := WireMany(recs) + end;
    if recs == [] {
      EosWord(v);
      BeRoundTrip(8, v);
      assert s[..8] == Be(8, v) && s[8..] == rest;
    } else {
      var rec, tail := recs[0], WireMany(recs[1..]) + end;
      assert s == Wire(rec) + tail;
      LoadOne(blocks, r, rec, tail);
      LoadFirst(blocks, r, recs);
      var next := Load(blocks, r, rec);
      if next.Some? { LoadUpTo(blocks, next.value, recs[1..], v, rest); }
    }
  }

  /** Nothing else is accepted: bytes that load are those of records that can be sent, which all
      load, and of an end marker, and the rest is left. */
  lemma {:induction false} LoadOnly(blocks: seq<Block>, r: Receiver, s: Bytes) returns (recs: seq<Record>, v: nat)
    requires LoadBytes(blocks, r, s).Some?
    ensures AllSendable(recs) && v < Pow256(8) && (v % 4096 == 0x10 || v % 4096 == 0x30)
    ensures s == WireMany(recs) + (Be(8, v) + LoadBytes(blocks, r, s).value.1)
    ensures LoadAll(blocks, r, recs) == Some(LoadBytes(blocks, r, s).value.0)
    decreases |s|
  {
    hide ParseRecord, Load, Wire, IsEos, UnBe, Be, Pow256, Sendable;
    v := UnBe(s[..8]);
    WordAgain(s);
    EosWord(v);
    if IsEos(v) {
      recs := [];
    } else {
      var (rec, rest) := ParseRecord(v, s[8..]).value;
      RecordExact(v, s[8..]);
      WireFirst(rec, rest, s);
      var next := Load(blocks, r, rec).value;
      var more;
      more, v := LoadOnly(blocks, next, rest);
      recs := [rec] + more;
      assert recs[0] == rec && recs[1..] == more;
      LoadFirst(blocks, r, recs);
      Regroup(Wire(rec), WireMany(more), Be(8, v) + LoadBytes(blocks, next, rest).value.1);
    }
  }

  lemma Regroup(a: Bytes, b: Bytes, c: Bytes)
    ensures a + (b + c) == a + b + c
  {}

  function Flatten(sections: seq<seq<Record>>): seq<Record> {
    if sections == [] then [] else sections[0] + Flatten(sections[1..])
  }

  function WireSections(sections: seq<seq<Record>>): Bytes
    requires forall i, j :: 0 <= i < |sections| && 0 <= j < |sections[i]| ==> Sendable(sections[i][j])
  {
    if sections == [] then [] else WireAll(sections[0]) + WireSections(sections[1..])
  }

  /** One ram_load after another; the block that CONTINUE refers to is kept between them. */
  function LoadSections(blocks: seq<Block>, r: Receiver, n: nat, s: Bytes): Option<Receiver>
    decreases n
  {
    if n == 0 then Some(r)
    else
      var one := LoadBytes(blocks, r, s);
      if one.None? then None else LoadSections(blocks, one.value.0, n - 1, one.value.1)
  }

  /** However the records are cut into sections, loading the sections does what they say. */
  lemma {:induction false} SectionsRoundTrip(blocks: seq<Block>, r: Receiver, sections: seq<seq<Record>>)
    requires forall i, j :: 0 <= i < |sections| && 0 <= j < |sections[i]| ==> Sendable(sections[i][j])
    ensures LoadSections(blocks, r, |sections|, WireSections(sections)) == LoadAll(blocks, r, Flatten(sections))
    decreases |sections|
  {
    if sections != [] {
      var rest := sections[1..];
      LoadSection(blocks, r, sections[0], WireSections(rest));
      LoadParts(blocks, r, sections[0], Flatten(rest));
      var one := LoadAll(blocks, r, sections[0]);
      if one.Some? { SectionsRoundTrip(blocks, one.value, rest); }
    }
  }

  /** What can be sent at all can be sent in sections. */
  lemma {:induction false} CutSendable(sections: seq<seq<Record>>)
    requires AllSendable(Flatten(sections))
    ensures forall i :: 0 <= i < |sections| ==> AllSendable(sections[i])
  {
    if sections != [] {
      hide Sendable;
      var first, rest := sections[0], Flatten(sections[1..]);
      assert forall j :: 0 <= j < |first| ==> (first + rest)[j] == first[j];
      assert forall j :: 0 <= j < |rest| ==> (first + rest)[|first| + j] == rest[j];
      CutSendable(sections[1..]);
      assert forall i :: 0 < i < |sections| ==> sections[i] == sections[1..][i - 1];
    }
  }

  /** The sections' bytes, loaded one section after the other, leave the receiver with r'. */
  ghost predicate SectionsLoad(blocks: seq<Block>, r: Receiver, sections: seq<seq<Record>>, r': Receiver) {
    && (forall i :: 0 <= i < |sections| ==> AllSendable(sections[i]))
    && LoadSections(blocks, r, |sections|, WireSections(sections)) == Some(r')
  }

  /** However a stream is cut into sections, it leaves the receiver with r'. */
  ghost predicate EveryCutLoads(blocks: seq<Block>, r: Receiver, recs: seq<Record>, r': Receiver) {
    forall sections :: Flatten(sections) == recs ==> SectionsLoad(blocks, r, sections, r')
  }

  lemma CutsLoad(blocks: seq<Block>, r: Receiver, recs: seq<Record>, r': Receiver)
    requires AllSendable(recs) && LoadAll(blocks, r, recs) == Some(r')
    ensures EveryCutLoads(blocks, r, recs, r')
  {
    hide Flatten, LoadSections, WireSections, LoadAll, Sendable;
    forall sections | Flatten(sections) == recs ensures SectionsLoad(blocks, r, sections, r') {
      CutSendable(sections);
      SectionsRoundTrip(blocks, r, sections);
    }
  }

  /** host_from_stream_offset. */
  method HostFromStreamOffset(blocks: seq<Block>, cur: Option<nat>, rec: Record) returns (block: Option<nat>)
    ensures block == Locate(blocks, cur, rec)
  {
    if rec.id.None? {
      if cur.None? || cur.value >= |blocks| || blocks[cur.value].len <= rec.offset {
        return None;
      }
      return cur;
    }
    var i := 0;
    while i < |blocks|
      invariant 0 <= i <= |blocks|
      invariant FindBlock(blocks, rec.id.value, rec.offset, i) == FindBlock(blocks, rec.id.value, rec.offset, 0)
    {
      if blocks[i].id == rec.id.value && blocks[i].len > rec.offset {
        return Some(i);
      }
      i := i + 1;
    }
    block := None;
  }

  /** What a record that is not refused does: the page it names is filled with its byte, is the
      page sent, or is what the delta makes of it; and no other page changes. */
  ghost predicate Loaded(blocks: seq<Block>, r: Receiver, rec: Record, r': Receiver) {
    && r'.cur.Some? && r'.cur == Locate(blocks, r.cur, rec) && r'.cur.value < |blocks|
    && |r'.ram| == |r.ram|
    && var p := blocks[r'.cur.value].base + rec.offset;
       && p < |r.ram| && (forall q :: 0 <= q < |r.ram| && q != p ==> r'.ram[q] == r.ram[q])
       && match rec.body
          case Fill(ch) => |r'.ram[p]| == PAGE && forall k :: 0 <= k < PAGE ==> r'.ram[p][k] == ch
          case Plain(page) => r'.ram[p] == page
          case Delta(bytes) => var d := Dec(bytes, 0, r.ram[p], 0); d.Some? && r'.ram[p] == d.value.0
  }

  /** No block has the page, or the delta is too long or malformed. */
  ghost predicate Refused(blocks: seq<Block>, r: Receiver, rec: Record) {
    var b := Locate(blocks, r.cur, rec);
    if b.None? || b.value >= |blocks| then true
    else
      var p := blocks[b.value].base + rec.offset;
      || p >= |r.ram|
      || (rec.body.Delta? && (|rec.body.bytes| > PAGE || Dec(rec.body.bytes, 0, r.ram[p], 0).None?))
  }

  /** One round of ram_load's loop after the record is read. */
  method LoadRecord(blocks: seq<Block>, r: Receiver, rec: Record) returns (next: Option<Receiver>)
    ensures next == Load(blocks, r, rec)
    ensures next.Some? ==> Loaded(blocks, r, rec, next.value)
    ensures next.None? <==> Refused(blocks, r, rec)
  {
    var block := HostFromStreamOffset(blocks, r.cur, rec);
    if block.None? || block.value >= |blocks| || blocks[block.value].base + rec.offset >= |r.ram| {
      return None;
    }
    var p := blocks[block.value].base + rec.offset;
    match rec.body
    case Fill(ch) => next := Some(Receiver(block, r.ram[p := Filled(ch)]));
    case Plain(page) => next := Some(Receiver(block, r.ram[p := page]));
    case Delta(bytes) =>
      if |bytes| > PAGE {
        return None;
      }
      var ret, page := DecodeBuffer(bytes, r.ram[p]);
      next := if ret == -1 then None else Some(Receiver(block, r.ram[p := page]));
  }

  /** The loop of ram_load. */
  method RamLoad(blocks: seq<Block>, r0: Receiver, s: Bytes) returns (end: Option<(Receiver, Bytes)>)
    ensures end == LoadBytes(blocks, r0, s)
    ensures forall recs, rest :: AllSendable(recs) && s == WireAll(recs) + rest ==>
      end == Ended(LoadAll(blocks, r0, recs), rest)
  {
    hide Load, ParseRecord;
    forall recs, rest | AllSendable(recs) && s == WireAll(recs) + rest
      ensures LoadBytes(blocks, r0, s) == Ended(LoadAll(blocks, r0, recs), rest)
    {
      hide LoadBytes, LoadAll, WireAll, Sendable;
      LoadSection(blocks, r0, recs, rest);
    }
    var r, rest := r0, s;
    while |rest| >= 8
      invariant LoadBytes(blocks, r, rest) == LoadBytes(blocks, r0, s)
      decreases |rest|
    {
      var v := UnBe(rest[..8]);
      if IsEos(v) {
        return Some((r, rest[8..]));
      }
      var rec := ParseRecord(v, rest[8..]);
      if rec.None? || |rec.value.1| >= |rest| {
        return None;
      }
      var next := LoadRecord(blocks, r, rec.value.0);
      if next.None? {
        return None;
      }
      r, rest := next.value, rec.value.1;
    }
    end := None;
  }
}
