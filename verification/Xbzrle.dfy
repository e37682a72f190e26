/** The page delta codec of migration/xbzrle.c. */
module Xbzrle {
  import opened Wrappers
  import opened LongWords

  const ULEB_MAX: nat := 0x3fff

  // ----- run lengths -----

  /** How many bytes from i on are equal in the two buffers. */
  function EqualRun(a: Bytes, b: Bytes, i: nat): (n: nat)
    requires |a| == |b| && i <= |a|
    ensures i + n <= |a| && (i + n < |a| ==> a[i + n] != b[i + n])
    ensures forall k :: i <= k < i + n ==> a[k] == b[k]
    decreases |a| - i
  {
    if i < |a| && a[i] == b[i] then 1 + EqualRun(a, b, i + 1) else 0
  }

  /** How many bytes from i on differ. */
  function DiffRun(a: Bytes, b: Bytes, i: nat): (n: nat)
    requires |a| == |b| && i <= |a|
    ensures i + n <= |a| && (i + n < |a| ==> a[i + n] == b[i + n])
    ensures forall k :: i <= k < i + n ==> a[k] != b[k]
    decreases |a| - i
  {
    if i < |a| && a[i] != b[i] then 1 + DiffRun(a, b, i + 1) else 0
  }

  lemma RunUnique(a: Bytes, b: Bytes, i: nat, n: nat)
    requires |a| == |b| && i + n <= |a|
    ensures (forall k :: i <= k < i + n ==> a[k] == b[k]) && (i + n < |a| ==> a[i + n] != b[i + n]) ==>
      n == EqualRun(a, b, i)
    ensures (forall k :: i <= k < i + n ==> a[k] != b[k]) && (i + n < |a| ==> a[i + n] == b[i + n]) ==>
      n == DiffRun(a, b, i)
  {
    var e, d := EqualRun(a, b, i), DiffRun(a, b, i);
    if e < n { assert a[i + e] != b[i + e]; }
    if d < n { assert a[i + d] == b[i + d]; }
  }

  /** The zrun loops of xbzrle_encode_buffer. */
  method SkipEqual(old_: Bytes, new_: Bytes, start: nat) returns (i: nat)
    requires |old_| == |new_| && |old_| % WORD == 0 && start <= |old_|
    ensures i == start + EqualRun(old_, new_, start)
  {
    var slen := |old_|;
    i := start;
    var res: nat := (slen - i) % WORD;
    ghost var q := (slen - i) / WORD;
    while res != 0 && old_[i] == new_[i]
      invariant start <= i <= slen && slen - i == WORD * q + res && q >= 0
      invariant forall k :: start <= k < i ==> old_[k] == new_[k]
      decreases res
    {
      i := i + 1;
      res := res - 1;
    }
    if res == 0 {
      var same := true;
      while i < slen && same
        invariant start <= i <= slen && slen - i == WORD * q
        invariant forall k :: start <= k < i ==> old_[k] == new_[k]
        decreases slen - i, same
      {
        same := SameLong(old_, new_, i);
        if same {
          i := i + WORD;
          q := q - 1;
        }
      }
      while i < slen && old_[i] == new_[i]
        invariant start <= i <= slen
        invariant forall k :: start <= k < i ==> old_[k] == new_[k]
      {
        i := i + 1;
      }
    }
    RunUnique(old_, new_, start, i - start);
  }

  /** The end of a run of different bytes that is known to be near. */
  method ToEqual(a: Bytes, b: Bytes, start: nat) returns (i: nat)
    requires |a| == |b| && exists k :: start <= k < |a| && a[k] == b[k]
    ensures start <= i < |a| && a[i] == b[i] && forall k :: start <= k < i ==> a[k] != b[k]
  {
    ghost var stop :| start <= stop < |a| && a[stop] == b[stop];
    i := start;
    while a[i] != b[i]
      invariant start <= i <= stop
      invariant forall k :: start <= k < i ==> a[k] != b[k]
      decreases stop - i
    {
      i := i + 1;
    }
  }

  /** The nzrun loops of xbzrle_encode_buffer. */
  method SkipDiff(old_: Bytes, new_: Bytes, start: nat) returns (i: nat)
    requires |old_| == |new_| && |old_| % WORD == 0 && start <= |old_|
    ensures i == start + DiffRun(old_, new_, start)
  {
    var slen := |old_|;
    i := start;
    var res: nat := (slen - i) % WORD;
    ghost var q := (slen - i) / WORD;
    while res != 0 && old_[i] != new_[i]
      invariant start <= i <= slen && slen - i == WORD * q + res && q >= 0
      invariant forall k :: start <= k < i ==> old_[k] != new_[k]
      decreases res
    {
      i := i + 1;
      res := res - 1;
    }
    if res == 0 {
      var found := false;
      while i < slen && !found
        invariant start <= i <= slen && (!found ==> slen - i == WORD * q)
        invariant forall k :: start <= k < i ==> old_[k] != new_[k]
        invariant found ==> i < slen && old_[i] == new_[i]
        decreases !found, slen - i
      {
        var zeroByte := HasEqualByte(old_, new_, i);
        if zeroByte {
          i := ToEqual(old_, new_, i);
          found := true;
        } else {
          i := i + WORD;
          q := q - 1;
        }
      }
    }
    RunUnique(old_, new_, start, i - start);
  }

  // ----- the format -----

  /** uleb128_encode_small. */
  function Uleb(n: nat): (r: Bytes)
    requires n <= ULEB_MAX
    ensures 1 <= |r| <= 2
  {
    if n < 0x80 then [n] else [n % 0x80 + 0x80, n / 0x80]
  }

  /** uleb128_decode_small: the number and the bytes it takes. */
  function UnUleb(b0: Byte, b1: Byte): Option<(nat, nat)> {
    if b0 < 0x80 then Some((b0, 1))
    else if b1 >= 0x80 then None
    else Some((b0 - 0x80 + b1 * 0x80, 2))
  }

  /** Exactly a third byte is refused; what is read has 14 bits at most. */
  lemma UlebRange(b0: Byte, b1: Byte)
    ensures UnUleb(b0, b1).None? <==> b0 >= 0x80 && b1 >= 0x80
    ensures UnUleb(b0, b1).Some? ==> UnUleb(b0, b1).value.0 <= ULEB_MAX && 1 <= UnUleb(b0, b1).value.1 <= 2
  {}

  lemma UlebRoundTrip(n: nat, b0: Byte, b1: Byte)
    requires n <= ULEB_MAX && b0 == Uleb(n)[0] && (|Uleb(n)| == 2 ==> b1 == Uleb(n)[1])
    ensures UnUleb(b0, b1) == Some((n, |Uleb(n)|))
  {}

  /** A page delta: skip z bytes, then `data`, and so on. */
  datatype Delta = Done | Run(z: nat, data: Bytes, rest: Delta)

  /** The delta from byte i on; a last run of equal bytes is left out. */
  function DeltaOf(a: Bytes, b: Bytes, i: nat): Delta
    requires |a| == |b| && i <= |a|
    decreases |a| - i
  {
    var j := i + EqualRun(a, b, i);
    if j == |a| then Done
    else
      var n := DiffRun(a, b, j);
      Run(j - i, b[j..j + n], DeltaOf(a, b, j + n))
  }

  predicate Short(t: Delta) { t.Run? ==> t.z <= ULEB_MAX && 0 < |t.data| <= ULEB_MAX && Short(t.rest) }

  /** The bytes of a delta: zrun, nzrun, the run's bytes. */
  function Serialise(t: Delta): Bytes
    requires Short(t)
  {
    if t.Done? then [] else Uleb(t.z) + Uleb(|t.data|) + t.data + Serialise(t.rest)
  }

  /** The encoding of a page b over a page a. */
  function Enc(a: Bytes, b: Bytes): Bytes
    requires |a| == |b| <= ULEB_MAX
  {
    DeltaShort(a, b, 0);
    Serialise(DeltaOf(a, b, 0))
  }

  lemma {:induction false} DeltaShort(a: Bytes, b: Bytes, i: nat)
    requires |a| == |b| <= ULEB_MAX && i <= |a|
    ensures Short(DeltaOf(a, b, i))
    decreases |a| - i
  {
    var j := i + EqualRun(a, b, i);
    if j < |a| { DeltaShort(a, b, j + DiffRun(a, b, j)); }
  }

  /** The two run lengths at source byte i and where the run's bytes start, as
      xbzrle_decode_buffer reads them with d page bytes done of a page of `size`. */
  function Runs(src: Bytes, i: nat, d: nat, size: nat): Option<(nat, nat, nat)>
    requires i < |src|
  {
    if |src| - i < 2 then None
    else
      var z := UnUleb(src[i], src[i + 1]);
      if z.None? || (i > 0 && z.value.0 == 0) then None
      else
        var i1 := i + z.value.1;
        if d + z.value.0 > size || |src| - i1 < 2 then None
        else
          var n := UnUleb(src[i1], src[i1 + 1]);
          if n.None? || n.value.0 == 0 then None
          else
            var i2 := i1 + n.value.1;
            if d + z.value.0 + n.value.0 > size || i2 + n.value.0 > |src| then None
            else Some((z.value.0, n.value.0, i2))
  }

  /** The page with `data` copied in at byte `at`. */
  function Splice(dst: Bytes, at: nat, data: Bytes): (r: Bytes)
    requires at + |data| <= |dst|
    ensures |r| == |dst|
  {
    dst[..at] + data + dst[at + |data|..]
  }

  /** The loop of xbzrle_decode_buffer from source byte i and page byte d on. */
  function Dec(src: Bytes, i: nat, dst: Bytes, d: nat): Option<(Bytes, nat)>
    decreases |src| - i
  {
    if i >= |src| then Some((dst, d))
    else
      var r := Runs(src, i, d, |dst|);
      if r.None? then None
      else
        var (z, n, k) := r.value;
        Dec(src, k + n, Splice(dst, d + z, src[k..k + n]), d + z + n)
  }

  /** What a delta does to a page from byte d on. */
  function Patch(t: Delta, dst: Bytes, d: nat): (Bytes, nat)
    requires d + Extent(t) <= |dst|
    decreases t
  {
    if t.Done? then (dst, d)
    else
      var n := |t.data|;
      Patch(t.rest, Splice(dst, d + t.z, t.data), d + t.z + n)
  }

  function Extent(t: Delta): nat { if t.Done? then 0 else t.z + |t.data| + Extent(t.rest) }

  /** After the first run, runs of equal bytes are not empty. */
  predicate Separated(t: Delta, first: bool) { t.Run? ==> (first || t.z > 0) && Separated(t.rest, false) }

  // ----- reading a delta back -----

  /** Reading back the two run lengths x and y. */
  lemma RunsRead(src: Bytes, p: nat, x: Bytes, y: Bytes, z: nat, n: nat, d: nat, size: nat)
    requires z <= ULEB_MAX && 0 < n <= ULEB_MAX && x == Uleb(z) && y == Uleb(n) && (p > 0 ==> z > 0)
    requires d + z + n <= size
    requires p + |x| + |y| + n <= |src| && src[p..p + |x|] == x && src[p + |x|..p + |x| + |y|] == y
    ensures Runs(src, p, d, size) == Some((z, n, p + |x| + |y|))
  {
    var i1 := p + |x|;
    assert src[p] == x[0] && (|x| == 2 ==> src[p + 1] == x[1]);
    assert src[i1] == y[0] && (|y| == 2 ==> src[i1 + 1] == y[1]);
    UlebRoundTrip(z, src[p], src[p + 1]);
    UlebRoundTrip(n, src[i1], src[i1 + 1]);
  }

  lemma FirstPart(src: Bytes, p: nat, x: Bytes, w: Bytes)
    requires p <= |src| && src[p..] == x + w
    ensures p + |x| <= |src| && src[p..p + |x|] == x && src[p + |x|..] == w
  {
    assert |src| - p == |src[p..]| == |x| + |w|;
    assert src[p..p + |x|] == src[p..][..|x|] && src[p + |x|..] == src[p..][|x|..];
  }

  lemma FourParts(src: Bytes, p: nat, x: Bytes, y: Bytes, data: Bytes, rest: Bytes)
    requires p <= |src| && src[p..] == x + y + data + rest
    ensures var q := p + |x|; var k := q + |y|; var e := k + |data|;
      e <= |src| && src[p..q] == x && src[q..k] == y && src[k..e] == data && src[e..] == rest
  {
    assert x + y + data + rest == x + (y + (data + rest));
    FirstPart(src, p, x, y + (data + rest));
    FirstPart(src, p + |x|, y, data + rest);
    FirstPart(src, p + |x| + |y|, data, rest);
  }

  lemma DecStep(src: Bytes, p: nat, dst: Bytes, d: nat, z: nat, data: Bytes, k: nat, e: nat, d': nat)
    requires p < |src| && Runs(src, p, d, |dst|) == Some((z, |data|, k)) && src[k..k + |data|] == data
    requires e == k + |data| && d' == d + z + |data|
    ensures Dec(src, p, dst, d) == Dec(src, e, Splice(dst, d + z, data), d')
  {}

  lemma PatchStep(t: Delta, dst: Bytes, d: nat)
    requires t.Run? && d + Extent(t) <= |dst|
    ensures Patch(t, dst, d) == Patch(t.rest, Splice(dst, d + t.z, t.data), d + t.z + |t.data|)
  {}

  lemma SerialiseStep(t: Delta)
    requires t.Run? && Short(t)
    ensures Serialise(t) == Uleb(t.z) + Uleb(|t.data|) + t.data + Serialise(t.rest)
  {}

  lemma DecDone(src: Bytes, p: nat, t: Delta, dst: Bytes, d: nat)
    requires t.Done? && p <= |src| && src[p..] == Serialise(t) && d + Extent(t) <= |dst|
    ensures Dec(src, p, dst, d) == Some(Patch(t, dst, d))
  {
    assert |src[p..]| == |src| - p;
  }

  /** Decoding the bytes of a delta does what the delta does. */
  lemma {:induction false} DecDelta(src: Bytes, p: nat, t: Delta, dst: Bytes, d: nat)
    requires Short(t) && Separated(t, p == 0) && d + Extent(t) <= |dst| && p <= |src| && src[p..] == Serialise(t)
    ensures Dec(src, p, dst, d) == Some(Patch(t, dst, d))
    decreases t
  {
    hide Serialise, Dec, Patch, Splice, Uleb, Runs;
    if t.Done? {
      DecDone(src, p, t, dst, d);
    } else {
      SerialiseStep(t);
      var k := ReadRun(src, p, t.z, t.data, Serialise(t.rest), d, |dst|);
      var e, d' := k + |t.data|, d + t.z + |t.data|;
      DecStep(src, p, dst, d, t.z, t.data, k, e, d');
      DecDelta(src, e, t.rest, Splice(dst, d + t.z, t.data), d');
      PatchStep(t, dst, d);
    }
  }

  /** One run, read back. */
  lemma ReadRun(src: Bytes, p: nat, z: nat, data: Bytes, rest: Bytes, d: nat, size: nat) returns (k: nat)
    requires z <= ULEB_MAX && 0 < |data| <= ULEB_MAX && (p > 0 ==> z > 0) && d + z + |data| <= size
    requires p <= |src| && src[p..] == Uleb(z) + Uleb(|data|) + data + rest
    ensures p < k && k + |data| <= |src| && src[k..k + |data|] == data && src[k + |data|..] == rest
    ensures Runs(src, p, d, size) == Some((z, |data|, k))
  {
    var x, y := Uleb(z), Uleb(|data|);
    FourParts(src, p, x, y, data, rest);
    RunsRead(src, p, x, y, z, |data|, d, size);
    k := p + |x| + |y|;
  }

  // ----- what the delta of two pages does -----

  /** t turns a into b from byte i on. */
  predicate Turns(t: Delta, a: Bytes, b: Bytes, i: nat)
    requires |a| == |b|
    decreases t
  {
    if t.Done? then i <= |a| && forall k :: i <= k < |a| ==> a[k] == b[k]
    else
      var j := i + t.z;
      && j + |t.data| <= |a| && (forall k :: i <= k < j ==> a[k] == b[k])
      && t.data == b[j..j + |t.data|] && Turns(t.rest, a, b, j + |t.data|)
  }

  lemma {:induction false} DeltaTurns(a: Bytes, b: Bytes, i: nat, first: bool)
    requires |a| == |b| && i <= |a| && (first || i == |a| || a[i] == b[i])
    ensures Turns(DeltaOf(a, b, i), a, b, i) && Separated(DeltaOf(a, b, i), first)
    decreases |a| - i
  {
    var j := i + EqualRun(a, b, i);
    if j < |a| {
      var e := j + DiffRun(a, b, j);
      DeltaTurns(a, b, e, false);
      DeltaStep(a, b, i, j, e);
      RunTurns(a, b, i, j, e, DeltaOf(a, b, e), first);
    }
  }

  lemma DeltaStep(a: Bytes, b: Bytes, i: nat, j: nat, e: nat)
    requires |a| == |b| && i <= |a| && j == i + EqualRun(a, b, i) && j < |a| && e == j + DiffRun(a, b, j)
    ensures DeltaOf(a, b, i) == Run(j - i, b[j..e], DeltaOf(a, b, e))
  {}

  lemma RunTurns(a: Bytes, b: Bytes, i: nat, j: nat, e: nat, rest: Delta, first: bool)
    requires |a| == |b| && i <= j <= e <= |a| && (forall k :: i <= k < j ==> a[k] == b[k]) && (first || i < j)
    requires Turns(rest, a, b, e) && Separated(rest, false)
    ensures Turns(Run(j - i, b[j..e], rest), a, b, i) && Separated(Run(j - i, b[j..e], rest), first)
  {}

  lemma {:induction false} TurnsExtent(t: Delta, a: Bytes, b: Bytes, i: nat)
    requires |a| == |b| && Turns(t, a, b, i)
    ensures i + Extent(t) <= |a|
    decreases t
  {
    if t.Run? { TurnsExtent(t.rest, a, b, i + t.z + |t.data|); }
  }

  /** A page m that is b up to byte i and a from there on, patched from i on, is b. */
  lemma {:induction false} PatchTurns(t: Delta, a: Bytes, b: Bytes, i: nat, m: Bytes)
    requires |a| == |b| && Turns(t, a, b, i) && i <= |a| && m == b[..i] + a[i..] && i + Extent(t) <= |m|
    ensures Patch(t, m, i).0 == b
    decreases t
  {
    if t.Done? {
      MixedEqual(a, b, i, |a|);
    } else {
      PatchStep(t, m, i);
      hide Patch, Splice;
      MixedRun(a, b, i, t.z, t.data, m);
      PatchTurns(t.rest, a, b, i + t.z + |t.data|, Splice(m, i + t.z, t.data));
    }
  }

  lemma MixedRun(a: Bytes, b: Bytes, i: nat, z: nat, data: Bytes, m: Bytes)
    requires |a| == |b| && i + z + |data| <= |a| && m == b[..i] + a[i..] && data == b[i + z..i + z + |data|]
    requires forall k :: i <= k < i + z ==> a[k] == b[k]
    ensures |m| == |a| && Splice(m, i + z, data) == b[..i + z + |data|] + a[i + z + |data|..]
  {
    MixedEqual(a, b, i, i + z);
    MixedSplice(a, b, i + z, |data|);
  }

  lemma MixedEqual(a: Bytes, b: Bytes, i: nat, j: nat)
    requires |a| == |b| && i <= j <= |a| && forall k :: i <= k < j ==> a[k] == b[k]
    ensures b[..i] + a[i..] == b[..j] + a[j..]
    ensures j == |a| ==> b[..j] + a[j..] == b
  {}

  lemma MixedSplice(a: Bytes, b: Bytes, j: nat, n: nat)
    requires |a| == |b| && j + n <= |a|
    ensures Splice(b[..j] + a[j..], j, b[j..j + n]) == b[..j + n] + a[j + n..]
  {}

  /** Decoding an encoded page over the old page gives the new page, and the encoding is empty
      exactly when there is nothing to change. */
  lemma RoundTrip(a: Bytes, b: Bytes)
    requires |a| == |b| <= ULEB_MAX
    ensures var r := Dec(Enc(a, b), 0, a, 0); r.Some? && r.value.0 == b
    ensures Enc(a, b) == [] <==> a == b
  {
    hide Dec, Patch, Turns, Separated, Extent, DeltaOf;
    DeltaShort(a, b, 0);
    var t := DeltaOf(a, b, 0);
    DeltaTurns(a, b, 0, true);
    TurnsExtent(t, a, b, 0);
    assert Enc(a, b)[0..] == Enc(a, b);
    DecDelta(Enc(a, b), 0, t, a, 0);
    assert b[..0] + a[0..] == a;
    PatchTurns(t, a, b, 0, a);
    EmptyDelta(a, b, t);
  }

  /** The delta says nothing exactly when there is nothing to change. */
  lemma EmptyDelta(a: Bytes, b: Bytes, t: Delta)
    requires |a| == |b| <= ULEB_MAX && t == DeltaOf(a, b, 0) && Short(t) && Turns(t, a, b, 0)
    ensures Serialise(t) == [] <==> a == b
  {
    if a == b { RunUnique(a, b, 0, |a|); }
  }

  // ----- the two buffer loops -----

  /** `dst` and the encoding of what is left from byte i on make up `enc`. */
  ghost predicate EncodedTo(enc: Bytes, old_: Bytes, new_: Bytes, i: nat, dst: Bytes)
    requires |old_| == |new_| && i <= |old_|
  {
    var t := DeltaOf(old_, new_, i);
    Short(t) && enc == dst + Serialise(t) && (i == 0 ==> dst == [])
  }

  lemma EncodeRun(enc: Bytes, old_: Bytes, new_: Bytes, i: nat, dst: Bytes, j: nat, e: nat)
    requires |old_| == |new_| <= ULEB_MAX && i <= |old_| && EncodedTo(enc, old_, new_, i, dst)
    requires j == i + EqualRun(old_, new_, i) && j < |old_| && e == j + DiffRun(old_, new_, j)
    ensures e > j && EncodedTo(enc, old_, new_, e, dst + Uleb(j - i) + Uleb(e - j) + new_[j..e])
    ensures |dst| + |Uleb(j - i)| + |Uleb(e - j)| + (e - j) <= |enc|
  {
    DeltaStep(old_, new_, i, j, e);
    SerialiseStep(DeltaOf(old_, new_, i));
    Regroup(dst, Uleb(j - i), Uleb(e - j), new_[j..e], Serialise(DeltaOf(old_, new_, e)));
  }

  lemma Regroup(a: Bytes, x: Bytes, y: Bytes, data: Bytes, rest: Bytes)
    ensures a + (x + y + data + rest) == a + x + y + data + rest
  {}

  lemma EncodeEnd(enc: Bytes, old_: Bytes, new_: Bytes, i: nat, dst: Bytes)
    requires |old_| == |new_| && i <= |old_| && EncodedTo(enc, old_, new_, i, dst)
    requires i + EqualRun(old_, new_, i) == |old_|
    ensures dst == enc
  {
    assert DeltaOf(old_, new_, i) == Done;
  }

  lemma EncodedLength(enc: Bytes, old_: Bytes, new_: Bytes, i: nat, dst: Bytes)
    requires |old_| == |new_| && i <= |old_| && EncodedTo(enc, old_, new_, i, dst)
    ensures |dst| <= |enc|
  {}

  /** The run that starts at i: equal bytes up to j, different bytes up to e. */
  method NextRun(old_: Bytes, new_: Bytes, i: nat) returns (j: nat, e: nat)
    requires |old_| == |new_| && |old_| % WORD == 0 && i <= |old_|
    ensures j == i + EqualRun(old_, new_, i) && j <= |old_| && e == j + DiffRun(old_, new_, j) && e <= |old_|
  {
    j := SkipEqual(old_, new_, i);
    e := SkipDiff(old_, new_, j);
  }

  /** The encoding does not fit in dlen bytes, or does not with two to spare when the pages end with
      an equal byte: the loop then comes round once more, and wants room for another run. */
  ghost predicate TooLong(enc: Bytes, a: Bytes, b: Bytes, dlen: nat)
    requires |a| == |b|
  {
    |enc| > dlen || (a != [] && a[|a| - 1] == b[|b| - 1] && |enc| + 2 > dlen)
  }

  lemma NoRoom(enc: Bytes, old_: Bytes, new_: Bytes, i: nat, dst: Bytes, dlen: nat)
    requires |old_| == |new_| <= ULEB_MAX && i < |old_| && EncodedTo(enc, old_, new_, i, dst) && |dst| + 2 > dlen
    ensures TooLong(enc, old_, new_, dlen)
  {
    var j := i + EqualRun(old_, new_, i);
    if j == |old_| {
      EncodeEnd(enc, old_, new_, i, dst);
    } else {
      EncodeRun(enc, old_, new_, i, dst, j, j + DiffRun(old_, new_, j));
    }
  }

  datatype Round = More | Full | Finished

  /** One round of the loop in xbzrle_encode_buffer. */
  method EncodeRound(old_: Bytes, new_: Bytes, i: nat, dst: Bytes, dlen: nat, ghost enc: Bytes)
    returns (r: Round, i': nat, dst': Bytes)
    requires |old_| == |new_| <= ULEB_MAX && |old_| % WORD == 0 && i < |old_| && EncodedTo(enc, old_, new_, i, dst)
    requires |dst| <= dlen
    ensures r.Full? ==> TooLong(enc, old_, new_, dlen)
    ensures r.Finished? ==> dst' == enc && |dst'| + 2 <= dlen
    ensures r.More? ==> i < i' <= |old_| && EncodedTo(enc, old_, new_, i', dst') && |dst'| <= dlen
    ensures r.More? && i' == |old_| ==> old_[i' - 1] != new_[i' - 1]
  {
    if |dst| + 2 > dlen {
      NoRoom(enc, old_, new_, i, dst, dlen);
      return Full, i, dst;
    }
    var j, e := NextRun(old_, new_, i);
    if j - i == |old_| {
      EncodeEnd(enc, old_, new_, i, dst);
      return Finished, j, [];
    }
    if j == |old_| {
      EncodeEnd(enc, old_, new_, i, dst);
      return Finished, j, dst;
    }
    EncodeRun(enc, old_, new_, i, dst, j, e);
    var z, n := Uleb(j - i), Uleb(e - j);
    if |dst| + |z| + 2 > dlen || |dst| + |z| + |n| + (e - j) > dlen {
      return Full, i, dst;
    }
    r, i', dst' := More, e, dst + z + n + new_[j..e];
  }

  /** xbzrle_encode_buffer: the encoding, 0 exactly when nothing changed, and -1 exactly when it is
      too long. */
  method EncodeBuffer(old_: Bytes, new_: Bytes, dlen: nat) returns (ret: int, dst: Bytes)
    requires |old_| == |new_| <= ULEB_MAX && |old_| % WORD == 0
    ensures ret == -1 <==> TooLong(Enc(old_, new_), old_, new_, dlen)
    ensures ret != -1 ==> ret == |dst| <= dlen && dst == Enc(old_, new_)
    ensures ret == 0 ==> old_ == new_
    ensures old_ == new_ && dlen >= 2 ==> ret == 0
  {
    RoundTrip(old_, new_);
    ghost var enc := EncodeStart(old_, new_);
    var i := 0;
    dst := [];
    while i < |old_|
      invariant 0 <= i <= |old_| && EncodedTo(enc, old_, new_, i, dst) && |dst| <= dlen
      invariant 0 < i == |old_| ==> old_[i - 1] != new_[i - 1]
    {
      var r;
      r, i, dst := EncodeRound(old_, new_, i, dst, dlen, enc);
      if r.Full? {
        return -1, dst;
      }
      if r.Finished? {
        return |dst|, dst;
      }
    }
    EncodeEnd(enc, old_, new_, i, dst);
    ret := |dst|;
  }

  lemma EncodeStart(old_: Bytes, new_: Bytes) returns (enc: Bytes)
    requires |old_| == |new_| <= ULEB_MAX
    ensures enc == Enc(old_, new_) && EncodedTo(enc, old_, new_, 0, [])
  {
    DeltaShort(old_, new_, 0);
    enc := Enc(old_, new_);
    assert [] + enc == enc;
  }

  /** xbzrle_decode_buffer: the number of page bytes dealt with, or -1. */
  method DecodeBuffer(src: Bytes, dst0: Bytes) returns (ret: int, dst: Bytes)
    ensures ret == -1 <==> Dec(src, 0, dst0, 0).None?
    ensures ret != -1 ==> ret >= 0 && Dec(src, 0, dst0, 0) == Some((dst, ret))
  {
    ghost var result := Dec(src, 0, dst0, 0);
    var i, d: nat := 0, 0;
    dst := dst0;
    while i < |src|
      invariant 0 <= i <= |src| && Dec(src, i, dst, d) == result
    {
      var r := Runs(src, i, d, |dst|);
      if r.None? {
        return -1, dst;
      }
      i, dst, d := DecodeRun(src, i, dst, d, r.value.0, r.value.1, r.value.2);
    }
    ret := d;
  }

  method DecodeRun(src: Bytes, i: nat, dst: Bytes, d: nat, z: nat, n: nat, k: nat)
    returns (i': nat, dst': Bytes, d': nat)
    requires i < |src| && Runs(src, i, d, |dst|) == Some((z, n, k))
    ensures i < i' <= |src| && Dec(src, i', dst', d') == Dec(src, i, dst, d)
  {
    RunsFit(src, i, d, |dst|);
    var data := src[k..k + n];
    i', d' := k + n, d + z + n;
    DecStep(src, i, dst, d, z, data, k, i', d');
    dst' := Splice(dst, d + z, data);
  }

  lemma RunsFit(src: Bytes, i: nat, d: nat, size: nat)
    requires i < |src| && Runs(src, i, d, size).Some?
    ensures var (z, n, k) := Runs(src, i, d, size).value; i < k && 0 < n && k + n <= |src| && d + z + n <= size
  {}
}
