/** Disk images as the block layer sees them: a finite run of bytes that reads
    as zero past its end, and the aligned read path of block.c. */
module Image {
  import opened Arith

  type Byte = bv8
  type Bytes = seq<Byte>

  const SECTOR: nat := 512

  /** Byte k of the zero-extended image. */
  function At(img: Bytes, k: nat): Byte {
    if k < |img| then img[k] else 0
  }

  /** The n bytes of the zero-extended image that start at `offset`. */
  function View(img: Bytes, offset: nat, n: nat): (v: Bytes)
    ensures |v| == n
    ensures forall k :: 0 <= k < n ==> v[k] == At(img, offset + k)
  {
    seq(n, k requires 0 <= k < n => At(img, offset + k))
  }

  /** Overwrite a range, growing the image with zeroes where it must. */
  function WriteAt(img: Bytes, offset: nat, data: Bytes): (r: Bytes)
    ensures |r| == if data == [] then |img| else Max(|img|, offset + |data|)
  {
    var n := if data == [] then |img| else Max(|img|, offset + |data|);
    seq(n, k requires 0 <= k < n => if offset <= k < offset + |data| then data[k - offset] else At(img, k))
  }

  lemma AtWrite(img: Bytes, offset: nat, data: Bytes, k: nat)
    ensures At(WriteAt(img, offset, data), k) == if offset <= k < offset + |data| then data[k - offset] else At(img, k)
  {}

  ghost predicate SameView(a: Bytes, b: Bytes) {
    forall k: nat :: At(a, k) == At(b, k)
  }

  // A scatter list: the buffers of a QEMUIOVector, in order.
  type Iovec = seq<Bytes>

  function Flat(v: Iovec): Bytes {
    if v == [] then [] else v[0] + Flat(v[1..])
  }

  lemma FlatCons(u: Bytes, v: Iovec)
    ensures Flat([u] + v) == u + Flat(v)
  {
    assert ([u] + v)[1..] == v;
  }

  lemma Regroup(a: Bytes, b: Bytes, c: Bytes)
    ensures a + (b + c) == a + b + c
  {}

  lemma {:induction false} FlatConcat(a: Iovec, b: Iovec)
    ensures Flat(a + b) == Flat(a) + Flat(b)
  {
    if a == [] {
      assert a + b == b;
    } else {
      FlatCons(a[0], a[1..]);
      FlatCons(a[0], a[1..] + b);
      hide Flat;
      assert a == [a[0]] + a[1..] && a + b == [a[0]] + (a[1..] + b);
      FlatConcat(a[1..], b);
      Regroup(a[0], Flat(a[1..]), Flat(b));
    }
  }

  lemma FlatNext(v: Iovec, i: nat)
    requires i < |v|
    ensures Flat(v[i..]) == v[i] + Flat(v[i + 1..])
  {
    assert v[i..][1..] == v[i + 1..];
  }

  /** The same buffers: as many, of the same lengths. */
  predicate SameShape(a: Iovec, b: Iovec) {
    |a| == |b| && forall i :: 0 <= i < |a| ==> |a[i]| == |b[i]|
  }

  lemma ShapeStarts(v: Iovec)
    ensures SameShape([], v[..0])
  {}

  lemma ShapeMore(r: Iovec, v: Iovec, i: nat, buffer: Bytes)
    requires i < |v| && SameShape(r, v[..i]) && |buffer| == |v[i]|
    ensures SameShape(r + [buffer], v[..i + 1])
  {}

  lemma ShapeRest(r: Iovec, v: Iovec, i: nat)
    requires i <= |v| && SameShape(r, v[..i])
    ensures SameShape(r + v[i..], v)
  {}

  /** The bytes with up to n of them set to zero from `start` on, as far as there are any. */
  function Zeroed(b: Bytes, start: nat, n: nat): (r: Bytes)
    ensures |r| == |b|
  {
    seq(|b|, k requires 0 <= k < |b| => if start <= k < start + n then 0 else b[k])
  }

  lemma ZeroedAcross(u: Bytes, w: Bytes, start: nat, n: nat)
    requires start < |u|
    ensures Zeroed(u + w, start, n) == Zeroed(u, start, n) + Zeroed(w, 0, n - Min(|u| - start, n))
  {}

  lemma ZeroedBeyond(u: Bytes, w: Bytes, start: nat, n: nat)
    requires |u| <= start
    ensures Zeroed(u + w, start, n) == u + Zeroed(w, start - |u|, n)
  {}

  /** iov_memset with a zero fill: buffer by buffer, the vector comes to hold the bytes it held
      with that range set to zero; it stops at the end of the vector. */
  method IovecZero(v: Iovec, start: nat, n: nat) returns (r: Iovec, done: nat)
    requires start <= |Flat(v)|
    ensures SameShape(r, v) && Flat(r) == Zeroed(Flat(v), start, n)
    ensures done == Min(n, |Flat(v)| - start)
  {
    hide Zeroed, Flat, SameShape;
    r, done := [], 0;
    var i: nat, offset: nat := 0, start;
    FlatEnds(v);
    ShapeStarts(v);
    while (offset > 0 || done < n) && i < |v|
      invariant 0 <= i <= |v| && SameShape(r, v[..i]) && done <= n && offset <= |Flat(v[i..])|
      invariant Flat(r) + Zeroed(Flat(v[i..]), offset, n - done) == Zeroed(Flat(v), start, n)
      invariant done + Min(n - done, |Flat(v[i..])| - offset) == Min(n, |Flat(v)| - start)
    {
      FlatNext(v, i);
      var buffer, next, len := ZeroBuffer(v[i], offset, n - done, Flat(v[i + 1..]));
      FlatAppend(r, buffer, Zeroed(Flat(v[i + 1..]), next, n - done - len));
      ShapeMore(r, v, i, buffer);
      r, done, offset := r + [buffer], done + len, next;
      i := i + 1;
    }
    FlatEnds(v[i..]);
    ZeroedNone(Flat(v[i..]), n - done);
    assert offset == 0;
    FlatConcat(r, v[i..]);
    ShapeRest(r, v, i);
    r := r + v[i..];
  }

  /** One buffer of the vector, with `rest` after it: it is filled from `offset` on, or the offset
      lies beyond it. */
  method ZeroBuffer(b: Bytes, offset: nat, n: nat, ghost rest: Bytes) returns (r: Bytes, next: nat, len: nat)
    requires offset <= |b| + |rest|
    ensures |r| == |b| && len <= n && next <= |rest|
    ensures Zeroed(b + rest, offset, n) == r + Zeroed(rest, next, n - len)
    ensures len + Min(n - len, |rest| - next) == Min(n, |b| + |rest| - offset)
  {
    hide Zeroed;
    if offset < |b| {
      len := Min(|b| - offset, n);
      ZeroedAcross(b, rest, offset, n);
      ZeroedAll(b, offset, n, len);
      r, next := b[..offset] + Zeroes(len) + b[offset + len..], 0;
    } else {
      ZeroedBeyond(b, rest, offset, n);
      r, next, len := b, offset - |b|, 0;
    }
  }

  lemma FlatEnds(v: Iovec)
    ensures v[..0] == [] && v[0..] == v && Flat([]) == [] && (v == [] ==> Flat(v) == [])
  {}

  lemma FlatAppend(v: Iovec, last: Bytes, rest: Bytes)
    ensures Flat(v + [last]) == Flat(v) + last && Flat(v + [last]) + rest == Flat(v) + (last + rest)
  {
    FlatConcat(v, [last]);
    assert Flat([last]) == last;
  }

  function Zeroes(n: nat): Bytes { seq(n, _ => 0) }

  lemma ZeroedAll(b: Bytes, start: nat, n: nat, len: nat)
    requires start < |b| && len == Min(|b| - start, n)
    ensures Zeroed(b, start, n) == b[..start] + Zeroes(len) + b[start + len..]
  {}

  lemma ZeroedNone(b: Bytes, n: nat)
    ensures n == 0 || b == [] ==> Zeroed(b, 0, n) == b
  {}

  /** bdrv_aligned_preadv with zero_beyond_eof: past the end of the image a read gives
      zeroes, whatever the driver does and the caller's buffers hold there. The driver is `asked`
      for what there is of the image, rounded up to the alignment at most. */
  method AlignedPreadv(img: Bytes, offset: nat, bytes: nat, align: nat, qiov: Iovec)
    returns (v: Iovec, asked: nat)
    requires align >= SECTOR && align % SECTOR == 0
    requires |img| % SECTOR == 0 && offset % SECTOR == 0 && bytes % SECTOR == 0
    requires |Flat(qiov)| == bytes
    ensures SameShape(v, qiov) && Flat(v) == View(img, offset, bytes)
    ensures asked == bytes || (asked < bytes && offset + asked >= |img|)
    ensures asked > 0 ==> offset + asked < |img| + align
  {
    hide Flat;
    asked := 0;
    var sector, nb := offset / SECTOR, bytes / SECTOR;
    var total := |img| / SECTOR;
    var maxNb := AlignUp(Max(0, total - sector), align / SECTOR);
    if nb < maxNb {
      asked := bytes;
      v := DriverReadv(img, offset, asked, qiov);
    } else if maxNb > 0 {
      asked := maxNb * SECTOR;
      v := DriverReadv(img, offset, asked, qiov);
    } else {
      v := qiov;
    }
    if total < sector + nb {
      var start := Max(0, total - sector);
      var zeroed;
      v, zeroed := IovecZero(v, start * SECTOR, (sector + nb - start) * SECTOR);
    }
  }

  /** A driver read of n bytes: image contents up to the image's end, and whatever the buffers
      held elsewhere. */
  method DriverReadv(img: Bytes, offset: nat, n: nat, qiov: Iovec) returns (v: Iovec)
    requires n <= |Flat(qiov)|
    ensures SameShape(v, qiov) && Flat(v) == Driven(img, offset, n, Flat(qiov))
  {
    var held := Flat(qiov);
    ShapedFlat(Driven(img, offset, n, held), qiov);
    v := Shaped(Driven(img, offset, n, held), qiov);
  }

  function Driven(img: Bytes, offset: nat, n: nat, held: Bytes): (r: Bytes)
    ensures |r| == |held|
  {
    seq(|held|, k requires 0 <= k < |held| => if k < n && offset + k < |img| then img[offset + k] else held[k])
  }

  /** The bytes, scattered over buffers like those of the vector. */
  function Shaped(b: Bytes, like: Iovec): Iovec
    requires |b| == |Flat(like)|
  {
    if like == [] then [] else [b[..|like[0]|]] + Shaped(b[|like[0]|..], like[1..])
  }

  lemma {:induction false} ShapedFlat(b: Bytes, like: Iovec)
    requires |b| == |Flat(like)|
    ensures SameShape(Shaped(b, like), like) && Flat(Shaped(b, like)) == b
  {
    if like != [] {
      ShapedFlat(b[|like[0]|..], like[1..]);
      var first, rest := b[..|like[0]|], Shaped(b[|like[0]|..], like[1..]);
      assert ([first] + rest)[1..] == rest;
      assert b == first + b[|like[0]|..];
    }
  }
}
