/** Merging of sorted write requests (multiwrite_merge). */
module Multiwrite {
  import opened Arith
  import opened Image

  const IOV_MAX: nat := 1024

  datatype BlockRequest = BlockRequest(sector: nat, nbSectors: nat, qiov: Iovec)

  /** The source demands a vector as long as the request says. */
  predicate Sized(r: BlockRequest) { |Flat(r.qiov)| == r.nbSectors * SECTOR }

  predicate Sorted(rs: seq<BlockRequest>) {
    forall i, j :: 0 <= i < j < |rs| ==> rs[i].sector <= rs[j].sector
  }

  // ----- vectors -----

  /** The elements qemu_iovec_concat_iov adds for n bytes of `src` from byte `skip` on. */
  function Slice(src: Iovec, skip: nat, n: nat): Iovec {
    if src == [] || n == 0 then []
    else if skip < |src[0]| then
      var len := Min(|src[0]| - skip, n);
      [src[0][skip..skip + len]] + Slice(src[1..], 0, n - len)
    else Slice(src[1..], skip - |src[0]|, n)
  }

  lemma CutAcross(u: Bytes, w: Bytes, skip: nat, len: nat, n: nat)
    requires skip < |u| && len == Min(|u| - skip, n) && skip + n <= |u| + |w|
    ensures n - len <= |w| && u[skip..skip + len] + w[..n - len] == (u + w)[skip..skip + n]
  {}

  lemma CutBeyond(u: Bytes, w: Bytes, skip: nat, n: nat)
    requires |u| <= skip && skip + n <= |u| + |w|
    ensures w[skip - |u|..skip - |u| + n] == (u + w)[skip..skip + n]
  {}

  lemma SliceHere(src: Iovec, skip: nat, n: nat, len: nat)
    requires src != [] && n != 0 && skip < |src[0]| && len == Min(|src[0]| - skip, n)
    requires skip + n <= |src[0]| + |Flat(src[1..])|
    requires n - len <= |Flat(src[1..])| && Flat(Slice(src[1..], 0, n - len)) == Flat(src[1..])[..n - len]
    ensures Flat(Slice(src, skip, n)) == (src[0] + Flat(src[1..]))[skip..skip + n]
  {
    assert Slice(src, skip, n) == [src[0][skip..skip + len]] + Slice(src[1..], 0, n - len);
    hide Flat, Slice;
    FlatCons(src[0][skip..skip + len], Slice(src[1..], 0, n - len));
    CutAcross(src[0], Flat(src[1..]), skip, len, n);
  }

  lemma SliceLater(src: Iovec, skip: nat, n: nat)
    requires src != [] && n != 0 && |src[0]| <= skip && skip + n <= |src[0]| + |Flat(src[1..])|
    requires var from := skip - |src[0]|; Flat(Slice(src[1..], from, n)) == Flat(src[1..])[from..from + n]
    ensures Flat(Slice(src, skip, n)) == (src[0] + Flat(src[1..]))[skip..skip + n]
  {
    assert Slice(src, skip, n) == Slice(src[1..], skip - |src[0]|, n);
    hide Flat, Slice;
    CutBeyond(src[0], Flat(src[1..]), skip, n);
  }

  lemma {:induction false} FlatSlice(src: Iovec, skip: nat, n: nat)
    requires skip + n <= |Flat(src)|
    ensures Flat(Slice(src, skip, n)) == Flat(src)[skip..skip + n]
  {
    if src != [] && n != 0 {
      assert Flat(src) == src[0] + Flat(src[1..]);
      hide Flat, Slice;
      if skip < |src[0]| {
        var len := Min(|src[0]| - skip, n);
        FlatSlice(src[1..], 0, n - len);
        SliceHere(src, skip, n, len);
      } else {
        FlatSlice(src[1..], skip - |src[0]|, n);
        SliceLater(src, skip, n);
      }
    }
  }

  /** A prefix of p bytes and a suffix that starts at or after p share at most one element. */
  lemma {:induction false} SliceCount(src: Iovec, p: nat, skip: nat, n: nat)
    requires p <= skip
    ensures |Slice(src, 0, p)| + |Slice(src, skip, n)| <= |src| + 1
    ensures p == 0 ==> |Slice(src, skip, n)| <= |src|
  {
    if src != [] {
      var len := Min(|src[0]|, p);
      if skip < |src[0]| {
        SliceBound(src[1..], n - Min(|src[0]| - skip, n));
        assert p > 0 ==> Slice(src[1..], 0, p - len) == [];
      } else {
        SliceCount(src[1..], p - len, skip - |src[0]|, n);
      }
    }
  }

  lemma {:induction false} SliceBound(src: Iovec, n: nat)
    ensures |Slice(src, 0, n)| <= |src|
  {
    if src != [] && n != 0 {
      if |src[0]| > 0 { SliceBound(src[1..], n - Min(|src[0]|, n)); } else { SliceBound(src[1..], n); }
    }
  }

  /** qemu_iovec_concat. */
  method IovecConcat(dst: Iovec, src: Iovec, skip: nat, n: nat) returns (r: Iovec)
    ensures r == dst + Slice(src, skip, n)
  {
    r := dst;
    var i: nat, soffset: nat, left: nat := 0, skip, n;
    while left > 0 && i < |src|
      invariant 0 <= i <= |src|
      invariant r + Slice(src[i..], soffset, left) == dst + Slice(src, skip, n)
    {
      assert src[i..][1..] == src[i + 1..];
      if soffset < |src[i]| {
        var len := Min(|src[i]| - soffset, left);
        ghost var tail := Slice(src[i + 1..], 0, left - len);
        assert r + ([src[i][soffset..soffset + len]] + tail) == (r + [src[i][soffset..soffset + len]]) + tail;
        r := r + [src[i][soffset..soffset + len]];
        left := left - len;
        soffset := 0;
      } else {
        soffset := soffset - |src[i]|;
      }
      i := i + 1;
    }
    assert Slice(src[i..], soffset, left) == [];
  }

  // ----- merging -----

  predicate Mergeable(a: BlockRequest, b: BlockRequest, maxTransfer: nat) {
    && b.sector <= a.sector + a.nbSectors
    && |a.qiov| + |b.qiov| + 1 <= IOV_MAX
    && (maxTransfer == 0 || a.nbSectors + b.nbSectors <= maxTransfer)
  }

  /** The merged vector: the first request up to the start of the second, the second, and
      what the first has beyond the end of the second. */
  function MergedQiov(a: BlockRequest, b: BlockRequest): Iovec
    requires a.sector <= b.sector
  {
    var v := Slice(a.qiov, 0, (b.sector - a.sector) * SECTOR) + Slice(b.qiov, 0, |Flat(b.qiov)|);
    if |Flat(v)| < |Flat(a.qiov)|
    then v + Slice(a.qiov, |Flat(v)|, |Flat(a.qiov)| - |Flat(v)|)
    else v
  }

  function Merge2(a: BlockRequest, b: BlockRequest): BlockRequest
    requires a.sector <= b.sector
  {
    var v := MergedQiov(a, b);
    BlockRequest(a.sector, |Flat(v)| / SECTOR, v)
  }

  /** One round of the loop: the requests kept so far and the next one. */
  function Extend(out: seq<BlockRequest>, r: BlockRequest, maxTransfer: nat): seq<BlockRequest>
    requires out != [] && out[|out| - 1].sector <= r.sector
  {
    var last := out[|out| - 1];
    if Mergeable(last, r, maxTransfer) then out[|out| - 1 := Merge2(last, r)] else out + [r]
  }

  /** The array after the loop has looked at all of rs. */
  function Merged(rs: seq<BlockRequest>, maxTransfer: nat): (out: seq<BlockRequest>)
    requires rs != [] && Sorted(rs)
    ensures 0 < |out| <= |rs| && out[|out| - 1].sector <= rs[|rs| - 1].sector
  {
    if |rs| == 1 then rs else Extend(Merged(rs[..|rs| - 1], maxTransfer), rs[|rs| - 1], maxTransfer)
  }

  function Write1(img: Bytes, r: BlockRequest): Bytes {
    WriteAt(img, r.sector * SECTOR, Flat(r.qiov))
  }

  function WriteAll(img: Bytes, rs: seq<BlockRequest>): Bytes {
    if rs == [] then img else Write1(WriteAll(img, rs[..|rs| - 1]), rs[|rs| - 1])
  }

  /** The bytes of a merged vector: b laid over a. */
  lemma MergedBytes(a: BlockRequest, b: BlockRequest)
    requires Sized(a) && Sized(b) && a.sector <= b.sector <= a.sector + a.nbSectors
    ensures var p := (b.sector - a.sector) * SECTOR;
      var fa, fb := Flat(a.qiov), Flat(b.qiov);
      Flat(MergedQiov(a, b)) == fa[..p] + fb + (if p + |fb| < |fa| then fa[p + |fb|..] else [])
  {
    hide Flat, Slice;
    var p := (b.sector - a.sector) * SECTOR;
    var head, mid := Slice(a.qiov, 0, p), Slice(b.qiov, 0, |Flat(b.qiov)|);
    FlatSlice(a.qiov, 0, p);
    FlatSlice(b.qiov, 0, |Flat(b.qiov)|);
    FlatConcat(head, mid);
    var skip := |Flat(head + mid)|;
    if skip < |Flat(a.qiov)| {
      FlatSlice(a.qiov, skip, |Flat(a.qiov)| - skip);
      FlatConcat(head + mid, Slice(a.qiov, skip, |Flat(a.qiov)| - skip));
    }
  }

  lemma Merge2Sized(a: BlockRequest, b: BlockRequest)
    requires Sized(a) && Sized(b) && a.sector <= b.sector <= a.sector + a.nbSectors
    ensures Sized(Merge2(a, b))
    ensures Merge2(a, b).nbSectors == Max(a.nbSectors, b.sector - a.sector + b.nbSectors)
  {
    MergedBytes(a, b);
    var n := Max(a.nbSectors, b.sector - a.sector + b.nbSectors);
    assert |Flat(MergedQiov(a, b))| == n * SECTOR;
    MulMod(n, SECTOR);
  }

  /** A merged vector has at most one element more than the two it came from. */
  lemma Merge2Count(a: BlockRequest, b: BlockRequest)
    requires Sized(a) && Sized(b) && a.sector <= b.sector <= a.sector + a.nbSectors
    ensures |Merge2(a, b).qiov| <= |a.qiov| + |b.qiov| + 1
  {
    hide Flat, Slice;
    var p := (b.sector - a.sector) * SECTOR;
    var head, mid := Slice(a.qiov, 0, p), Slice(b.qiov, 0, |Flat(b.qiov)|);
    SliceBound(b.qiov, |Flat(b.qiov)|);
    SliceBound(a.qiov, p);
    FlatSlice(a.qiov, 0, p);
    FlatConcat(head, mid);
    var skip := |Flat(head + mid)|;
    if skip < |Flat(a.qiov)| {
      SliceCount(a.qiov, p, skip, |Flat(a.qiov)| - skip);
    }
  }

  /** Writing fb over fa, which it starts in, is one write of both. */
  lemma OneWrite(img: Bytes, o: nat, fa: Bytes, p: nat, fb: Bytes, both: Bytes, at: nat)
    requires p <= |fa| && at == o + p && both == fa[..p] + fb + (if p + |fb| < |fa| then fa[p + |fb|..] else [])
    ensures WriteAt(img, o, both) == WriteAt(WriteAt(img, o, fa), at, fb)
  {
    var one, mid := WriteAt(img, o, both), WriteAt(img, o, fa);
    var two := WriteAt(mid, at, fb);
    assert |one| == |two|;
    forall k | 0 <= k < |one| ensures one[k] == two[k] {
      AtWrite(img, o, both, k);
      AtWrite(img, o, fa, k);
      AtWrite(mid, at, fb, k);
    }
  }

  /** One merged write leaves the disk as the two writes in order do. */
  lemma Merge2Meaning(img: Bytes, a: BlockRequest, b: BlockRequest)
    requires Sized(a) && Sized(b) && a.sector <= b.sector <= a.sector + a.nbSectors
    ensures Write1(img, Merge2(a, b)) == Write1(Write1(img, a), b)
  {
    hide Flat, MergedQiov, WriteAt;
    MergedBytes(a, b);
    OneWrite(img, a.sector * SECTOR, Flat(a.qiov), (b.sector - a.sector) * SECTOR, Flat(b.qiov), Flat(MergedQiov(a, b)),
        b.sector * SECTOR);
  }

  lemma WriteAllSnoc(img: Bytes, rs: seq<BlockRequest>, r: BlockRequest)
    ensures WriteAll(img, rs + [r]) == Write1(WriteAll(img, rs), r)
  {
    assert (rs + [r])[..|rs + [r]| - 1] == rs;
  }

  predicate Within(rs: seq<BlockRequest>, maxTransfer: nat) {
    forall i :: 0 <= i < |rs| ==>
      Sized(rs[i]) && (maxTransfer == 0 || rs[i].nbSectors <= maxTransfer) && |rs[i].qiov| <= IOV_MAX
  }

  lemma ExtendWithin(out: seq<BlockRequest>, r: BlockRequest, maxTransfer: nat)
    requires out != [] && out[|out| - 1].sector <= r.sector && Within(out, maxTransfer) && Within([r], maxTransfer)
    ensures Within(Extend(out, r, maxTransfer), maxTransfer)
  {
    hide Flat, MergedQiov, Merge2, Sized;
    var last := out[|out| - 1];
    assert Sized([r][0]) && Sized(last);
    if Mergeable(last, r, maxTransfer) {
      Merge2Sized(last, r);
      Merge2Count(last, r);
    }
  }

  /** The array without its last request. */
  lemma FrontOk(rs: seq<BlockRequest>, n: nat, maxTransfer: nat)
    requires 0 < n == |rs| - 1 && Sorted(rs) && Within(rs, maxTransfer)
    ensures rs == rs[..n] + [rs[n]] && rs[..n + 1] == rs
    ensures Sorted(rs[..n]) && Within(rs[..n], maxTransfer) && Within([rs[n]], maxTransfer)
    ensures var out := Merged(rs[..n], maxTransfer); out[|out| - 1].sector <= rs[n].sector
  {
    hide Merged, Sized;
    assert rs[..n][n - 1].sector <= rs[n].sector;
  }

  /** The merged requests obey the limits the given ones obey. */
  lemma {:induction false} MergedWithin(rs: seq<BlockRequest>, maxTransfer: nat)
    requires rs != [] && Sorted(rs) && Within(rs, maxTransfer)
    ensures Within(Merged(rs, maxTransfer), maxTransfer)
    decreases |rs|
  {
    if |rs| > 1 {
      hide Merged, Extend, Sized, Sorted, Within;
      var n := |rs| - 1;
      FrontOk(rs, n, maxTransfer);
      MergedNext(rs, n, maxTransfer);
      MergedWithin(rs[..n], maxTransfer);
      ExtendWithin(Merged(rs[..n], maxTransfer), rs[n], maxTransfer);
    } else {
      MergedOne(rs, maxTransfer);
    }
  }

  lemma MergedOne(rs: seq<BlockRequest>, maxTransfer: nat)
    requires |rs| == 1
    ensures Merged(rs, maxTransfer) == rs
  {}

  /** Issuing the merged array writes the same disk, byte for byte, as issuing the sorted
      requests one after the other. */
  lemma {:induction false} MergedMeaning(img: Bytes, rs: seq<BlockRequest>, maxTransfer: nat)
    requires rs != [] && Sorted(rs) && Within(rs, maxTransfer)
    ensures WriteAll(img, Merged(rs, maxTransfer)) == WriteAll(img, rs)
    decreases |rs|
  {
    if |rs| > 1 {
      hide Merged, Extend, Sized, Sorted, WriteAll, Write1;
      var n := |rs| - 1;
      FrontOk(rs, n, maxTransfer);
      MergedNext(rs, n, maxTransfer);
      MergedMeaning(img, rs[..n], maxTransfer);
      MergedWithin(rs[..n], maxTransfer);
      WriteAllSnoc(img, rs[..n], rs[n]);
      SnocMeaning(img, Merged(rs[..n], maxTransfer), rs[n], maxTransfer);
    } else {
      MergedOne(rs, maxTransfer);
    }
  }

  lemma SnocMeaning(img: Bytes, out: seq<BlockRequest>, r: BlockRequest, maxTransfer: nat)
    requires out != [] && Sized(out[|out| - 1]) && Sized(r) && out[|out| - 1].sector <= r.sector
    ensures WriteAll(img, Extend(out, r, maxTransfer)) == Write1(WriteAll(img, out), r)
  {
    var pre, last := out[..|out| - 1], out[|out| - 1];
    if Mergeable(last, r, maxTransfer) {
      Merge2Meaning(WriteAll(img, pre), last, r);
      assert Extend(out, r, maxTransfer) == pre + [Merge2(last, r)];
      WriteAllSnoc(img, pre, Merge2(last, r));
    } else {
      WriteAllSnoc(img, out, r);
    }
  }

  // ----- how much is merged -----

  /** Every request but the first starts in, or right after, one before it. */
  ghost predicate Touching(rs: seq<BlockRequest>) {
    forall i :: 0 < i < |rs| ==> Reached(rs, i)
  }

  ghost predicate Reached(rs: seq<BlockRequest>, i: nat)
    requires i < |rs|
  {
    exists j :: 0 <= j < i && rs[i].sector <= End(rs[j])
  }

  function End(r: BlockRequest): nat { r.sector + r.nbSectors }

  /** The elements and the sectors of all requests together. */
  function Elements(rs: seq<BlockRequest>): nat {
    if rs == [] then 0 else Elements(rs[..|rs| - 1]) + |rs[|rs| - 1].qiov|
  }

  function Sectors(rs: seq<BlockRequest>): nat {
    if rs == [] then 0 else Sectors(rs[..|rs| - 1]) + rs[|rs| - 1].nbSectors
  }

  /** `a` covers the requests, from the first one's start to the last end, and is no larger. */
  ghost predicate Spans(a: BlockRequest, rs: seq<BlockRequest>) {
    && rs != [] && a.sector == rs[0].sector && (forall j :: 0 <= j < |rs| ==> End(rs[j]) <= End(a))
    && |a.qiov| <= Elements(rs) + |rs| - 1 && a.nbSectors <= Sectors(rs)
  }

  lemma SpansMore(a: BlockRequest, rs: seq<BlockRequest>, r: BlockRequest)
    requires Spans(a, rs) && Sized(a) && Sized(r) && a.sector <= r.sector <= End(a)
    ensures Spans(Merge2(a, r), rs + [r])
  {
    hide Flat, Slice, MergedQiov;
    Merge2Sized(a, r);
    Merge2Count(a, r);
    assert (rs + [r])[..|rs|] == rs;
  }

  /** Requests that touch, and are together within the limits, come out as one. */
  lemma {:induction false} TouchingMerge(rs: seq<BlockRequest>, maxTransfer: nat)
    requires rs != [] && Sorted(rs) && Within(rs, maxTransfer) && Touching(rs)
    requires Elements(rs) + |rs| - 1 <= IOV_MAX && (maxTransfer == 0 || Sectors(rs) <= maxTransfer)
    ensures |Merged(rs, maxTransfer)| == 1 && Spans(Merged(rs, maxTransfer)[0], rs)
    decreases |rs|
  {
    if |rs| == 1 {
      MergedOne(rs, maxTransfer);
      assert rs[..0] == [];
    } else {
      hide Merged, Extend, Within, Touching, Sorted, Elements, Sectors, Spans;
      var n := |rs| - 1;
      FrontOk(rs, n, maxTransfer);
      FrontLimits(rs, n);
      TouchingMerge(rs[..n], maxTransfer);
      MergedWithin(rs[..n], maxTransfer);
      MergedNext(rs, n, maxTransfer);
      JoinsLast(Merged(rs[..n], maxTransfer), rs, n, maxTransfer);
    }
  }

  lemma JoinsLast(out: seq<BlockRequest>, rs: seq<BlockRequest>, n: nat, maxTransfer: nat)
    requires 0 < n == |rs| - 1 && |out| == 1 && Spans(out[0], rs[..n]) && out[0].sector <= rs[n].sector
    requires Within(out, maxTransfer) && Within([rs[n]], maxTransfer) && Reached(rs, n)
    requires Elements(rs[..n]) + |rs[n].qiov| + n <= IOV_MAX
    requires maxTransfer == 0 || Sectors(rs[..n]) + rs[n].nbSectors <= maxTransfer
    ensures |Extend(out, rs[n], maxTransfer)| == 1 && Spans(Extend(out, rs[n], maxTransfer)[0], rs)
  {
    hide Merge2, Sized, Elements, Sectors;
    var a, r := out[0], rs[n];
    assert Sized(out[0]) && Sized([r][0]);
    var j :| 0 <= j < n && r.sector <= End(rs[j]);
    assert End(rs[..n][j]) <= End(a);
    SpansMore(a, rs[..n], r);
    assert rs[..n] + [r] == rs;
  }

  lemma FrontLimits(rs: seq<BlockRequest>, n: nat)
    requires 0 < n == |rs| - 1 && Touching(rs)
    ensures Touching(rs[..n]) && Reached(rs, n) && Elements(rs) == Elements(rs[..n]) + |rs[n].qiov|
    ensures Sectors(rs) == Sectors(rs[..n]) + rs[n].nbSectors
  {
    forall i | 0 < i < n ensures Reached(rs[..n], i) {
      assert Reached(rs, i);
      var j :| 0 <= j < i && rs[i].sector <= End(rs[j]);
      assert rs[..n][j] == rs[j];
    }
  }

  /** Why the request that starts `b` was not merged into `a`: there is a gap, or a limit. */
  ghost predicate KeptApart(a: BlockRequest, b: BlockRequest, rs: seq<BlockRequest>, maxTransfer: nat) {
    exists i :: 0 <= i < |rs| && rs[i].sector == b.sector && TooFar(a, rs[i], maxTransfer)
  }

  predicate TooFar(a: BlockRequest, r: BlockRequest, maxTransfer: nat) {
    || End(a) < r.sector || |a.qiov| + |r.qiov| >= IOV_MAX
    || (maxTransfer > 0 && a.nbSectors + r.nbSectors > maxTransfer)
  }

  /** What comes out as two requests has a gap between, or could not be one within the limits. */
  lemma {:induction false} MergedApart(rs: seq<BlockRequest>, maxTransfer: nat)
    requires rs != [] && Sorted(rs)
    ensures var out := Merged(rs, maxTransfer);
      forall j :: 0 <= j < |out| - 1 ==> KeptApart(out[j], out[j + 1], rs, maxTransfer)
    decreases |rs|
  {
    if |rs| > 1 {
      var n := |rs| - 1;
      var front, r := rs[..n], rs[n];
      MergedApart(front, maxTransfer);
      MergedNext(rs, n, maxTransfer);
      assert rs[..n + 1] == rs;
      hide Merged;
      var before, out := Merged(front, maxTransfer), Merged(rs, maxTransfer);
      assert before[|before| - 1].sector <= r.sector by { assert front[n - 1].sector <= r.sector; }
      hide Merge2;
      forall j | 0 <= j < |out| - 1 ensures KeptApart(out[j], out[j + 1], rs, maxTransfer) {
        if j < |before| - 1 {
          var i :| 0 <= i < n && front[i].sector == before[j + 1].sector && TooFar(before[j], front[i], maxTransfer);
          SameStart(before[|before| - 1], r);
          assert rs[i] == front[i] && out[j] == before[j] && out[j + 1].sector == before[j + 1].sector;
        } else {
          assert TooFar(out[j], rs[n], maxTransfer);
        }
      }
    }
  }

  lemma SameStart(a: BlockRequest, b: BlockRequest)
    requires a.sector <= b.sector
    ensures Merge2(a, b).sector == a.sector
  {}

  /** The merged request, built as the source builds it. */
  method MergePair(a: BlockRequest, b: BlockRequest) returns (c: BlockRequest)
    requires a.sector <= b.sector
    ensures c == Merge2(a, b)
  {
    hide Flat, Slice;
    var size := (b.sector - a.sector) * SECTOR;
    var v := IovecConcat([], a.qiov, 0, size);
    assert v == Slice(a.qiov, 0, size);
    v := IovecConcat(v, b.qiov, 0, |Flat(b.qiov)|);
    if |Flat(v)| < |Flat(a.qiov)| {
      v := IovecConcat(v, a.qiov, |Flat(v)|, |Flat(a.qiov)| - |Flat(v)|);
    }
    c := BlockRequest(a.sector, |Flat(v)| / SECTOR, v);
  }

  /** Whether the loop merges two requests. */
  method CanMerge(a: BlockRequest, b: BlockRequest, maxTransfer: nat) returns (merge: bool)
    ensures merge <==> Mergeable(a, b, maxTransfer)
  {
    merge := b.sector <= a.sector + a.nbSectors;
    if |a.qiov| + |b.qiov| + 1 > IOV_MAX {
      merge := false;
    }
    if maxTransfer != 0 && a.nbSectors + b.nbSectors > maxTransfer {
      merge := false;
    }
  }

  /** One round of the loop, on the array. */
  method MergeNext(reqs: array<BlockRequest>, outidx: nat, i: nat, maxTransfer: nat) returns (next: nat)
    requires outidx < i < reqs.Length && reqs[outidx].sector <= reqs[i].sector
    modifies reqs
    ensures outidx <= next <= i && reqs[i + 1..] == old(reqs[i + 1..])
    ensures reqs[..next + 1] == Extend(old(reqs[..outidx + 1]), old(reqs[i]), maxTransfer)
  {
    hide Flat, MergedQiov, Merge2, Mergeable;
    ghost var out := reqs[..outidx + 1];
    var merge := CanMerge(reqs[outidx], reqs[i], maxTransfer);
    if merge {
      var c := MergePair(reqs[outidx], reqs[i]);
      reqs[outidx] := c;
      next := outidx;
      assert reqs[..next + 1] == out[outidx := c];
    } else {
      next := outidx + 1;
      reqs[next] := reqs[i];
      assert reqs[..next + 1] == out + [old(reqs[i])];
    }
  }

  /** multiwrite_merge on an array the sort has put in order. */
  method MultiwriteMerge(reqs: array<BlockRequest>, maxTransfer: nat) returns (n: nat)
    requires reqs.Length > 0 && Sorted(reqs[..])
    modifies reqs
    ensures n <= reqs.Length && reqs[..n] == Merged(old(reqs[..]), maxTransfer)
  {
    hide Extend, Merged;
    ghost var all := reqs[..];
    var outidx, i := 0, 1;
    assert all[..1] == reqs[..1];
    MergedOne(all[..1], maxTransfer);
    while i < reqs.Length
      invariant 0 <= outidx < i <= reqs.Length
      invariant reqs[i..] == all[i..]
      invariant reqs[..outidx + 1] == Merged(all[..i], maxTransfer)
    {
      assert reqs[i] == all[i] && reqs[i + 1..] == all[i + 1..] by {
        assert reqs[i..][0] == all[i..][0] && reqs[i..][1..] == all[i..][1..];
      }
      assert reqs[outidx].sector <= all[i].sector by {
        assert reqs[..outidx + 1][outidx].sector <= all[..i][i - 1].sector;
      }
      MergedNext(all, i, maxTransfer);
      outidx := MergeNext(reqs, outidx, i, maxTransfer);
      i := i + 1;
    }
    assert all[..i] == all;
    n := outidx + 1;
  }

  lemma MergedNext(all: seq<BlockRequest>, i: nat, maxTransfer: nat)
    requires 0 < i < |all| && Sorted(all)
    ensures Merged(all[..i + 1], maxTransfer) == Extend(Merged(all[..i], maxTransfer), all[i], maxTransfer)
  {
    assert all[..i + 1][..i] == all[..i];
  }
}
