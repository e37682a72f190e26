/** Committing an overlay into its backing image (bdrv_commit). */
module Commit {
  import opened Arith

  const COMMIT_BUF_SECTORS: nat := 2048

  type Sector = seq<bv8>

  /** How the drivers answer during one commit: the length of the run bdrv_is_allocated reports
      at a sector, which calls fail, and what a call that fails has done before: how far the
      backing image was grown, what a failing write has put in the sectors of its run, and which
      sectors are left in an overlay that could not be emptied. */
  datatype Drivers = Drivers(
    run: nat -> nat,
    truncateFails: bool, grown: nat,
    statusFails: nat -> bool, readFails: nat -> bool,
    writeFails: nat -> bool, torn: nat -> Sector,
    canMakeEmpty: bool, makeEmptyFails: bool, kept: nat -> bool
  )

  /** What a guest sees at sector s of an overlay over a backing image. */
  function SeenAt(overlay: map<nat, Sector>, backing: seq<Sector>, zero: Sector, s: nat): Sector {
    if s in overlay then overlay[s]
    else if s < |backing| then backing[s]
    else zero
  }

  function ReadSectors(overlay: map<nat, Sector>, backing: seq<Sector>, zero: Sector, s: nat, n: nat): (r: seq<Sector>)
    ensures |r| == n && forall k :: s <= k < s + n ==> r[k - s] == SeenAt(overlay, backing, zero, k)
  {
    seq(n, k requires 0 <= k < n => SeenAt(overlay, backing, zero, s + k))
  }

  /** bdrv_is_allocated answers for a non-empty run of sectors of one kind. */
  ghost predicate RunsOk(d: Drivers, overlay: map<nat, Sector>, total: nat) {
    forall s :: 0 <= s < total ==>
      && 1 <= d.run(s) <= COMMIT_BUF_SECTORS && s + d.run(s) <= total
      && forall k :: s <= k < s + d.run(s) ==> (k in overlay <==> s in overlay)
  }

  /** No call fails at a run the copy loop comes to from sector `at` on. */
  ghost predicate Clean(d: Drivers, overlay: map<nat, Sector>, total: nat, at: nat)
    requires RunsOk(d, overlay, total)
    decreases if at < total then total - at else 0
  {
    at < total ==>
      && !d.statusFails(at) && (at in overlay ==> !d.readFails(at) && !d.writeFails(at))
      && Clean(d, overlay, total, at + d.run(at))
  }

  /** The whole commit has no call that fails. */
  ghost predicate Succeeds(d: Drivers, overlay: map<nat, Sector>, total: nat, length: nat)
    requires RunsOk(d, overlay, total)
  {
    (total > length ==> !d.truncateFails) && Clean(d, overlay, total, 0) && (d.canMakeEmpty ==> !d.makeEmptyFails)
  }

  /** The backing image once the sectors below `sector` have been copied to it. */
  ghost predicate Copied(backing: seq<Sector>, before: seq<Sector>, overlay: map<nat, Sector>, zero: Sector, total: nat,
                         sector: nat) {
    && |backing| == Max(total, |before|) && sector <= total
    && (forall s :: 0 <= s < sector ==> backing[s] == SeenAt(overlay, before, zero, s))
    && (forall s :: sector <= s < |backing| ==> backing[s] == if s < |before| then before[s] else zero)
  }

  /** The backing image when the sectors below `sector` have been copied to it, and a write of
      the n sectors from there on has failed: these may hold anything. */
  ghost predicate Torn(backing: seq<Sector>, before: seq<Sector>, overlay: map<nat, Sector>, zero: Sector, total: nat,
                       sector: nat, n: nat)
  {
    && |backing| == Max(total, |before|) && sector + n <= total
    && (forall s :: 0 <= s < sector ==> backing[s] == SeenAt(overlay, before, zero, s))
    && (forall s :: sector <= s < sector + n ==> s in overlay)
    && (forall s :: sector + n <= s < |backing| ==> backing[s] == if s < |before| then before[s] else zero)
  }

  lemma NotTorn(backing: seq<Sector>, before: seq<Sector>, overlay: map<nat, Sector>, zero: Sector, total: nat,
                sector: nat)
    ensures Torn(backing, before, overlay, zero, total, sector, 0) <==>
      Copied(backing, before, overlay, zero, total, sector)
  {}

  /** A write that fails can change only the sectors it was to write. */
  lemma RunTorn(backing: seq<Sector>, backing': seq<Sector>, before: seq<Sector>, overlay: map<nat, Sector>,
                zero: Sector,
                total: nat, sector: nat, n: nat)
    requires Copied(backing, before, overlay, zero, total, sector) && sector + n <= total
    requires forall k :: sector <= k < sector + n ==> k in overlay
    requires |backing'| == |backing|
    requires forall s :: 0 <= s < |backing| && !(sector <= s < sector + n) ==> backing'[s] == backing[s]
    ensures Torn(backing', before, overlay, zero, total, sector, n)
  {}

  /** At no time does the view through the overlay change, also after a write that failed. */
  lemma ViewStays(backing: seq<Sector>, before: seq<Sector>, overlay: map<nat, Sector>, zero: Sector, total: nat,
                  sector: nat, n: nat, s: nat)
    requires Torn(backing, before, overlay, zero, total, sector, n)
    ensures SeenAt(overlay, backing, zero, s) == SeenAt(overlay, before, zero, s)
  {}

  /** Once all is copied the view does not depend on what is left of the overlay. */
  lemma ViewWithout(backing: seq<Sector>, before: seq<Sector>, overlay: map<nat, Sector>, overlay': map<nat, Sector>,
                    zero: Sector, total: nat, s: nat)
    requires Copied(backing, before, overlay, zero, total, total) && s < total && Part(overlay', overlay)
    ensures SeenAt(overlay', backing, zero, s) == SeenAt(overlay, before, zero, s) == backing[s]
  {}

  /** Some of the sectors of an overlay. */
  ghost predicate Part(overlay': map<nat, Sector>, overlay: map<nat, Sector>) {
    forall s :: s in overlay' ==> s in overlay && overlay'[s] == overlay[s]
  }

  /** A run that is not allocated needs no copying. */
  lemma RunSkipped(backing: seq<Sector>, before: seq<Sector>, overlay: map<nat, Sector>, zero: Sector, total: nat,
                   sector: nat, n: nat)
    requires Copied(backing, before, overlay, zero, total, sector) && sector + n <= total
    requires forall k :: sector <= k < sector + n ==> k !in overlay
    ensures Copied(backing, before, overlay, zero, total, sector + n)
  {}

  /** Copying an allocated run. */
  lemma RunCopied(backing: seq<Sector>, backing': seq<Sector>, before: seq<Sector>, overlay: map<nat, Sector>,
                  zero: Sector, total: nat, sector: nat, n: nat)
    requires Copied(backing, before, overlay, zero, total, sector) && sector + n <= total
    requires forall k :: sector <= k < sector + n ==> k in overlay
    requires backing' == backing[..sector] + ReadSectors(overlay, backing, zero, sector, n) + backing[sector + n..]
    ensures Copied(backing', before, overlay, zero, total, sector + n)
  {
    var buf := ReadSectors(overlay, backing, zero, sector, n);
    forall s | sector <= s < sector + n ensures backing'[s] == overlay[s] {
      assert backing'[s] == buf[s - sector];
    }
  }

  class Overlay {
    var overlay: map<nat, Sector>  // sectors allocated in the top image
    var total: nat                 // its length in sectors
    var backing: seq<Sector>
    const zero: Sector

    constructor (overlay: map<nat, Sector>, total: nat, backing: seq<Sector>, zero: Sector)
      ensures this.overlay == overlay && this.total == total && this.backing == backing && this.zero == zero
    {
      this.overlay, this.total, this.backing, this.zero := overlay, total, backing, zero;
    }

    /** The copy loop: whether it ends or fails, the sectors it has passed are copied, and only
        those of a write that failed may hold anything. */
    method CopyLoop(d: Drivers, ghost before: seq<Sector>) returns (ok: bool, ghost sector: nat, ghost n: nat)
      requires RunsOk(d, overlay, total) && Copied(backing, before, overlay, zero, total, 0)
      modifies `backing
      ensures Torn(backing, before, overlay, zero, total, sector, n) && (ok ==> sector == total && n == 0)
      ensures ok <==> Clean(d, overlay, total, 0)
    {
      hide Copied, Torn, SeenAt;
      var at := 0;
      while at < total
        invariant at <= total && Copied(backing, before, overlay, zero, total, at)
        invariant Clean(d, overlay, total, at) <==> Clean(d, overlay, total, 0)
      {
        NotTorn(backing, before, overlay, zero, total, at);
        if d.statusFails(at) {
          return false, at, 0;
        }
        var run := d.run(at);
        assert forall k :: at <= k < at + run ==> (k in overlay <==> at in overlay);
        if at in overlay {
          if d.readFails(at) {
            return false, at, 0;
          }
          var buf := ReadSectors(overlay, backing, zero, at, run);
          CopiedLength(backing, before, overlay, zero, total, at);
          if d.writeFails(at) {
            ghost var was := backing;
            backing := backing[..at] + seq(run, k requires 0 <= k < run => d.torn(at + k)) + backing[at + run..];
            RunTorn(was, backing, before, overlay, zero, total, at, run);
            return false, at, run;
          }
          RunCopied(backing, backing[..at] + buf + backing[at + run..], before, overlay, zero, total, at, run);
          backing := backing[..at] + buf + backing[at + run..];
        } else {
          RunSkipped(backing, before, overlay, zero, total, at, run);
        }
        at := at + run;
      }
      NotTorn(backing, before, overlay, zero, total, at);
      return true, at, 0;
    }

    /** bdrv_commit from the length checks on. On every return, good or bad, and whatever a call
        that failed had done already, the guest sees what it saw; after success the backing image
        shows it on its own. */
    method Commit(d: Drivers) returns (ok: bool)
      requires RunsOk(d, overlay, total)
      modifies `backing, `overlay
      ensures forall s: nat :: s < total ==>
        SeenAt(overlay, backing, zero, s) == SeenAt(old(overlay), old(backing), zero, s)
      ensures ok ==> |backing| >= total && forall s :: 0 <= s < total ==>
        backing[s] == SeenAt(old(overlay), old(backing), zero, s)
      ensures ok <==> Succeeds(d, old(overlay), total, old(|backing|))
      ensures ok ==> overlay == if d.canMakeEmpty then map[] else old(overlay)
      ensures !ok ==> Part(overlay, old(overlay))
      ensures forall s :: total <= s < old(|backing|) ==> s < |backing| && backing[s] == old(backing)[s]
      ensures old(|backing|) <= |backing| <= Max(total, old(|backing|))
    {
      if total > |backing| {
        if d.truncateFails {
          backing := backing + seq(Min(d.grown, total - |backing|), _ => zero);
          return false;
        }
        backing := backing + seq(total - |backing|, _ => zero);
      }
      ghost var sector, n;
      ok, sector, n := CopyLoop(d, old(backing));
      forall s: nat ensures SeenAt(overlay, backing, zero, s) == SeenAt(overlay, old(backing), zero, s) {
        ViewStays(backing, old(backing), overlay, zero, total, sector, n, s);
      }
      if !ok {
        return false;
      }
      if d.canMakeEmpty {
        NotTorn(backing, old(backing), overlay, zero, total, total);
        if d.makeEmptyFails {
          overlay := map s | s in overlay && d.kept(s) :: overlay[s];
          ok := false;
        } else {
          overlay := map[];
        }
        forall s: nat | s < total
          ensures SeenAt(overlay, backing, zero, s) == SeenAt(old(overlay), old(backing), zero, s)
        {
          ViewWithout(backing, old(backing), old(overlay), overlay, zero, total, s);
        }
      }
    }
  }

  lemma CopiedLength(backing: seq<Sector>, before: seq<Sector>, overlay: map<nat, Sector>, zero: Sector, total: nat,
                     sector: nat)
    requires Copied(backing, before, overlay, zero, total, sector)
    ensures sector <= total <= |backing|
  {}
}
