/** The lists an AioContext keeps, as sequences of node names, head first. */
module NodeLists {
  import opened Lists
  import opened Wrappers

  /** The list from a node on. */
  function From(s: seq<nat>, id: nat): seq<nat> {
    if s == [] then [] else if s[0] == id then s else From(s[1..], id)
  }

  function After(s: seq<nat>, id: nat): seq<nat> {
    var t := From(s, id);
    if t == [] then [] else t[1..]
  }

  function First(s: seq<nat>): Option<nat> {
    if s == [] then None else Some(s[0])
  }

  /** QLIST_NEXT. */
  function Next(s: seq<nat>, id: nat): Option<nat> {
    var t := From(s, id);
    if |t| <= 1 then None else Some(t[1])
  }

  /** Nodes were only put in front. */
  ghost predicate Grown(before: seq<nat>, after: seq<nat>) {
    |before| <= |after| && after[|after| - |before|..] == before
  }

  lemma GrownTrans(a: seq<nat>, b: seq<nat>, c: seq<nat>)
    requires Grown(a, b) && Grown(b, c)
    ensures Grown(a, c)
  {
    assert c[|c| - |a|..] == c[|c| - |b|..][|b| - |a|..];
  }

  lemma GrownIn(a: seq<nat>, b: seq<nat>, id: nat)
    requires Grown(a, b) && id in a
    ensures id in b
  {
    var i :| 0 <= i < |a| && a[i] == id;
    assert b[|b| - |a|..][i] == b[|b| - |a| + i];
  }

  lemma {:induction false} FromIn(s: seq<nat>, id: nat)
    ensures id in s <==> From(s, id) != []
    ensures id in s ==> From(s, id)[0] == id && Grown(From(s, id), s)
  {
    if s != [] && s[0] != id {
      FromIn(s[1..], id);
      if id in s { GrownTrans(From(s[1..], id), s[1..], s); }
    }
  }

  /** What follows a node does not change when the list grows. */
  lemma {:induction false} FromGrown(a: seq<nat>, b: seq<nat>, id: nat)
    requires Grown(a, b) && Distinct(b) && id in a
    ensures From(b, id) == From(a, id) && After(b, id) == After(a, id) && Next(b, id) == Next(a, id)
  {
    if |a| == |b| {
      assert a == b;
    } else {
      GrownIn(a, b[1..], id);
      FromGrown(a, b[1..], id);
    }
  }

  /** Stepping to the next node. */
  lemma FromNext(s: seq<nat>, id: nat)
    requires Distinct(s) && id in s && Next(s, id).Some?
    ensures var n := Next(s, id).value; n in s && From(s, n) == After(s, id)
  {
    FromIn(s, id);
    var t := From(s, id);
    var n := t[1];
    assert t[1..][0] == n;
    assert Grown(t[1..], s) by { GrownTrans(t[1..], t, s); }
    GrownIn(t[1..], s, n);
    FromGrown(t[1..], s, n);
  }

  /** Removing a node does not change what follows it. */
  lemma {:induction false} WithoutAfter(s: seq<nat>, id: nat)
    requires Distinct(s)
    ensures Grown(After(s, id), Without(s, id))
  {
    if s == [] {
    } else if s[0] == id {
      WithoutAbsent(s[1..], id);
    } else {
      WithoutAfter(s[1..], id);
      assert Grown(Without(s[1..], id), Without(s, id));
      GrownTrans(After(s[1..], id), Without(s[1..], id), Without(s, id));
    }
  }
}
