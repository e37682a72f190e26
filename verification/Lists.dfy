/** Linked lists as sequences of names, head first. */
module Lists {
  predicate Distinct(ids: seq<nat>) {
    forall i, j :: 0 <= i < j < |ids| ==> ids[i] != ids[j]
  }

  /** QLIST_REMOVE, for a list that holds each name once. */
  function Without(ids: seq<nat>, id: nat): (r: seq<nat>)
    ensures forall i :: i in r <==> i in ids && i != id
    ensures Distinct(ids) ==> Distinct(r)
  {
    if ids == [] then [] else
      var rest := Without(ids[1..], id);
      if ids[0] == id then rest else
        assert Distinct(ids) ==> ids[0] !in ids[1..];
        [ids[0]] + rest
  }

  lemma {:induction false} WithoutAbsent(ids: seq<nat>, id: nat)
    requires id !in ids
    ensures Without(ids, id) == ids
  {
    if ids != [] { WithoutAbsent(ids[1..], id); }
  }
}
