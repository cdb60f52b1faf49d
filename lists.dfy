/** The list updates the note, board and user pages apply once the server
    confirms a change: `list.map(x => x.id === updated.id ? updated : x)`
    and `list.filter(x => x.id !== id)`. The identifier is a parameter,
    so one definition serves all three record types. */
module Lists {

  /** The identifiers of `xs`, in order. */
  function Ids<T>(xs: seq<T>, id: T -> string): (r: seq<string>)
    ensures |r| == |xs|
    ensures forall i :: 0 <= i < |xs| ==> r[i] == id(xs[i])
  {
    seq(|xs|, i requires 0 <= i < |xs| => id(xs[i]))
  }

  /** Every element with the updated element's identifier becomes the
      updated element; the others stay where they are. */
  function ReplaceById<T>(xs: seq<T>, updated: T, id: T -> string): (r: seq<T>)
    ensures |r| == |xs|
    ensures forall i :: 0 <= i < |xs| && id(xs[i]) != id(updated) ==> r[i] == xs[i]
    ensures forall i :: 0 <= i < |xs| && id(xs[i]) == id(updated) ==> r[i] == updated
  {
    seq(|xs|, i requires 0 <= i < |xs| => if id(xs[i]) == id(updated) then updated else xs[i])
  }

  /** A replacement keeps every identifier where it was. */
  lemma ReplaceKeepsIds<T>(xs: seq<T>, updated: T, id: T -> string)
    ensures Ids(ReplaceById(xs, updated, id), id) == Ids(xs, id)
  {
  }

  /** Replacing twice with the same element is replacing once. */
  lemma ReplaceIdempotent<T>(xs: seq<T>, updated: T, id: T -> string)
    ensures ReplaceById(ReplaceById(xs, updated, id), updated, id) == ReplaceById(xs, updated, id)
  {
  }

  /** The updated element is in the result exactly when its identifier
      was in the list: an update for an unknown element changes nothing. */
  lemma ReplaceUnknownIsNoOp<T>(xs: seq<T>, updated: T, id: T -> string)
    ensures id(updated) in Ids(xs, id) <==> updated in ReplaceById(xs, updated, id)
    ensures id(updated) !in Ids(xs, id) ==> ReplaceById(xs, updated, id) == xs
  {
    var r := ReplaceById(xs, updated, id);
    if id(updated) in Ids(xs, id) {
      var i :| 0 <= i < |xs| && Ids(xs, id)[i] == id(updated);
      assert r[i] == updated;
    }
    if updated in r {
      var i :| 0 <= i < |r| && r[i] == updated;
      assert Ids(xs, id)[i] == id(updated);
    }
  }

  /** The elements whose identifier is not `target`, in order. */
  function RemoveById<T(!new)>(xs: seq<T>, target: string, id: T -> string): (r: seq<T>)
    ensures |r| <= |xs|
    ensures forall i :: 0 <= i < |r| ==> id(r[i]) != target
  {
    if xs == [] then []
    else (if id(xs[0]) == target then [] else [xs[0]]) + RemoveById(xs[1..], target, id)
  }

  /** Removal drops every element with identifier `target`, however often
      it occurs, and keeps every other element as often as it occurs. */
  lemma {:induction false} RemoveCounts<T(!new)>(xs: seq<T>, target: string, id: T -> string)
    ensures forall x :: multiset(RemoveById(xs, target, id))[x] == if id(x) == target then 0 else multiset(xs)[x]
  {
    if xs != [] {
      RemoveCounts(xs[1..], target, id);
      assert xs == [xs[0]] + xs[1..];
    }
  }

  /** Removal works piece by piece, so the survivors keep their order. */
  lemma {:induction false} RemoveDistributes<T(!new)>(xs: seq<T>, ys: seq<T>, target: string, id: T -> string)
    ensures RemoveById(xs + ys, target, id) == RemoveById(xs, target, id) + RemoveById(ys, target, id)
  {
    if xs == [] {
      assert xs + ys == ys;
    } else {
      var head := if id(xs[0]) == target then [] else [xs[0]];
      assert (xs + ys)[0] == xs[0] && (xs + ys)[1..] == xs[1..] + ys;
      assert RemoveById(xs + ys, target, id) == head + RemoveById(xs[1..] + ys, target, id);
      RemoveDistributes(xs[1..], ys, target, id);
      assert RemoveById(xs, target, id) == head + RemoveById(xs[1..], target, id);
    }
  }

  /** Removing an identifier that is not in the list changes nothing. */
  lemma {:induction false} RemoveAbsentIsNoOp<T(!new)>(xs: seq<T>, target: string, id: T -> string)
    requires forall i :: 0 <= i < |xs| ==> id(xs[i]) != target
    ensures RemoveById(xs, target, id) == xs
  {
    if xs != [] {
      RemoveAbsentIsNoOp(xs[1..], target, id);
      assert [xs[0]] + xs[1..] == xs;
    }
  }

  /** Removing twice is removing once. */
  lemma RemoveIdempotent<T(!new)>(xs: seq<T>, target: string, id: T -> string)
    ensures RemoveById(RemoveById(xs, target, id), target, id) == RemoveById(xs, target, id)
  {
    RemoveAbsentIsNoOp(RemoveById(xs, target, id), target, id);
  }

  /** Prepending a newly created element and then deleting it restores
      the list, when its identifier was new. */
  lemma CreateThenDelete<T(!new)>(xs: seq<T>, created: T, id: T -> string)
    requires forall i :: 0 <= i < |xs| ==> id(xs[i]) != id(created)
    ensures RemoveById([created] + xs, id(created), id) == xs
  {
    RemoveDistributes([created], xs, id(created), id);
    RemoveAbsentIsNoOp(xs, id(created), id);
  }
}
