/** Owner-scoped listings: a listing holds exactly the caller's own rows,
    highest id first. */
module Scoping {

  /** The ids below `bound` of the rows (`owner` maps a row id to the id of
      the profile that owns it) whose owner is one of `mine`, in strictly
      descending order. */
  function OwnedDescending(owner: map<nat, nat>, mine: set<nat>, bound: nat): (r: seq<nat>)
    ensures forall i, j :: 0 <= i < j < |r| ==> r[i] > r[j]
    ensures forall i :: 0 <= i < |r| ==> r[i] < bound && r[i] in owner && owner[r[i]] in mine
    ensures forall k :: k < bound && k in owner && owner[k] in mine ==> k in r
  {
    if bound == 0 then []
    else
      var rest := OwnedDescending(owner, mine, bound - 1);
      if bound - 1 in owner && owner[bound - 1] in mine then [bound - 1] + rest else rest
  }
}
