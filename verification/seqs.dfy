/** Queries over an ordered table, in the style of the ORM's `filter(...).first()`. */
module Seqs {
  import opened Wrappers

  /** The position of the first element satisfying `p`, or None when there is none. */
  function FirstWhere<T>(s: seq<T>, p: T -> bool): (r: Option<nat>)
    ensures r.Some? ==> r.value < |s| && p(s[r.value])
    ensures r.Some? ==> forall j :: 0 <= j < r.value ==> !p(s[j])
    ensures r.None? <==> forall j :: 0 <= j < |s| ==> !p(s[j])
  {
    if |s| == 0 then None
    else if p(s[0]) then Some(0)
    else match FirstWhere(s[1..], p)
      case None => None
      case Some(k) => Some(k + 1)
  }
}
