/** The ordered first-match search both keyword lookups perform: a `for`
    loop over an insertion-ordered dict that returns at the first entry
    whose test succeeds. */
module Search {
  import opened Wrappers

  /** The position of the first element of `s` that satisfies `p`, or `None`
      when no element does. */
  function FirstIndex<T>(s: seq<T>, p: T -> bool): (r: Option<nat>)
    ensures r.Some? ==> r.value < |s| && p(s[r.value])
    ensures r.Some? ==> forall j :: 0 <= j < r.value ==> !p(s[j])
    ensures r.None? <==> forall j :: 0 <= j < |s| ==> !p(s[j])
  {
    if s == [] then None
    else if p(s[0]) then Some(0)
    else match FirstIndex(s[1..], p)
      case None => None
      case Some(k) => Some(k + 1)
  }
}
