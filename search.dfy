/** The first element of a list that satisfies a test: the shape of a `foreach` that stops at the first hit. */
module Search {
  import opened Wrappers

  function FirstIndex<T>(s: seq<T>, p: T -> bool): (k: Option<nat>)
    ensures k.Some? ==> k.value < |s| && p(s[k.value])
    ensures k.Some? ==> forall j :: 0 <= j < k.value ==> !p(s[j])
    ensures k.None? <==> forall j :: 0 <= j < |s| ==> !p(s[j])
  {
    if s == [] then None
    else if p(s[0]) then Some(0)
    else match FirstIndex(s[1..], p)
      case None => None
      case Some(k) => Some(k + 1)
  }

  /** How many elements the loop examines: up to and including the first hit, or all of them. */
  function Examined<T>(s: seq<T>, p: T -> bool): (n: nat)
    ensures n <= |s|
    ensures FirstIndex(s, p).Some? <==> n > 0 && p(s[n - 1]) && forall j :: 0 <= j < n - 1 ==> !p(s[j])
    ensures FirstIndex(s, p).None? ==> n == |s|
  {
    match FirstIndex(s, p)
    case Some(k) => k + 1
    case None => |s|
  }
}
