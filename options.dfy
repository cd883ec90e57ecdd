/** Optional values and the "first element that satisfies a test" search
    (Kotlin's `firstOrNull { ... }`), shared by the repository and the
    error classifier. */
module Options {

  datatype Option<T> = None | Some(value: T)

  /** `i` is the position of the first element of `s` that satisfies `p`. */
  ghost predicate IsFirstWhere<T>(s: seq<T>, p: T -> bool, i: int)
  {
    0 <= i < |s| && p(s[i]) && forall j :: 0 <= j < i ==> !p(s[j])
  }

  /** The first element of `s` satisfying `p`, or `None` when there is none. */
  function FirstWhere<T>(s: seq<T>, p: T -> bool): (r: Option<T>)
    ensures r.None? <==> forall j :: 0 <= j < |s| ==> !p(s[j])
    ensures forall i :: IsFirstWhere(s, p, i) ==> r == Some(s[i])
    ensures r.Some? ==> exists i :: IsFirstWhere(s, p, i)
  {
    if |s| == 0 then None
    else if p(s[0]) then assert IsFirstWhere(s, p, 0); Some(s[0])
    else
      FirstWhereShift(s, p);
      FirstWhere(s[1..], p)
  }

  /** When the head fails the test, first positions in `s` are those in its
      tail, shifted by one. */
  lemma FirstWhereShift<T>(s: seq<T>, p: T -> bool)
    requires |s| > 0 && !p(s[0])
    ensures forall i :: IsFirstWhere(s, p, i) ==> 1 <= i && IsFirstWhere(s[1..], p, i - 1)
    ensures forall k :: IsFirstWhere(s[1..], p, k) ==> IsFirstWhere(s, p, k + 1)
  {
  }
}
