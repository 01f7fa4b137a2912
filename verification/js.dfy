/**
  Small vocabulary shared by every module of the model: optional values
  (JavaScript's null/undefined), JavaScript's truthiness-based `||` over
  strings, and a first-match search over a sequence (`Array.prototype.find`
  and `findIndex`).
 */
module Js {

  /** A value that may be absent; `None` stands for `null` or `undefined`. */
  datatype Option<+T> = None | Some(value: T) {

    /** The encapsulated value, or `default` when absent. */
    function GetOr(default: T): T {
      match this
      case Some(v) => v
      case None => default
    }
  }

  /** A string is truthy in JavaScript exactly when it is non-empty. */
  predicate Truthy(s: Option<string>) {
    s.Some? && s.value != ""
  }

  /** JavaScript's `a || b` where `a` is an optional string and `b` a string. */
  function Or(a: Option<string>, b: string): (r: string)
    ensures b != "" ==> r != ""
    ensures r == b || Some(r) == a
    ensures Truthy(a) ==> r == a.value
  {
    if Truthy(a) then a.value else b
  }

  /**
    The index of the first element of `s` satisfying `p`, or `None` when no
    element does (`findIndex` returning -1).
   */
  function FirstIndex<T>(s: seq<T>, p: T -> bool): (r: Option<nat>)
    ensures r.Some? ==> r.value < |s| && p(s[r.value])
    ensures r.Some? ==> forall j :: 0 <= j < r.value ==> !p(s[j])
    ensures r.None? ==> forall j :: 0 <= j < |s| ==> !p(s[j])
  {
    if |s| == 0 then None
    else if p(s[0]) then Some(0)
    else match FirstIndex(s[1..], p)
      case None => None
      case Some(k) => Some(k + 1)
  }

  /** The first element of `s` satisfying `p` (`Array.prototype.find`). */
  function Find<T>(s: seq<T>, p: T -> bool): (r: Option<T>)
    ensures r.Some? <==> exists j :: 0 <= j < |s| && p(s[j])
    ensures r.Some? ==> r.value in s && p(r.value)
    ensures r.Some? ==> exists i :: 0 <= i < |s| && s[i] == r.value && forall j :: 0 <= j < i ==> !p(s[j])
  {
    match FirstIndex(s, p)
    case None => None
    case Some(i) => Some(s[i])
  }
}
