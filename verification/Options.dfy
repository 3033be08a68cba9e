/** A value that may be absent, and searching a sequence for one. */
module Options {
  datatype Option<+T> = None | Some(value: T)

  function OrEmpty(value: Option<string>): string {
    match value
    case None => ""
    case Some(text) => text
  }

  /** The first position whose element satisfies `p`, as `Iterator::position`
      and `Iterator::find` look for it. */
  function First<T>(s: seq<T>, p: T -> bool): (r: Option<nat>)
    ensures r.Some? ==> r.value < |s| && p(s[r.value]) && forall j :: 0 <= j < r.value ==> !p(s[j])
    ensures r.None? ==> forall j :: 0 <= j < |s| ==> !p(s[j])
  {
    if s == [] then None
    else if p(s[0]) then Some(0)
    else
      assert forall j :: 0 < j < |s| ==> s[j] == s[1..][j - 1];
      match First(s[1..], p)
      case None => None
      case Some(i) => Some(i + 1)
  }

  /** The only position that satisfies `p` is the one found. */
  lemma FirstIs<T>(s: seq<T>, p: T -> bool, i: nat)
    requires i < |s| && p(s[i]) && forall j :: 0 <= j < i ==> !p(s[j])
    ensures First(s, p) == Some(i)
  {
  }

  /** Two lists whose elements answer alike, position by position. */
  lemma {:induction false} FirstSame<S, T>(a: seq<S>, p: S -> bool, b: seq<T>, q: T -> bool)
    requires |a| == |b| && forall i :: 0 <= i < |a| ==> p(a[i]) == q(b[i])
    ensures First(a, p) == First(b, q)
  {
    if a != [] && !p(a[0]) {
      FirstSame(a[1..], p, b[1..], q);
    }
  }

  /** The first number below `n` that satisfies `p`. */
  function FirstBelow(n: nat, p: nat -> bool): (r: Option<nat>)
    ensures r.Some? ==> r.value < n && p(r.value) && forall j :: 0 <= j < r.value ==> !p(j)
    ensures r.None? ==> forall j :: 0 <= j < n ==> !p(j)
  {
    if n == 0 then None
    else
      match FirstBelow(n - 1, p)
      case Some(i) => Some(i)
      case None => if p(n - 1) then Some(n - 1) else None
  }
}
