/** Running a fallible step over a list: the loops that append results and stop at the
    first error. */
module Traversal {
  import opened Ordering

  /** f of every element in order; the first error is the outcome. */
  function Each<S, T, E>(s: seq<S>, f: S -> Result<T, E>): (r: Result<seq<T>, E>)
    ensures r.Ok? ==> |r.value| == |s| && forall i | 0 <= i < |s| :: f(s[i]) == Ok(r.value[i])
    ensures r.Ok? <==> forall i | 0 <= i < |s| :: f(s[i]).Ok?
  {
    if s == [] then Ok([])
    else
      var n := |s| - 1;
      match Each(s[..n], f)
      case Err(e) => Err(e)
      case Ok(ts) =>
        match f(s[n])
        case Err(e) => Err(e)
        case Ok(t) => Ok(ts + [t])
  }

  lemma {:induction false} EachStops<S, T, E>(s: seq<S>, f: S -> Result<T, E>, i: nat)
    requires i <= |s| && Each(s[..i], f).Err?
    ensures Each(s, f) == Each(s[..i], f)
    decreases |s|
  {
    if i == |s| {
      assert s[..i] == s;
    } else {
      assert s[..|s| - 1][..i] == s[..i];
      EachStops(s[..|s| - 1], f, i);
    }
  }

  method RunEach<S, T, E>(s: seq<S>, f: S -> Result<T, E>) returns (r: Result<seq<T>, E>)
    ensures r == Each(s, f)
  {
    var out: seq<T> := [];
    for i := 0 to |s|
      invariant Each(s[..i], f) == Ok(out)
    {
      var t := f(s[i]);
      assert s[..i + 1][..i] == s[..i];
      match t {
        case Err(e) =>
          EachStops(s, f, i + 1);
          return Err(e);
        case Ok(v) =>
          out := out + [v];
      }
    }
    assert s[..|s|] == s;
    r := Ok(out);
  }

  /** The results are these exactly when each element's is. */
  lemma EachIs<S, T(!new), E(!new)>(s: seq<S>, f: S -> Result<T, E>, ts: seq<T>)
    ensures Each(s, f) == Ok(ts) <==> |ts| == |s| && forall i | 0 <= i < |s| :: f(s[i]) == Ok(ts[i])
  {
    if |ts| == |s| && forall i | 0 <= i < |s| :: f(s[i]) == Ok(ts[i]) {
      assert Each(s, f).value == ts;
    }
  }

  /** All but the last element, and the last. */
  lemma EachSnoc<S, T, E>(s: seq<S>, f: S -> Result<T, E>)
    requires s != [] && Each(s, f).Ok?
    ensures var n := |s| - 1;
            && Each(s[..n], f).Ok? && Each(s[..n], f).value == Each(s, f).value[..n]
            && f(s[n]) == Ok(Each(s, f).value[n])
  {
  }
}
