/** Sequence helpers that stand in for Kotlin's collection operations (`zip`, `flatten`). */
module Collections {

  function Min(a: int, b: int): (m: int)
    ensures m <= a && m <= b && (m == a || m == b)
  {
    if a <= b then a else b
  }

  /** Kotlin's `zip`: pairs elements position by position and stops at the shorter list. */
  function Zip<A, B>(xs: seq<A>, ys: seq<B>): (r: seq<(A, B)>)
    ensures |r| == Min(|xs|, |ys|)
    ensures forall i :: 0 <= i < |r| ==> r[i] == (xs[i], ys[i])
  {
    if xs == [] || ys == [] then [] else [(xs[0], ys[0])] + Zip(xs[1..], ys[1..])
  }

  /** Concatenation of a list of lists, in order. */
  function Flatten<T>(xss: seq<seq<T>>): seq<T>
  {
    if xss == [] then [] else xss[0] + Flatten(xss[1..])
  }

  lemma {:induction false} FlattenAppend<T>(a: seq<seq<T>>, b: seq<seq<T>>)
    ensures Flatten(a + b) == Flatten(a) + Flatten(b)
  {
    if a == [] {
      assert a + b == b;
    } else {
      assert (a + b)[1..] == a[1..] + b;
      FlattenAppend(a[1..], b);
    }
  }

  /** The first components of a list of pairs (`map { it.first }`). */
  function Firsts<A, B>(ps: seq<(A, B)>): (xs: seq<A>)
    ensures |xs| == |ps| && forall i :: 0 <= i < |ps| ==> xs[i] == ps[i].0
  {
    seq(|ps|, i requires 0 <= i < |ps| => ps[i].0)
  }

  /** The second components of a list of pairs (`map { it.second }`). */
  function Seconds<A, B>(ps: seq<(A, B)>): (ys: seq<B>)
    ensures |ys| == |ps| && forall i :: 0 <= i < |ps| ==> ys[i] == ps[i].1
  {
    seq(|ps|, i requires 0 <= i < |ps| => ps[i].1)
  }

  /** Splitting a list of pairs and zipping the halves back gives the list. */
  lemma ZipUnzip<A, B>(ps: seq<(A, B)>)
    ensures Zip(Firsts(ps), Seconds(ps)) == ps
  {
    var z := Zip(Firsts(ps), Seconds(ps));
    assert |z| == |ps|;
    forall i | 0 <= i < |ps|
      ensures z[i] == ps[i]
    {
    }
  }

  /** Division with remainder is unique. */
  lemma DivMod(u: int, k: int, q: int, r: int)
    requires k > 0 && 0 <= r < k && u == q * k + r
    ensures u / k == q && u % k == r
  {
    var q', r' := u / k, u % k;
    assert (q - q') * k == r' - r;
    if q > q' {
      MulAtLeast(q - q', k);
    } else if q < q' {
      MulAtLeast(q' - q, k);
    }
  }

  lemma MulAtLeast(x: int, k: int)
    requires x >= 1 && k > 0
    ensures x * k >= k
  {
  }
}
