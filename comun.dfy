/**
 * Pieces shared by the beam models: a Result type for the error paths,
 * the 500-point sampling of the span done by `np.linspace(0, L, 500)`,
 * finite sums over load lists, and the element-wise `momentos += ...`
 * update of a sampled curve.
 */
module Comun {

  datatype Result<+T, +E> = Success(value: T) | Failure(error: E)

  /** Number of abscissae of every moment curve. */
  const Muestras: nat := 500

  /** The i-th abscissa of `np.linspace(0, longitud, 500)`. */
  function Abscisa(longitud: real, i: nat): (x: real)
    ensures i == 0 ==> x == 0.0
    ensures i == Muestras - 1 ==> x == longitud
  {
    (i as real) * longitud / ((Muestras - 1) as real)
  }

  /** Consecutive abscissae are one step of `longitud / 499` apart. */
  lemma EspaciadoUniforme(longitud: real, i: nat)
    ensures Abscisa(longitud, i + 1) - Abscisa(longitud, i) == longitud / ((Muestras - 1) as real)
  {
    var n := (Muestras - 1) as real;
    assert (i + 1) as real * longitud == (i as real) * longitud + longitud;
    assert ((i as real) * longitud + longitud) / n == (i as real) * longitud / n + longitud / n;
  }

  /** With a non-negative length the abscissae are non-decreasing and stay inside `[0, longitud]`. */
  lemma AbscisaEnVano(longitud: real, i: nat)
    requires longitud >= 0.0 && i < Muestras
    ensures 0.0 <= Abscisa(longitud, i) <= longitud
    ensures i + 1 < Muestras ==> Abscisa(longitud, i) <= Abscisa(longitud, i + 1)
  {
    var n := (Muestras - 1) as real;
    assert (i as real) <= n;
    assert (i as real) * longitud <= n * longitud;
    assert (i as real) * longitud <= (i + 1) as real * longitud;
  }

  /** The whole abscissa vector. */
  function Linspace(longitud: real): (xs: seq<real>)
    ensures |xs| == Muestras
    ensures xs[0] == 0.0 && xs[Muestras - 1] == longitud
    ensures forall i :: 0 <= i < Muestras ==> xs[i] == Abscisa(longitud, i)
  {
    seq(Muestras, i requires 0 <= i < Muestras => Abscisa(longitud, i))
  }

  /** `sum(f(c) for c in s)`, summed from the front as Python does. */
  function Suma<T>(s: seq<T>, f: T -> real): real
  {
    if |s| == 0 then 0.0 else Suma(s[..|s| - 1], f) + f(s[|s| - 1])
  }

  /** Appending one element adds its term. */
  lemma SumaAgregar<T>(s: seq<T>, x: T, f: T -> real)
    ensures Suma(s + [x], f) == Suma(s, f) + f(x)
  {
    assert (s + [x])[..|s|] == s;
  }

  lemma {:induction false} SumaConcat<T>(a: seq<T>, b: seq<T>, f: T -> real)
    ensures Suma(a + b, f) == Suma(a, f) + Suma(b, f)
    decreases |b|
  {
    if |b| == 0 {
      assert a + b == a;
    } else {
      var n := |b| - 1;
      assert (a + b)[..|a + b| - 1] == a + b[..n];
      SumaConcat(a, b[..n], f);
    }
  }

  /** Taking the j-th term out of a sum leaves the sum of the others. */
  lemma {:induction false} SumaQuitar<T>(t: seq<T>, j: nat, f: T -> real)
    requires j < |t|
    ensures Suma(t, f) == Suma(t[..j] + t[j + 1..], f) + f(t[j])
    decreases |t|
  {
    var n := |t| - 1;
    if j == n {
      assert t[..j] + t[j + 1..] == t[..n];
    } else {
      var u := t[..n];
      SumaQuitar(u, j, f);
      assert t[..j] + t[j + 1..] == (u[..j] + u[j + 1..]) + [t[n]];
      SumaAgregar(u[..j] + u[j + 1..], t[n], f);
    }
  }

  /** Taking the j-th element out of a sequence takes one copy out of its multiset. */
  lemma MultisetQuitar<T>(t: seq<T>, j: nat)
    requires j < |t|
    ensures multiset(t[..j] + t[j + 1..]) == multiset(t) - multiset{t[j]}
  {
    assert t == t[..j] + [t[j]] + t[j + 1..];
    assert multiset(t) == multiset(t[..j]) + multiset{t[j]} + multiset(t[j + 1..]);
  }

  /** A sum does not depend on the order of its terms. */
  lemma {:induction false} SumaPermutacion<T>(s: seq<T>, t: seq<T>, f: T -> real)
    requires multiset(s) == multiset(t)
    ensures Suma(s, f) == Suma(t, f)
    decreases |s|
  {
    if |s| == 0 {
      assert |t| == |multiset(t)| == 0;
    } else {
      var n := |s| - 1;
      var x := s[n];
      assert s == s[..n] + [x];
      assert multiset(s[..n]) == multiset(s) - multiset{x};
      assert x in multiset(t);
      var j :| 0 <= j < |t| && t[j] == x;
      SumaQuitar(t, j, f);
      MultisetQuitar(t, j);
      SumaPermutacion(s[..n], t[..j] + t[j + 1..], f);
    }
  }

  /** Two sums agree when their terms agree one by one. */
  lemma {:induction false} SumaPuntoAPunto<T, U>(s: seq<T>, t: seq<U>, f: T -> real, g: U -> real)
    requires |s| == |t|
    requires forall i :: 0 <= i < |s| ==> f(s[i]) == g(t[i])
    ensures Suma(s, f) == Suma(t, g)
    decreases |s|
  {
    if |s| > 0 {
      SumaPuntoAPunto(s[..|s| - 1], t[..|t| - 1], f, g);
    }
  }

  /** A sum of terms that are all zero is zero. */
  lemma {:induction false} SumaNula<T>(s: seq<T>, f: T -> real)
    requires forall i :: 0 <= i < |s| ==> f(s[i]) == 0.0
    ensures Suma(s, f) == 0.0
    decreases |s|
  {
    if |s| > 0 {
      SumaNula(s[..|s| - 1], f);
    }
  }

  /**
   * `m += f(xs)` element-wise, as numpy does for `momentos += np.where(...)`;
   * `mas` is the addition of the array's element type.
   */
  method SumarCurva<T>(m: array<T>, xs: seq<real>, f: real -> T, mas: (T, T) -> T)
    requires m.Length == |xs|
    modifies m
    ensures forall i :: 0 <= i < m.Length ==> m[i] == mas(old(m[i]), f(xs[i]))
  {
    var i := 0;
    while i < m.Length
      invariant 0 <= i <= m.Length
      invariant forall k :: 0 <= k < i ==> m[k] == mas(old(m[k]), f(xs[k]))
      invariant forall k :: i <= k < m.Length ==> m[k] == old(m[k])
    {
      m[i] := mas(m[i], f(xs[i]));
      i := i + 1;
    }
  }
}
