/**
 * The beam of MOMENTOS/MOMENTOS.PY: a simply supported beam of length
 * `longitud` carrying point loads `(magnitud, posicion)` and distributed
 * loads `(magnitud, inicio, fin)`.  The reactions are solved from the point
 * loads only, and the bending-moment curve is the superposition written in
 * the source, which adds the term `reacc_a * x` once for every load.
 */
module Momentos {
  import opened Comun

  datatype CargaPuntual = CargaPuntual(magnitud: real, posicion: real)
  datatype CargaDistribuida = CargaDistribuida(magnitud: real, inicio: real, fin: real)

  /** Python raises ZeroDivisionError when `longitud` is zero. */
  datatype Error = DivisionPorCero

  /** `(reacc_a, reacc_b)`. */
  datatype ParReacciones = ParReacciones(a: real, b: real)

  /** `(x, momentos)` as returned by `calcular_momentos`. */
  datatype Curva = Curva(x: seq<real>, momentos: seq<real>)

  /** `sum(c[0] for c in cargas_puntuales)`. */
  function SumaFuerzas(ps: seq<CargaPuntual>): real
  {
    Suma(ps, (c: CargaPuntual) => c.magnitud)
  }

  /** `sum(c[0] * c[1] for c in cargas_puntuales)`. */
  function SumaMomentos(ps: seq<CargaPuntual>): real
  {
    Suma(ps, (c: CargaPuntual) => c.magnitud * c.posicion)
  }

  /**
   * `calcular_reacciones`: moment equilibrium about the left end fixes
   * `reacc_a`, vertical equilibrium fixes `reacc_b`.  Distributed loads do
   * not take part.
   */
  function Reacciones(longitud: real, ps: seq<CargaPuntual>): (r: Result<ParReacciones, Error>)
    ensures r.Failure? <==> longitud == 0.0
    ensures r.Success? ==> r.value.a * longitud == SumaMomentos(ps)
    ensures r.Success? ==> r.value.a + r.value.b == SumaFuerzas(ps)
  {
    if longitud == 0.0 then Failure(DivisionPorCero)
    else
      var a := SumaMomentos(ps) / longitud;
      Success(ParReacciones(a, SumaFuerzas(ps) - a))
  }

  /** Contribution of one point load in `calcular_momentos`, baseline included. */
  function TerminoPuntual(reaccA: real, c: CargaPuntual, x: real): real
  {
    if x >= c.posicion then reaccA * x - c.magnitud * (x - c.posicion) else reaccA * x
  }

  /** Contribution of one distributed load in `calcular_momentos`, baseline included; `fin` is not read. */
  function TerminoDistribuido(reaccA: real, c: CargaDistribuida, x: real): real
  {
    if x >= c.inicio then reaccA * x - c.magnitud * ((x - c.inicio) * (x - c.inicio)) / 2.0 else reaccA * x
  }

  /** The moment the source computes at abscissa `x`. */
  function MomentoFlector(reaccA: real, ps: seq<CargaPuntual>, ds: seq<CargaDistribuida>, x: real): real
  {
    Suma(ps, (c: CargaPuntual) => TerminoPuntual(reaccA, c, x))
      + Suma(ds, (c: CargaDistribuida) => TerminoDistribuido(reaccA, c, x))
  }

  /** The counter-moment of a point load alone, without any reaction term. */
  function ContraPuntual(c: CargaPuntual, x: real): real
  {
    if x >= c.posicion then c.magnitud * (x - c.posicion) else 0.0
  }

  /** The counter-moment of a distributed load alone, without any reaction term. */
  function ContraDistribuida(c: CargaDistribuida, x: real): real
  {
    if x >= c.inicio then c.magnitud * ((x - c.inicio) * (x - c.inicio)) / 2.0 else 0.0
  }

  /** Sum of the counter-moments of all loads at `x`. */
  function Contramomento(ps: seq<CargaPuntual>, ds: seq<CargaDistribuida>, x: real): real
  {
    Suma(ps, (c: CargaPuntual) => ContraPuntual(c, x)) + Suma(ds, (c: CargaDistribuida) => ContraDistribuida(c, x))
  }

  /** The superposition with the baseline `reaccA * x` counted exactly once. */
  function MomentoCanonico(reaccA: real, ps: seq<CargaPuntual>, ds: seq<CargaDistribuida>, x: real): real
  {
    reaccA * x - Contramomento(ps, ds, x)
  }

  lemma {:induction false} LineaBasePuntual(reaccA: real, ps: seq<CargaPuntual>, x: real)
    ensures Suma(ps, (c: CargaPuntual) => TerminoPuntual(reaccA, c, x))
         == (|ps| as real) * (reaccA * x) - Suma(ps, (c: CargaPuntual) => ContraPuntual(c, x))
    decreases |ps|
  {
    if |ps| > 0 {
      var n := |ps| - 1;
      var f := (c: CargaPuntual) => TerminoPuntual(reaccA, c, x);
      var g := (c: CargaPuntual) => ContraPuntual(c, x);
      LineaBasePuntual(reaccA, ps[..n], x);
      assert Suma(ps, f) == Suma(ps[..n], f) + f(ps[n]);
      assert Suma(ps, g) == Suma(ps[..n], g) + g(ps[n]);
      assert f(ps[n]) == reaccA * x - g(ps[n]);
      assert (|ps| as real) * (reaccA * x) == (n as real) * (reaccA * x) + reaccA * x;
    }
  }

  lemma {:induction false} LineaBaseDistribuida(reaccA: real, ds: seq<CargaDistribuida>, x: real)
    ensures Suma(ds, (c: CargaDistribuida) => TerminoDistribuido(reaccA, c, x))
         == (|ds| as real) * (reaccA * x) - Suma(ds, (c: CargaDistribuida) => ContraDistribuida(c, x))
    decreases |ds|
  {
    if |ds| > 0 {
      var n := |ds| - 1;
      var f := (c: CargaDistribuida) => TerminoDistribuido(reaccA, c, x);
      var g := (c: CargaDistribuida) => ContraDistribuida(c, x);
      LineaBaseDistribuida(reaccA, ds[..n], x);
      assert Suma(ds, f) == Suma(ds[..n], f) + f(ds[n]);
      assert Suma(ds, g) == Suma(ds[..n], g) + g(ds[n]);
      assert f(ds[n]) == reaccA * x - g(ds[n]);
      assert (|ds| as real) * (reaccA * x) == (n as real) * (reaccA * x) + reaccA * x;
    }
  }

  /** The source's curve carries the baseline `reaccA * x` once per load. */
  lemma MomentoLineaBase(reaccA: real, ps: seq<CargaPuntual>, ds: seq<CargaDistribuida>, x: real)
    ensures MomentoFlector(reaccA, ps, ds, x)
         == ((|ps| + |ds|) as real) * (reaccA * x) - Contramomento(ps, ds, x)
  {
    LineaBasePuntual(reaccA, ps, x);
    LineaBaseDistribuida(reaccA, ds, x);
  }

  /** With exactly one load the source's curve is the canonical one. */
  lemma UnaCargaCanonica(reaccA: real, ps: seq<CargaPuntual>, ds: seq<CargaDistribuida>, x: real)
    requires |ps| + |ds| == 1
    ensures MomentoFlector(reaccA, ps, ds, x) == MomentoCanonico(reaccA, ps, ds, x)
  {
    MomentoLineaBase(reaccA, ps, ds, x);
  }

  /** The end of a distributed load is never read: loads that differ only in `fin` give the same curve. */
  lemma MomentoNoLeeFin(reaccA: real, ps: seq<CargaPuntual>, ds: seq<CargaDistribuida>, ds': seq<CargaDistribuida>, x: real)
    requires |ds| == |ds'|
    requires forall i :: 0 <= i < |ds| ==> ds[i].magnitud == ds'[i].magnitud && ds[i].inicio == ds'[i].inicio
    ensures MomentoFlector(reaccA, ps, ds, x) == MomentoFlector(reaccA, ps, ds', x)
  {
    var f := (c: CargaDistribuida) => TerminoDistribuido(reaccA, c, x);
    SumaPuntoAPunto(ds, ds', f, f);
  }

  /** At the left support the curve vanishes when no load starts left of it. */
  lemma MomentoEnCero(reaccA: real, ps: seq<CargaPuntual>, ds: seq<CargaDistribuida>)
    requires forall i :: 0 <= i < |ps| ==> ps[i].posicion >= 0.0
    requires forall i :: 0 <= i < |ds| ==> ds[i].inicio >= 0.0
    ensures MomentoFlector(reaccA, ps, ds, 0.0) == 0.0
  {
    SumaNula(ps, (c: CargaPuntual) => TerminoPuntual(reaccA, c, 0.0));
    SumaNula(ds, (c: CargaDistribuida) => TerminoDistribuido(reaccA, c, 0.0));
  }

  /** One point load: `reacc_a = m p / L` and the two reactions add up to `m`. */
  lemma ReaccionUnaCarga(longitud: real, m: real, p: real)
    requires longitud != 0.0
    ensures Reacciones(longitud, [CargaPuntual(m, p)]).Success?
    ensures Reacciones(longitud, [CargaPuntual(m, p)]).value.a == m * p / longitud
    ensures Reacciones(longitud, [CargaPuntual(m, p)]).value.b == m - m * p / longitud
  {
    SumaAgregar([], CargaPuntual(m, p), (c: CargaPuntual) => c.magnitud * c.posicion);
    SumaAgregar([], CargaPuntual(m, p), (c: CargaPuntual) => c.magnitud);
  }

  /** With no point loads the reactions are zero, not an error, as long as the length is not zero. */
  lemma ReaccionesSinCargas(longitud: real)
    requires longitud != 0.0
    ensures Reacciones(longitud, []) == Success(ParReacciones(0.0, 0.0))
  {
  }

  /** `L = 10` with 100 at 4: reactions 40 and 60, moment 160 under the load. */
  lemma EjemploDiezMetros()
    ensures Reacciones(10.0, [CargaPuntual(100.0, 4.0)]) == Success(ParReacciones(40.0, 60.0))
    ensures MomentoFlector(40.0, [CargaPuntual(100.0, 4.0)], [], 4.0) == 160.0
  {
    ReaccionUnaCarga(10.0, 100.0, 4.0);
    SumaAgregar([], CargaPuntual(100.0, 4.0), (c: CargaPuntual) => TerminoPuntual(40.0, c, 4.0));
  }

  /** At the right end the source's curve for one point load is `m (2 p - L)`, not zero. */
  lemma MomentoEnLUnaCarga(longitud: real, m: real, p: real)
    requires longitud != 0.0 && p <= longitud
    ensures MomentoFlector(Reacciones(longitud, [CargaPuntual(m, p)]).value.a, [CargaPuntual(m, p)], [], longitud)
         == m * (2.0 * p - longitud)
  {
    ReaccionUnaCarga(longitud, m, p);
    var c := CargaPuntual(m, p);
    var a := Reacciones(longitud, [c]).value.a;
    SumaAgregar([], c, (c: CargaPuntual) => TerminoPuntual(a, c, longitud));
    assert a * longitud == m * p;
  }

  /** The concrete case: `L = 10`, 100 at 4 gives `-200` at the right support. */
  lemma EjemploNoSeAnulaEnL()
    ensures MomentoFlector(40.0, [CargaPuntual(100.0, 4.0)], [], 10.0) == -200.0
  {
    MomentoEnLUnaCarga(10.0, 100.0, 4.0);
    EjemploDiezMetros();
  }

  /** Two loads of 100 at 4 and 6 on `L = 10`: the doubled baseline gives 1000 at the right support. */
  lemma EjemploLineaBaseDoble()
    ensures Reacciones(10.0, [CargaPuntual(100.0, 4.0), CargaPuntual(100.0, 6.0)]) == Success(ParReacciones(100.0, 100.0))
    ensures MomentoFlector(100.0, [CargaPuntual(100.0, 4.0), CargaPuntual(100.0, 6.0)], [], 10.0) == 1000.0
  {
    var c1, c2 := CargaPuntual(100.0, 4.0), CargaPuntual(100.0, 6.0);
    assert [c1, c2] == [c1] + [c2];
    SumaAgregar([], c1, (c: CargaPuntual) => c.magnitud * c.posicion);
    SumaAgregar([c1], c2, (c: CargaPuntual) => c.magnitud * c.posicion);
    SumaAgregar([], c1, (c: CargaPuntual) => c.magnitud);
    SumaAgregar([c1], c2, (c: CargaPuntual) => c.magnitud);
    SumaAgregar([], c1, (c: CargaPuntual) => TerminoPuntual(100.0, c, 10.0));
    SumaAgregar([c1], c2, (c: CargaPuntual) => TerminoPuntual(100.0, c, 10.0));
  }

  /** `Σ m (L - p) = L Σ m - Σ m p`. */
  lemma {:induction false} SumaBrazoDerecho(longitud: real, ps: seq<CargaPuntual>)
    ensures Suma(ps, (c: CargaPuntual) => c.magnitud * (longitud - c.posicion))
         == longitud * SumaFuerzas(ps) - SumaMomentos(ps)
    decreases |ps|
  {
    if |ps| > 0 {
      SumaBrazoDerecho(longitud, ps[..|ps| - 1]);
    }
  }

  /**
   * The intended curve for point loads: the left reaction is `reacc_b`
   * (the one left over after moments about the left end), added once.
   */
  function MomentoCorregido(longitud: real, ps: seq<CargaPuntual>, x: real): real
    requires longitud != 0.0
  {
    MomentoCanonico(Reacciones(longitud, ps).value.b, ps, [], x)
  }

  /** The corrected curve vanishes at both supports for loads inside the span. */
  lemma MomentoCorregidoApoyos(longitud: real, ps: seq<CargaPuntual>)
    requires longitud > 0.0
    requires forall i :: 0 <= i < |ps| ==> 0.0 <= ps[i].posicion <= longitud
    ensures MomentoCorregido(longitud, ps, 0.0) == 0.0
    ensures MomentoCorregido(longitud, ps, longitud) == 0.0
  {
    SumaNula(ps, (c: CargaPuntual) => ContraPuntual(c, 0.0));
    SumaPuntoAPunto(ps, ps, (c: CargaPuntual) => ContraPuntual(c, longitud),
                    (c: CargaPuntual) => c.magnitud * (longitud - c.posicion));
    SumaBrazoDerecho(longitud, ps);
    var r := Reacciones(longitud, ps).value;
    assert r.b * longitud == SumaFuerzas(ps) * longitud - SumaMomentos(ps);
  }

  /** `reacc_a` as the loops of `calcular_momentos` read it; 0 stands in where the division fails. */
  function ReaccionA(longitud: real, ps: seq<CargaPuntual>): real
  {
    if longitud == 0.0 then 0.0 else Reacciones(longitud, ps).value.a
  }

  /**
   * The loop over point loads of `calcular_momentos`: each step recomputes
   * the reactions, stops on a zero length, and adds the load's term.
   */
  method SumarPuntuales(m: array<real>, xs: seq<real>, longitud: real, ps: seq<CargaPuntual>) returns (ok: bool)
    requires m.Length == |xs|
    modifies m
    ensures ok <==> longitud != 0.0 || |ps| == 0
    ensures ok ==> forall i :: 0 <= i < m.Length ==>
      m[i] == old(m[i]) + Suma(ps, (c: CargaPuntual) => TerminoPuntual(ReaccionA(longitud, ps), c, xs[i]))
  {
    ghost var ra := ReaccionA(longitud, ps);
    var k := 0;
    while k < |ps|
      invariant 0 <= k <= |ps|
      invariant k > 0 ==> longitud != 0.0
      invariant forall i :: 0 <= i < m.Length ==>
        m[i] == old(m[i]) + Suma(ps[..k], (c: CargaPuntual) => TerminoPuntual(ra, c, xs[i]))
    {
      var reacciones := Reacciones(longitud, ps);
      if reacciones.Failure? {
        return false;
      }
      var c := ps[k];
      var a := reacciones.value.a;
      SumarCurva(m, xs, (x: real) => TerminoPuntual(a, c, x), (u: real, v: real) => u + v);
      assert ps[..k + 1][..k] == ps[..k];
      k := k + 1;
    }
    assert ps[..k] == ps;
    ok := true;
  }

  /**
   * The loop over distributed loads of `calcular_momentos`: the reactions
   * still come from the point loads alone.
   */
  method SumarDistribuidas(m: array<real>, xs: seq<real>, longitud: real, ps: seq<CargaPuntual>,
                           ds: seq<CargaDistribuida>) returns (ok: bool)
    requires m.Length == |xs|
    modifies m
    ensures ok <==> longitud != 0.0 || |ds| == 0
    ensures ok ==> forall i :: 0 <= i < m.Length ==>
      m[i] == old(m[i]) + Suma(ds, (c: CargaDistribuida) => TerminoDistribuido(ReaccionA(longitud, ps), c, xs[i]))
  {
    ghost var ra := ReaccionA(longitud, ps);
    var k := 0;
    while k < |ds|
      invariant 0 <= k <= |ds|
      invariant k > 0 ==> longitud != 0.0
      invariant forall i :: 0 <= i < m.Length ==>
        m[i] == old(m[i]) + Suma(ds[..k], (c: CargaDistribuida) => TerminoDistribuido(ra, c, xs[i]))
    {
      var reacciones := Reacciones(longitud, ps);
      if reacciones.Failure? {
        return false;
      }
      var c := ds[k];
      var a := reacciones.value.a;
      SumarCurva(m, xs, (x: real) => TerminoDistribuido(a, c, x), (u: real, v: real) => u + v);
      assert ds[..k + 1][..k] == ds[..k];
      k := k + 1;
    }
    assert ds[..k] == ds;
    ok := true;
  }

  /** The beam object of MOMENTOS.PY. */
  class Viga {
    var longitud: real
    var cargasPuntuales: seq<CargaPuntual>
    var cargasDistribuidas: seq<CargaDistribuida>

    constructor (longitud: real)
      ensures this.longitud == longitud
      ensures cargasPuntuales == [] && cargasDistribuidas == []
    {
      this.longitud := longitud;
      cargasPuntuales := [];
      cargasDistribuidas := [];
    }

    method AgregarCargaPuntual(magnitud: real, posicion: real)
      modifies this
      ensures cargasPuntuales == old(cargasPuntuales) + [CargaPuntual(magnitud, posicion)]
      ensures cargasDistribuidas == old(cargasDistribuidas) && longitud == old(longitud)
    {
      cargasPuntuales := cargasPuntuales + [CargaPuntual(magnitud, posicion)];
    }

    method AgregarCargaDistribuida(magnitud: real, inicio: real, fin: real)
      modifies this
      ensures cargasDistribuidas == old(cargasDistribuidas) + [CargaDistribuida(magnitud, inicio, fin)]
      ensures cargasPuntuales == old(cargasPuntuales) && longitud == old(longitud)
    {
      cargasDistribuidas := cargasDistribuidas + [CargaDistribuida(magnitud, inicio, fin)];
    }

    method CalcularReacciones() returns (r: Result<ParReacciones, Error>)
      ensures r == Reacciones(longitud, cargasPuntuales)
    {
      r := Reacciones(longitud, cargasPuntuales);
    }

    /**
     * `calcular_momentos`: 500 abscissae over `[0, longitud]` and the moment
     * at each.  The reactions are recomputed for every load, so a zero length
     * fails as soon as there is a load to process.
     */
    method CalcularMomentos() returns (r: Result<Curva, Error>)
      ensures r.Failure? <==> longitud == 0.0 && |cargasPuntuales| + |cargasDistribuidas| > 0
      ensures r.Success? ==> r.value.x == Linspace(longitud) && |r.value.momentos| == Muestras
      ensures r.Success? && longitud != 0.0 ==>
        forall i :: 0 <= i < Muestras ==>
          r.value.momentos[i] == MomentoFlector(Reacciones(longitud, cargasPuntuales).value.a,
                                         cargasPuntuales, cargasDistribuidas, r.value.x[i])
      ensures r.Success? && longitud == 0.0 ==> forall i :: 0 <= i < Muestras ==> r.value.momentos[i] == 0.0
    {
      var xs := Linspace(longitud);
      var m := new real[Muestras](_ => 0.0);
      var ok := SumarPuntuales(m, xs, longitud, cargasPuntuales);
      if !ok {
        return Failure(DivisionPorCero);
      }
      ok := SumarDistribuidas(m, xs, longitud, cargasPuntuales, cargasDistribuidas);
      if !ok {
        return Failure(DivisionPorCero);
      }
      r := Success(Curva(xs, m[..]));
    }
  }
}
