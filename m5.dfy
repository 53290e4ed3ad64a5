/**
 * The beam of MOMENTOS/M5.PY and the state changes made by its plotting
 * front end.  The moment curve here has no reaction term at all: it is the
 * sum of one piecewise contribution per point load and per distributed load
 * of type "Uniforme" or "Triangular"; concentrated moments are stored and
 * never read.
 */
module M5 {
  import opened Comun

  datatype CargaPuntual = CargaPuntual(magnitud: real, posicion: real)
  datatype CargaDistribuida = CargaDistribuida(tipo: string, intensidadInicio: real, intensidadFin: real,
                                               inicio: real, fin: real)
  datatype MomentoConcentrado = MomentoConcentrado(magnitud: real, posicion: real)

  /** One sample of a numpy float array: a number, or the NaN that `0/0` produces. */
  datatype Muestra = Valor(v: real) | NaN

  datatype Curva = Curva(x: seq<real>, momentos: seq<Muestra>)

  /** The three choices of the load-type radio buttons. */
  datatype TipoCarga = Puntual | Distribuida | Momento

  function ContribucionPuntual(c: CargaPuntual, x: real): real
  {
    if x >= c.posicion then c.magnitud * (x - c.posicion) else 0.0
  }

  /** The "Uniforme" branch: average intensity times length times lever arm, only inside `[inicio, fin]`. */
  function ContribucionUniforme(c: CargaDistribuida, x: real): real
  {
    if c.inicio <= x <= c.fin then
      (c.intensidadInicio + c.intensidadFin) / 2.0 * (c.fin - c.inicio) * (x - c.inicio)
    else 0.0
  }

  /** The sample where the "Triangular" branch divides zero by zero. */
  predicate Indefinida(c: CargaDistribuida, x: real)
  {
    c.tipo == "Triangular" && c.inicio <= x <= c.fin && c.fin == c.inicio
  }

  /**
   * The "Triangular" branch: linear interpolation of the two intensities
   * inside `[inicio, fin]`.  At an undefined sample (see `Indefinida`) the
   * value 0 stands in for the NaN that `MuestraDistribuida` reports there.
   */
  function ContribucionTriangular(c: CargaDistribuida, x: real): real
  {
    if c.inicio <= x <= c.fin && c.fin != c.inicio then
      Interpolacion(c.intensidadInicio, c.intensidadFin, c.inicio, c.fin, x)
    else 0.0
  }

  /** `(a (e - x) + b (x - s)) / (e - s)`. */
  function Interpolacion(a: real, b: real, s: real, e: real, x: real): real
    requires s != e
  {
    (a * (e - x) + b * (x - s)) / (e - s)
  }

  /** Dispatch on the type string; any other string contributes nothing. */
  function ContribucionDistribuida(c: CargaDistribuida, x: real): real
  {
    if c.tipo == "Uniforme" then ContribucionUniforme(c, x)
    else if c.tipo == "Triangular" then ContribucionTriangular(c, x)
    else 0.0
  }

  /** What the loop over point loads adds at `x`. */
  function Puntuales(ps: seq<CargaPuntual>, x: real): real
  {
    Suma(ps, (c: CargaPuntual) => ContribucionPuntual(c, x))
  }

  /** What the loop over distributed loads adds at `x`, reading every 0/0 as 0. */
  function Distribuidas(ds: seq<CargaDistribuida>, x: real): real
  {
    Suma(ds, (c: CargaDistribuida) => ContribucionDistribuida(c, x))
  }

  /** The moment the source computes at abscissa `x`. */
  function MomentoFlector(ps: seq<CargaPuntual>, ds: seq<CargaDistribuida>, x: real): real
  {
    Puntuales(ps, x) + Distribuidas(ds, x)
  }

  /** numpy's float addition: NaN absorbs everything. */
  function Mas(a: Muestra, b: Muestra): Muestra
  {
    if a.Valor? && b.Valor? then Valor(a.v + b.v) else NaN
  }

  /** The sample a distributed load adds at `x`: NaN where its branch divides 0 by 0. */
  function MuestraDistribuida(c: CargaDistribuida, x: real): Muestra
  {
    if Indefinida(c, x) then NaN else Valor(ContribucionDistribuida(c, x))
  }

  /** Some distributed load is undefined at `x`. */
  predicate IndefinidaEn(ds: seq<CargaDistribuida>, x: real)
  {
    exists j :: 0 <= j < |ds| && Indefinida(ds[j], x)
  }

  /** What the distributed loads add at `x`, NaN included. */
  function AporteDistribuidas(ds: seq<CargaDistribuida>, x: real): Muestra
  {
    if IndefinidaEn(ds, x) then NaN
    else Valor(Distribuidas(ds, x))
  }

  /** The sample the source's curve holds at `x`. */
  function MomentoMuestreado(ps: seq<CargaPuntual>, ds: seq<CargaDistribuida>, x: real): Muestra
  {
    if IndefinidaEn(ds, x) then NaN else Valor(MomentoFlector(ps, ds, x))
  }

  lemma MasAsociativa(a: Muestra, b: Muestra, c: Muestra)
    ensures Mas(Mas(a, b), c) == Mas(a, Mas(b, c))
  {
  }

  /** Adding one distributed load to the curve is one NaN-absorbing addition per sample. */
  lemma AporteAgregar(ds: seq<CargaDistribuida>, c: CargaDistribuida, x: real)
    ensures AporteDistribuidas(ds + [c], x) == Mas(AporteDistribuidas(ds, x), MuestraDistribuida(c, x))
  {
    var ds' := ds + [c];
    assert ds'[|ds|] == c;
    if IndefinidaEn(ds, x) {
      var j :| 0 <= j < |ds| && Indefinida(ds[j], x);
      assert ds'[j] == ds[j];
    } else if Indefinida(c, x) {
      assert IndefinidaEn(ds', x);
    } else {
      assert !IndefinidaEn(ds', x) by {
        forall j | 0 <= j < |ds'|
          ensures !Indefinida(ds'[j], x)
        {
          if j < |ds| {
            assert ds'[j] == ds[j];
          }
        }
      }
      SumaAgregar(ds, c, (c: CargaDistribuida) => ContribucionDistribuida(c, x));
    }
  }

  /** A zero sample, plus the point loads, plus the distributed loads, is the curve's sample. */
  lemma MuestraCompuesta(ps: seq<CargaPuntual>, ds: seq<CargaDistribuida>, x: real)
    ensures Mas(Mas(Valor(0.0), Valor(Puntuales(ps, x))), AporteDistribuidas(ds, x))
         == MomentoMuestreado(ps, ds, x)
  {
    var puntuales, distribuidas, indefinida := Puntuales(ps, x), Distribuidas(ds, x), IndefinidaEn(ds, x);
    assert AporteDistribuidas(ds, x) == if indefinida then NaN else Valor(distribuidas);
    assert MomentoMuestreado(ps, ds, x) == if indefinida then NaN else Valor(puntuales + distribuidas);
    SumarBloques(puntuales, distribuidas, indefinida);
  }

  /** Zero, plus a number, plus a sample that is NaN or a number. */
  lemma SumarBloques(p: real, d: real, indefinida: bool)
    ensures Mas(Mas(Valor(0.0), Valor(p)), if indefinida then NaN else Valor(d))
         == if indefinida then NaN else Valor(p + d)
  {
  }

  /** The two loops of `calcular_momentos`, one after the other from a curve of zeros, give `MomentoMuestreado`. */
  lemma Componer(ceros: seq<Muestra>, puntuales: seq<Muestra>, momentos: seq<Muestra>, xs: seq<real>,
                 ps: seq<CargaPuntual>, ds: seq<CargaDistribuida>)
    requires |ceros| == |puntuales| == |momentos| == |xs|
    requires forall i :: 0 <= i < |xs| ==> ceros[i] == Valor(0.0)
    requires forall i :: 0 <= i < |xs| ==>
      puntuales[i] == Mas(ceros[i], Valor(Puntuales(ps, xs[i])))
    requires forall i :: 0 <= i < |xs| ==> momentos[i] == Mas(puntuales[i], AporteDistribuidas(ds, xs[i]))
    ensures forall i :: 0 <= i < |xs| ==> momentos[i] == MomentoMuestreado(ps, ds, xs[i])
  {
    forall i | 0 <= i < |xs|
      ensures momentos[i] == MomentoMuestreado(ps, ds, xs[i])
    {
      MuestraCompuesta(ps, ds, xs[i]);
    }
  }

  /** Only the degenerate "Triangular" loads give NaN, and only at the sample equal to their `inicio`. */
  lemma NaNSoloEnInicio(ps: seq<CargaPuntual>, ds: seq<CargaDistribuida>, x: real)
    ensures MomentoMuestreado(ps, ds, x) == NaN
        <==> exists j :: 0 <= j < |ds| && ds[j].tipo == "Triangular" && ds[j].inicio == x && ds[j].fin == x
  {
    if IndefinidaEn(ds, x) {
      var j :| 0 <= j < |ds| && Indefinida(ds[j], x);
      assert ds[j].inicio == x && ds[j].fin == x;
    } else {
      forall j | 0 <= j < |ds| && ds[j].tipo == "Triangular" && ds[j].inicio == x
        ensures ds[j].fin != x
      {
        assert !Indefinida(ds[j], x);
      }
    }
  }

  /** On a beam of length 0 every abscissa is 0, so one degenerate "Triangular" load at 0 makes every sample NaN. */
  lemma LongitudCeroTodoNaN(ps: seq<CargaPuntual>, ds: seq<CargaDistribuida>, j: nat)
    requires j < |ds| && ds[j].tipo == "Triangular" && ds[j].inicio == 0.0 && ds[j].fin == 0.0
    ensures forall i :: 0 <= i < Muestras ==> MomentoMuestreado(ps, ds, Linspace(0.0)[i]) == NaN
  {
    forall i | 0 <= i < Muestras
      ensures MomentoMuestreado(ps, ds, Linspace(0.0)[i]) == NaN
    {
      assert Linspace(0.0)[i] == 0.0;
      assert Indefinida(ds[j], 0.0);
    }
  }

  /** There is no reaction term: left of every load the curve is zero. */
  lemma NuloAntesDeLasCargas(ps: seq<CargaPuntual>, ds: seq<CargaDistribuida>, x: real)
    requires forall i :: 0 <= i < |ps| ==> x < ps[i].posicion
    requires forall i :: 0 <= i < |ds| ==> x < ds[i].inicio
    ensures MomentoFlector(ps, ds, x) == 0.0
    ensures MomentoMuestreado(ps, ds, x) == Valor(0.0)
  {
    SumaNula(ps, (c: CargaPuntual) => ContribucionPuntual(c, x));
    SumaNula(ds, (c: CargaDistribuida) => ContribucionDistribuida(c, x));
    forall j | 0 <= j < |ds|
      ensures !Indefinida(ds[j], x)
    {
      assert x < ds[j].inicio;
    }
  }

  /** A "Uniforme" load rises from 0 at `inicio` to `q (fin - inicio)^2` at `fin` and drops back to 0 after `fin`. */
  lemma UniformeExtremos(c: CargaDistribuida, x: real)
    requires c.tipo == "Uniforme" && c.inicio <= c.fin
    ensures ContribucionDistribuida(c, c.inicio) == 0.0
    ensures ContribucionDistribuida(c, c.fin)
         == (c.intensidadInicio + c.intensidadFin) / 2.0 * (c.fin - c.inicio) * (c.fin - c.inicio)
    ensures x > c.fin || x < c.inicio ==> ContribucionDistribuida(c, x) == 0.0
  {
  }

  /** A "Triangular" load takes `intensidadInicio` at `inicio`, `intensidadFin` at `fin`, and values between them inside. */
  lemma TriangularInterpola(c: CargaDistribuida, x: real)
    requires c.tipo == "Triangular" && c.inicio < c.fin
    ensures ContribucionDistribuida(c, c.inicio) == c.intensidadInicio
    ensures ContribucionDistribuida(c, c.fin) == c.intensidadFin
    ensures c.inicio <= x <= c.fin ==>
      (c.intensidadInicio <= c.intensidadFin ==>
         c.intensidadInicio <= ContribucionDistribuida(c, x) <= c.intensidadFin)
      && (c.intensidadFin <= c.intensidadInicio ==>
         c.intensidadFin <= ContribucionDistribuida(c, x) <= c.intensidadInicio)
  {
    assert c.tipo != "Uniforme";
    InterpolacionLineal(c.intensidadInicio, c.intensidadFin, c.inicio, c.fin, c.inicio);
    InterpolacionLineal(c.intensidadInicio, c.intensidadFin, c.inicio, c.fin, c.fin);
    if c.inicio <= x <= c.fin {
      InterpolacionLineal(c.intensidadInicio, c.intensidadFin, c.inicio, c.fin, x);
    }
  }

  /** The interpolation runs from `a` at `s` to `b` at `e` and stays between them. */
  lemma InterpolacionLineal(a: real, b: real, s: real, e: real, x: real)
    requires s < e && s <= x <= e
    ensures x == s ==> Interpolacion(a, b, s, e, x) == a
    ensures x == e ==> Interpolacion(a, b, s, e, x) == b
    ensures a <= b ==> a <= Interpolacion(a, b, s, e, x) <= b
    ensures b <= a ==> b <= Interpolacion(a, b, s, e, x) <= a
  {
    var d := e - s;
    var v := Interpolacion(a, b, s, e, x);
    assert v * d == a * (e - x) + b * (x - s);
    assert (v - a) * d == (b - a) * (x - s);
    assert (b - v) * d == (b - a) * (e - x);
    if x == s {
      CancelarFactor(v - a, d);
    }
    if x == e {
      CancelarFactor(b - v, d);
    }
    if a <= b {
      ProductoNoNegativo(b - a, x - s);
      ProductoNoNegativo(b - a, e - x);
      SignoDelFactor(v - a, d);
      SignoDelFactor(b - v, d);
    } else {
      ProductoNoNegativo(a - b, x - s);
      ProductoNoNegativo(a - b, e - x);
      SignoDelFactor(a - v, d);
      SignoDelFactor(v - b, d);
    }
  }

  lemma ProductoNoNegativo(u: real, v: real)
    requires u >= 0.0 && v >= 0.0
    ensures u * v >= 0.0
  {
  }

  lemma CancelarFactor(u: real, d: real)
    requires d != 0.0 && u * d == 0.0
    ensures u == 0.0
  {
  }

  lemma SignoDelFactor(u: real, d: real)
    requires d > 0.0 && u * d >= 0.0
    ensures u >= 0.0
  {
  }

  /** A distributed load whose type is neither "Uniforme" nor "Triangular" leaves the curve as it was. */
  lemma OtroTipoNoContribuye(ps: seq<CargaPuntual>, ds: seq<CargaDistribuida>, d: CargaDistribuida, x: real)
    requires d.tipo != "Uniforme" && d.tipo != "Triangular"
    ensures MomentoFlector(ps, ds + [d], x) == MomentoFlector(ps, ds, x)
  {
    SumaAgregar(ds, d, (c: CargaDistribuida) => ContribucionDistribuida(c, x));
  }

  /** With no point load and only distributed loads of other types the curve is zero everywhere. */
  lemma CurvaNulaSinCargas(ds: seq<CargaDistribuida>, x: real)
    requires forall i :: 0 <= i < |ds| ==> ds[i].tipo != "Uniforme" && ds[i].tipo != "Triangular"
    ensures MomentoFlector([], ds, x) == 0.0
    ensures MomentoMuestreado([], ds, x) == Valor(0.0)
  {
    SumaNula(ds, (c: CargaDistribuida) => ContribucionDistribuida(c, x));
    forall j | 0 <= j < |ds|
      ensures !Indefinida(ds[j], x)
    {
      assert ds[j].tipo != "Triangular";
    }
  }

  /** The curve of two sets of loads together is the sum of their curves. */
  lemma Superposicion(ps1: seq<CargaPuntual>, ds1: seq<CargaDistribuida>,
                      ps2: seq<CargaPuntual>, ds2: seq<CargaDistribuida>, x: real)
    ensures MomentoFlector(ps1 + ps2, ds1 + ds2, x) == MomentoFlector(ps1, ds1, x) + MomentoFlector(ps2, ds2, x)
  {
    SumaConcat(ps1, ps2, (c: CargaPuntual) => ContribucionPuntual(c, x));
    SumaConcat(ds1, ds2, (c: CargaDistribuida) => ContribucionDistribuida(c, x));
  }

  /** A load of two lists together is undefined at `x` exactly when one of the lists holds such a load. */
  lemma IndefinidaEnConcat(ds1: seq<CargaDistribuida>, ds2: seq<CargaDistribuida>, x: real)
    ensures IndefinidaEn(ds1 + ds2, x) <==> IndefinidaEn(ds1, x) || IndefinidaEn(ds2, x)
  {
    var ds := ds1 + ds2;
    if IndefinidaEn(ds, x) {
      var j :| 0 <= j < |ds| && Indefinida(ds[j], x);
      if j < |ds1| {
        assert ds[j] == ds1[j];
      } else {
        assert ds[j] == ds2[j - |ds1|];
      }
    }
    if IndefinidaEn(ds1, x) {
      var j :| 0 <= j < |ds1| && Indefinida(ds1[j], x);
      assert ds[j] == ds1[j];
    }
    if IndefinidaEn(ds2, x) {
      var j :| 0 <= j < |ds2| && Indefinida(ds2[j], x);
      assert ds[|ds1| + j] == ds2[j];
    }
  }

  /** The samples of two sets of loads together are the NaN-absorbing sum of their samples. */
  lemma SuperposicionMuestreada(ps1: seq<CargaPuntual>, ds1: seq<CargaDistribuida>,
                                ps2: seq<CargaPuntual>, ds2: seq<CargaDistribuida>, x: real)
    ensures MomentoMuestreado(ps1 + ps2, ds1 + ds2, x) == Mas(MomentoMuestreado(ps1, ds1, x), MomentoMuestreado(ps2, ds2, x))
  {
    IndefinidaEnConcat(ds1, ds2, x);
    Superposicion(ps1, ds1, ps2, ds2, x);
  }

  /** Whether a load is undefined at `x` depends on the multiset of loads only. */
  lemma IndefinidaEnPermutacion(ds: seq<CargaDistribuida>, ds': seq<CargaDistribuida>, x: real)
    requires multiset(ds) == multiset(ds')
    ensures IndefinidaEn(ds, x) ==> IndefinidaEn(ds', x)
  {
    if IndefinidaEn(ds, x) {
      var j :| 0 <= j < |ds| && Indefinida(ds[j], x);
      assert ds[j] in multiset(ds);
      var k :| 0 <= k < |ds'| && ds'[k] == ds[j];
      assert Indefinida(ds'[k], x);
    }
  }

  /** The order in which the loads were added does not matter. */
  lemma OrdenIndiferente(ps: seq<CargaPuntual>, ds: seq<CargaDistribuida>,
                         ps': seq<CargaPuntual>, ds': seq<CargaDistribuida>, x: real)
    requires multiset(ps) == multiset(ps') && multiset(ds) == multiset(ds')
    ensures MomentoFlector(ps, ds, x) == MomentoFlector(ps', ds', x)
  {
    SumaPermutacion(ps, ps', (c: CargaPuntual) => ContribucionPuntual(c, x));
    SumaPermutacion(ds, ds', (c: CargaDistribuida) => ContribucionDistribuida(c, x));
  }

  /** Reordering the loads gives the same samples, NaN included. */
  lemma OrdenIndiferenteMuestreado(ps: seq<CargaPuntual>, ds: seq<CargaDistribuida>,
                                   ps': seq<CargaPuntual>, ds': seq<CargaDistribuida>, x: real)
    requires multiset(ps) == multiset(ps') && multiset(ds) == multiset(ds')
    ensures MomentoMuestreado(ps, ds, x) == MomentoMuestreado(ps', ds', x)
  {
    IndefinidaEnPermutacion(ds, ds', x);
    IndefinidaEnPermutacion(ds', ds, x);
    OrdenIndiferente(ps, ds, ps', ds', x);
  }

  /** The loop over point loads of `calcular_momentos`. */
  method SumarPuntuales(m: array<Muestra>, xs: seq<real>, ps: seq<CargaPuntual>)
    requires m.Length == |xs|
    modifies m
    ensures forall i :: 0 <= i < m.Length ==>
      m[i] == Mas(old(m[i]), Valor(Puntuales(ps, xs[i])))
  {
    assert ps[..0] == [];
    var k := 0;
    while k < |ps|
      invariant 0 <= k <= |ps|
      invariant forall i :: 0 <= i < m.Length ==>
        m[i] == Mas(old(m[i]), Valor(Puntuales(ps[..k], xs[i])))
    {
      var c := ps[k];
      SumarCurva(m, xs, (x: real) => Valor(ContribucionPuntual(c, x)), Mas);
      assert ps[..k + 1][..k] == ps[..k];
      k := k + 1;
    }
    assert ps[..k] == ps;
  }

  /** The "Triangular" expression evaluated in floats: `0/0` is NaN inside a load with `fin == inicio`. */
  function TriangularEnMuestra(c: CargaDistribuida, x: real): Muestra
  {
    if c.inicio <= x <= c.fin then
      if c.fin == c.inicio then NaN else Valor(Interpolacion(c.intensidadInicio, c.intensidadFin, c.inicio, c.fin, x))
    else Valor(0.0)
  }

  /** The body of the loop over distributed loads: the branch on the type string. */
  method SumarDistribuida(m: array<Muestra>, xs: seq<real>, c: CargaDistribuida)
    requires m.Length == |xs|
    modifies m
    ensures forall i :: 0 <= i < m.Length ==> m[i] == Mas(old(m[i]), MuestraDistribuida(c, xs[i]))
  {
    if c.tipo == "Uniforme" {
      SumarCurva(m, xs, (x: real) => Valor(ContribucionUniforme(c, x)), Mas);
    } else if c.tipo == "Triangular" {
      SumarCurva(m, xs, (x: real) => TriangularEnMuestra(c, x), Mas);
    }
  }

  /** The loop over distributed loads of `calcular_momentos`; an undefined sample stays NaN for the rest of the loop. */
  method SumarDistribuidas(m: array<Muestra>, xs: seq<real>, ds: seq<CargaDistribuida>)
    requires m.Length == |xs|
    modifies m
    ensures forall i :: 0 <= i < m.Length ==> m[i] == Mas(old(m[i]), AporteDistribuidas(ds, xs[i]))
  {
    assert ds[..0] == [];
    var k := 0;
    while k < |ds|
      invariant 0 <= k <= |ds|
      invariant forall i :: 0 <= i < m.Length ==> m[i] == Mas(old(m[i]), AporteDistribuidas(ds[..k], xs[i]))
    {
      var c := ds[k];
      SumarDistribuida(m, xs, c);
      assert ds[..k + 1] == ds[..k] + [c];
      forall i | 0 <= i < m.Length
        ensures m[i] == Mas(old(m[i]), AporteDistribuidas(ds[..k + 1], xs[i]))
      {
        AporteAgregar(ds[..k], c, xs[i]);
        MasAsociativa(old(m[i]), AporteDistribuidas(ds[..k], xs[i]), MuestraDistribuida(c, xs[i]));
      }
      k := k + 1;
    }
    assert ds[..k] == ds;
  }

  /**
   * The body of `calcular_momentos` at given abscissae: a curve of zeros,
   * then the loop over point loads, then the loop over distributed loads.
   */
  method Muestrear(xs: seq<real>, ps: seq<CargaPuntual>, ds: seq<CargaDistribuida>) returns (momentos: seq<Muestra>)
    ensures |momentos| == |xs|
    ensures forall i :: 0 <= i < |xs| ==> momentos[i] == MomentoMuestreado(ps, ds, xs[i])
  {
    var m := new Muestra[|xs|](_ => Valor(0.0));
    ghost var ceros := m[..];
    SumarPuntuales(m, xs, ps);
    ghost var puntuales := m[..];
    SumarDistribuidas(m, xs, ds);
    momentos := m[..];
    Componer(ceros, puntuales, momentos, xs, ps, ds);
  }

  /** The beam object of M5.PY. */
  class Viga {
    var longitud: real
    var cargasPuntuales: seq<CargaPuntual>
    var cargasDistribuidas: seq<CargaDistribuida>
    var momentosConcentrados: seq<MomentoConcentrado>

    constructor (longitud: real)
      ensures this.longitud == longitud
      ensures cargasPuntuales == [] && cargasDistribuidas == [] && momentosConcentrados == []
    {
      this.longitud := longitud;
      cargasPuntuales := [];
      cargasDistribuidas := [];
      momentosConcentrados := [];
    }

    method AgregarCargaPuntual(magnitud: real, posicion: real)
      modifies this
      ensures cargasPuntuales == old(cargasPuntuales) + [CargaPuntual(magnitud, posicion)]
      ensures cargasDistribuidas == old(cargasDistribuidas) && momentosConcentrados == old(momentosConcentrados)
      ensures longitud == old(longitud)
    {
      cargasPuntuales := cargasPuntuales + [CargaPuntual(magnitud, posicion)];
    }

    method AgregarCargaDistribuida(tipo: string, intensidadInicio: real, intensidadFin: real, inicio: real, fin: real)
      modifies this
      ensures cargasDistribuidas == old(cargasDistribuidas) + [CargaDistribuida(tipo, intensidadInicio, intensidadFin, inicio, fin)]
      ensures cargasPuntuales == old(cargasPuntuales) && momentosConcentrados == old(momentosConcentrados)
      ensures longitud == old(longitud)
    {
      cargasDistribuidas := cargasDistribuidas + [CargaDistribuida(tipo, intensidadInicio, intensidadFin, inicio, fin)];
    }

    method AgregarMomentoConcentrado(magnitud: real, posicion: real)
      modifies this
      ensures momentosConcentrados == old(momentosConcentrados) + [MomentoConcentrado(magnitud, posicion)]
      ensures cargasPuntuales == old(cargasPuntuales) && cargasDistribuidas == old(cargasDistribuidas)
      ensures longitud == old(longitud)
    {
      momentosConcentrados := momentosConcentrados + [MomentoConcentrado(magnitud, posicion)];
    }

    /**
     * `calcular_momentos`: 500 abscissae over `[0, longitud]` and, at each,
     * the sum of the contributions of the point loads and then of the
     * distributed loads, NaN where a degenerate "Triangular" load meets the
     * sample.  `momentosConcentrados` is not read.
     */
    method CalcularMomentos() returns (r: Curva)
      ensures r.x == Linspace(longitud) && |r.momentos| == Muestras
      ensures forall i :: 0 <= i < Muestras ==>
        r.momentos[i] == MomentoMuestreado(cargasPuntuales, cargasDistribuidas, r.x[i])
    {
      var xs := Linspace(longitud);
      var momentos := Muestrear(xs, cargasPuntuales, cargasDistribuidas);
      r := Curva(xs, momentos);
    }
  }

  /** The state the plotting front end of M5.PY keeps about the beam. */
  class InterfazGrafica {
    var viga: Viga

    constructor (viga: Viga)
      ensures this.viga == viga
    {
      this.viga := viga;
    }

    /**
     * `agregar_carga` with the text boxes already parsed: a point load takes
     * position and magnitude, a distributed load takes the magnitude as both
     * intensities, and "Momento" adds nothing.
     */
    method AgregarCarga(seleccion: TipoCarga, posicion: real, magnitud: real, tipo: string, inicio: real, fin: real)
      modifies viga
      ensures viga == old(viga) && viga.longitud == old(viga.longitud)
      ensures viga.momentosConcentrados == old(viga.momentosConcentrados)
      ensures viga.cargasPuntuales
           == old(viga.cargasPuntuales) + (if seleccion == Puntual then [CargaPuntual(magnitud, posicion)] else [])
      ensures viga.cargasDistribuidas
           == old(viga.cargasDistribuidas)
              + (if seleccion == Distribuida then [CargaDistribuida(tipo, magnitud, magnitud, inicio, fin)] else [])
    {
      if seleccion == Puntual {
        viga.AgregarCargaPuntual(magnitud, posicion);
      } else if seleccion == Distribuida {
        var intensidadInicio := magnitud;
        var intensidadFin := intensidadInicio;
        viga.AgregarCargaDistribuida(tipo, intensidadInicio, intensidadFin, inicio, fin);
      }
    }

    /** `limpiar`: a new beam of the same length with no loads; the old beam object is left as it was. */
    method Limpiar()
      modifies this
      ensures fresh(viga) && viga.longitud == old(viga.longitud)
      ensures viga.cargasPuntuales == [] && viga.cargasDistribuidas == [] && viga.momentosConcentrados == []
      ensures unchanged(old(viga))
    {
      viga := new Viga(viga.longitud);
    }

    /** `cambiar_longitud`: only the length changes; every load is kept. */
    method CambiarLongitud(longitud: real)
      modifies viga
      ensures viga == old(viga) && viga.longitud == longitud
      ensures viga.cargasPuntuales == old(viga.cargasPuntuales)
      ensures viga.cargasDistribuidas == old(viga.cargasDistribuidas)
      ensures viga.momentosConcentrados == old(viga.momentosConcentrados)
    {
      viga.longitud := longitud;
    }
  }
}
