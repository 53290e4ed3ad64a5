# Simply supported beam statics, modelled in Dafny

The repository holds several small educational tools for a 1-D simply supported
beam. Each tool re-implements the same core in its own way. The core is: the
lists of loads and supports, the support reactions, and the sampled
bending-moment curve. This project models four of these variants, each as its
own Dafny module, over exact `real` arithmetic:

- `Momentos` (momentos.dfy) models `Viga` of MOMENTOS/MOMENTOS.PY.
  - The reactions come from point loads only: `reacc_a = Σ m·p / L` and `reacc_b = Σ m − reacc_a`.
  - The moment curve re-adds `reacc_a·x` inside every load's branch, so the baseline is counted once per load.
  - Distributed loads contribute `q(x − inicio)²/2` from `inicio` on; `fin` is never read.
- `M5` (m5.dfy) models `Viga` of MOMENTOS/M5.PY.
  - The curve is a superposition with no reaction term.
  - Point loads give `m(x − p)` from `p` on.
  - "Uniforme" loads give `q̄(fin − inicio)(x − inicio)` inside `[inicio, fin]`.
  - "Triangular" loads give a linear interpolation of the two intensities inside `[inicio, fin]`.
  - Any other type gives nothing. Concentrated moments are stored and never read.
  - The curve is an array of float samples, each a number or NaN. A "Triangular" load with `fin == inicio` divides 0 by 0 at the sample equal to `inicio`. That sample becomes NaN, NaN absorbs every later addition, and the other samples are computed.
  - `InterfazGrafica` models the state changes made by the add, clear and change-length handlers.
- `F2` (f2.dfy) and `Fff` (fff.dfy) model `BeamAnalyzer` of MOMENTOS/f2.py and MOMENTOS/fff.py.
  - Both validate a load (guard-then-append).
  - f2 also deletes the selected load, adds supports inside the beam, and splits the total load evenly between the two ends.
  - fff applies no position check, and its results button computes nothing.
- `Loads` (loads.dfy) holds the load record and the two guards that f2 and fff share.
- `Comun` (comun.dfy) holds what every variant uses:
  - the 500 abscissae of `np.linspace(0, L, 500)`, `x_i = i·L/499`;
  - finite sums over load lists, with concatenation and permutation lemmas;
  - the element-wise `momentos += …` update of a sampled curve, done in place on an array.

The state-changing operations are methods of classes with `modifies` clauses, as in the source. Their
`ensures` give the whole new state: "appended at the end", "unchanged", and "nothing else
changes". The two `CalcularMomentos` methods have no `modifies` clause, and their result is
fixed by the beam's fields. So they change no list, and two calls on the same beam agree.

Where the code departs from the textbook simply supported beam, the model follows the code:
- With no point load, `calcular_reacciones` returns `(0, 0)` and raises no error: `Momentos.ReaccionesSinCargas`.
- Only a zero length fails, with Python's ZeroDivisionError.
- The MOMENTOS.PY curve does not vanish at `x = L`: `Momentos.MomentoEnLUnaCarga`.
- f2 removes a load by its list index, not by position with a tolerance.

## Model

| member | source | states |
|---|---|---|
| `Comun.Abscisa` | MOMENTOS/MOMENTOS.PY:19 | the i-th value of `np.linspace(0, L, 500)`, `i·L/499`; 0 for `i = 0` and `L` for `i = 499` |
| `Comun.Suma` | MOMENTOS/MOMENTOS.PY:42-43 | Python's `sum(f(c) for c in s)`, adding the terms from the front |
| `Comun.Linspace` | MOMENTOS/MOMENTOS.PY:19 | 500 abscissae, the first 0, the last `longitud`, the i-th `i·longitud/499` |
| `Comun.EspaciadoUniforme` | MOMENTOS/M5.PY:23 | consecutive abscissae are exactly `longitud/499` apart |
| `Comun.AbscisaEnVano` | MOMENTOS/M5.PY:23 | for `longitud ≥ 0` every abscissa lies in `[0, longitud]`, and consecutive abscissae are non-decreasing |
| `Comun.SumarCurva` | MOMENTOS/MOMENTOS.PY:24-28 | `momentos += f(x)` in place: each element gains `f` of its own abscissa, nothing else changes |
| `Momentos.SumaFuerzas` | MOMENTOS/MOMENTOS.PY:42 | the sum of the point-load magnitudes |
| `Momentos.SumaMomentos` | MOMENTOS/MOMENTOS.PY:43 | the sum of magnitude times position over the point loads |
| `Momentos.Reacciones` | MOMENTOS/MOMENTOS.PY:40-47 | fails exactly when `longitud = 0`; otherwise `reacc_a·L = Σ m·p` (moments about the left end) and `reacc_a + reacc_b = Σ m` (force balance), from point loads alone |
| `Momentos.ReaccionUnaCarga` | MOMENTOS/MOMENTOS.PY:40-47 | one point load `m` at `p`: `reacc_a = m·p/L`, `reacc_b = m − m·p/L` |
| `Momentos.ReaccionesSinCargas` | MOMENTOS/MOMENTOS.PY:42-46 | no point loads and a non-zero length give `(0, 0)`, not an error |
| `Momentos.EjemploDiezMetros` | MOMENTOS/MOMENTOS.PY:22-47 | `L = 10`, 100 at 4: reactions `(40, 60)`, and `MomentoFlector` is 160 at `x = 4`; `x = 4` is not one of the 500 samples (it would be `i = 199.6`), so this is a value of the moment function, not of a returned curve |
| `Momentos.TerminoPuntual` | MOMENTOS/MOMENTOS.PY:24-28 | one point load's `np.where` branch: `reacc_a·x − m(x − p)` from `p` on, `reacc_a·x` before |
| `Momentos.TerminoDistribuido` | MOMENTOS/MOMENTOS.PY:32-36 | one distributed load's branch: `reacc_a·x − q(x − inicio)²/2` from `inicio` on, `reacc_a·x` before; `fin` unread |
| `Momentos.MomentoFlector` | MOMENTOS/MOMENTOS.PY:22-36 | the moment at `x`: the sum of every point-load term plus every distributed-load term |
| `Momentos.ReaccionA` | MOMENTOS/MOMENTOS.PY:23 | the `reacc_a` both loops read (lines 23 and 31); 0 stands in for the failed division, which the loops never use |
| `Momentos.Contramomento` | MOMENTOS/MOMENTOS.PY:22-36 | the loads' moments alone, without any reaction term: `m(x − p)` and `q(x − inicio)²/2` from their starts on |
| `Momentos.MomentoCanonico` | MOMENTOS/MOMENTOS.PY:22-36 | the superposition with the reaction term `reacc·x` counted once, minus `Contramomento` |
| `Momentos.LineaBasePuntual` | MOMENTOS/MOMENTOS.PY:22-28 | the point-load part of the curve is `n·reacc_a·x` minus the loads' counter-moments |
| `Momentos.LineaBaseDistribuida` | MOMENTOS/MOMENTOS.PY:30-36 | the distributed part of the curve is `n·reacc_a·x` minus `q(x − inicio)²/2` per load from `inicio` on |
| `Momentos.MomentoLineaBase` | MOMENTOS/MOMENTOS.PY:22-36 | the curve is `(#point + #distributed)·reacc_a·x` minus all counter-moments |
| `Momentos.UnaCargaCanonica` | MOMENTOS/MOMENTOS.PY:22-36 | with exactly one load the source's curve equals the baseline-once curve |
| `Momentos.MomentoNoLeeFin` | MOMENTOS/MOMENTOS.PY:30-36 | distributed loads that differ only in `fin` give the same curve |
| `Momentos.MomentoEnCero` | MOMENTOS/MOMENTOS.PY:22-36 | with every position and start `≥ 0` the moment at `x = 0` is 0 |
| `Momentos.MomentoEnLUnaCarga` | MOMENTOS/MOMENTOS.PY:22-47 | one point load with `p ≤ L`: the moment at `x = L` is `m(2p − L)` |
| `Momentos.EjemploNoSeAnulaEnL` | MOMENTOS/MOMENTOS.PY:22-28 | `L = 10`, 100 at 4: the moment at `x = 10` is −200 |
| `Momentos.EjemploLineaBaseDoble` | MOMENTOS/MOMENTOS.PY:22-47 | 100 at 4 and 100 at 6 on `L = 10`: `reacc_a = 100` and the moment at `x = 10` is 1000 |
| `Momentos.SumaBrazoDerecho` | MOMENTOS/MOMENTOS.PY:42-46 | `Σ m(L − p) = L·Σ m − Σ m·p`: so `reacc_b·L` is the moment about the right end |
| `Momentos.MomentoCorregido` | MOMENTOS/MOMENTOS.PY:22-47 | the corrected curve for point loads: `MomentoCanonico` with the left reaction `reacc_b` |
| `Momentos.MomentoCorregidoApoyos` | MOMENTOS/MOMENTOS.PY:40-47 | the corrected curve (left reaction `reacc_b`, added once) is 0 at both supports for point loads inside `[0, L]` |
| `Momentos.Viga.constructor` | MOMENTOS/MOMENTOS.PY:7-10 | the given length, both load lists empty |
| `Momentos.Viga.AgregarCargaPuntual` | MOMENTOS/MOMENTOS.PY:12-13 | appends exactly one `(magnitud, posicion)` at the end; the other list and the length are unchanged |
| `Momentos.Viga.AgregarCargaDistribuida` | MOMENTOS/MOMENTOS.PY:15-16 | appends exactly one `(magnitud, inicio, fin)` at the end; the other list and the length are unchanged |
| `Momentos.Viga.CalcularReacciones` | MOMENTOS/MOMENTOS.PY:40-47 | the reactions of the current length and point loads; distributed loads are not read |
| `Momentos.SumarPuntuales` | MOMENTOS/MOMENTOS.PY:22-28 | stops exactly when the length is 0 and there is a point load; otherwise each sample gains, per point load, its branch with the baseline `reacc_a·x` included |
| `Momentos.SumarDistribuidas` | MOMENTOS/MOMENTOS.PY:30-36 | stops exactly when the length is 0 and there is a distributed load; otherwise each sample gains, per distributed load, its branch, with `reacc_a` still from the point loads |
| `Momentos.Viga.CalcularMomentos` | MOMENTOS/MOMENTOS.PY:18-38 | fails exactly when the length is 0 and there is a load; otherwise returns the 500 abscissae and, at each, the source's superposed moment |
| `M5.ContribucionPuntual` | MOMENTOS/M5.PY:28-32 | `m(x − p)` from `p` on, 0 before |
| `M5.ContribucionUniforme` | MOMENTOS/M5.PY:37-42 | `(q₁ + q₂)/2·(fin − inicio)·(x − inicio)` inside `[inicio, fin]`, 0 outside |
| `M5.Interpolacion` | MOMENTOS/M5.PY:47 | `(a(e − x) + b(x − s))/(e − s)` |
| `M5.ContribucionTriangular` | MOMENTOS/M5.PY:45-49 | `Interpolacion` of the two intensities inside `[inicio, fin]`, 0 outside, and 0 where `fin == inicio` (that sample is NaN, see `MuestraDistribuida`) |
| `M5.ContribucionDistribuida` | MOMENTOS/M5.PY:36-49 | the dispatch on the type string: "Uniforme", "Triangular", or 0 for any other string |
| `M5.MomentoFlector` | MOMENTOS/M5.PY:22-51 | the value at `x`: the sum of every point-load and distributed-load contribution |
| `M5.Indefinida` | MOMENTOS/M5.PY:45-47 | the load is "Triangular", `fin == inicio`, and `x` lies in `[inicio, fin]`: the branch divides 0 by 0 |
| `M5.Mas` | MOMENTOS/M5.PY:43 | numpy's `+=` on one sample: numbers add, and NaN absorbs |
| `M5.MuestraDistribuida` | MOMENTOS/M5.PY:36-49 | the sample one distributed load adds: NaN where `Indefinida`, otherwise its contribution |
| `M5.TriangularEnMuestra` | MOMENTOS/M5.PY:43-49 | the "Triangular" expression with float division: NaN inside a load with `fin == inicio`, the interpolation inside any other, 0 outside |
| `M5.IndefinidaEn` | MOMENTOS/M5.PY:35-49 | some distributed load is undefined at `x` |
| `M5.AporteDistribuidas` | MOMENTOS/M5.PY:35-49 | what the distributed loads add at `x`: NaN if any is undefined there, otherwise the sum of their contributions |
| `M5.MomentoMuestreado` | MOMENTOS/M5.PY:22-51 | the sample of the curve at `x`: NaN if a distributed load is undefined there, otherwise `MomentoFlector` |
| `M5.AporteAgregar` | MOMENTOS/M5.PY:35-49 | appending a distributed load is one NaN-absorbing addition of its sample at each `x` |
| `M5.MuestraCompuesta` | MOMENTOS/M5.PY:23-49 | zero, plus the point loads, plus the distributed loads, in the order of the source's loops, gives `MomentoMuestreado` |
| `M5.NaNSoloEnInicio` | MOMENTOS/M5.PY:43-49 | a sample is NaN exactly when some "Triangular" load has `inicio == fin ==` that abscissa |
| `M5.LongitudCeroTodoNaN` | MOMENTOS/M5.PY:23-49 | with `L = 0` every abscissa is 0, so one degenerate "Triangular" load at 0 makes all 500 samples NaN |
| `M5.UniformeExtremos` | MOMENTOS/M5.PY:36-42 | a "Uniforme" load gives 0 at `inicio`, `q̄(fin − inicio)²` at `fin`, and 0 outside `[inicio, fin]`, also after `fin` |
| `M5.InterpolacionLineal` | MOMENTOS/M5.PY:47 | the triangular expression equals `a` at `s` and `b` at `e`, and stays between `a` and `b` inside |
| `M5.TriangularInterpola` | MOMENTOS/M5.PY:43-49 | a "Triangular" load with `inicio < fin` gives `intensidad_inicio` at `inicio`, `intensidad_fin` at `fin`, and values between them inside |
| `M5.NuloAntesDeLasCargas` | MOMENTOS/M5.PY:26-49 | no reaction term: left of every load the moment value is 0, and so is the sample (no NaN there) |
| `M5.OtroTipoNoContribuye` | MOMENTOS/M5.PY:35-49 | appending a distributed load of any other type leaves the curve unchanged |
| `M5.CurvaNulaSinCargas` | MOMENTOS/M5.PY:22-49 | with no point loads and only other-type distributed loads, the moment value and the sample are 0 everywhere |
| `M5.Superposicion` | MOMENTOS/M5.PY:22-51 | the moment value `MomentoFlector` of two load sets together is the sum of their values |
| `M5.IndefinidaEnConcat` | MOMENTOS/M5.PY:35-49 | a load of two lists together is undefined at `x` exactly when one of the lists holds such a load |
| `M5.SuperposicionMuestreada` | MOMENTOS/M5.PY:22-51 | the sample of two load sets together is the NaN-absorbing sum of their samples |
| `M5.OrdenIndiferente` | MOMENTOS/M5.PY:22-51 | load lists that are permutations of each other give the same moment value `MomentoFlector` |
| `M5.IndefinidaEnPermutacion` | MOMENTOS/M5.PY:35-49 | a permutation of the distributed loads keeps any load that is undefined at `x` |
| `M5.OrdenIndiferenteMuestreado` | MOMENTOS/M5.PY:22-51 | load lists that are permutations of each other give the same sample, NaN included |
| `M5.Viga.constructor` | MOMENTOS/M5.PY:7-11 | the given length, all three lists empty |
| `M5.Viga.AgregarCargaPuntual` | MOMENTOS/M5.PY:13-14 | appends one point load; the other lists and the length are unchanged |
| `M5.Viga.AgregarCargaDistribuida` | MOMENTOS/M5.PY:16-17 | appends one five-field distributed load; the other lists and the length are unchanged |
| `M5.Viga.AgregarMomentoConcentrado` | MOMENTOS/M5.PY:19-20 | appends one concentrated moment; the other lists and the length are unchanged |
| `M5.SumarPuntuales` | MOMENTOS/M5.PY:27-32 | each sample gains, by NaN-absorbing addition, the sum of the point-load contributions; nothing else changes |
| `M5.SumarDistribuida` | MOMENTOS/M5.PY:36-49 | each sample gains `MuestraDistribuida` of the load, the branch chosen by its type string: "Uniforme", "Triangular" (NaN at a 0/0), or nothing |
| `M5.SumarDistribuidas` | MOMENTOS/M5.PY:35-49 | every distributed load is processed; each sample gains `AporteDistribuidas`, NaN where some load divides 0 by 0 there and the sum of the contributions elsewhere |
| `M5.Puntuales` | MOMENTOS/M5.PY:27-32 | the sum of the point-load contributions at `x` |
| `M5.Distribuidas` | MOMENTOS/M5.PY:35-49 | the sum of the distributed-load contributions at `x` |
| `M5.Componer` | MOMENTOS/M5.PY:23-49 | a curve of zeros, then the point-load loop, then the distributed-load loop, gives `MomentoMuestreado` at every abscissa |
| `M5.Muestrear` | MOMENTOS/M5.PY:23-49 | the body of `calcular_momentos` at given abscissae: one sample per abscissa, each `MomentoMuestreado` |
| `M5.Viga.CalcularMomentos` | MOMENTOS/M5.PY:22-51 | returns the 500 abscissae and, at each, `MomentoMuestreado`: NaN exactly at the samples where a degenerate "Triangular" load divides 0 by 0, the sum of all contributions elsewhere; concentrated moments are not read |
| `M5.InterfazGrafica.constructor` | MOMENTOS/M5.PY:55-56 | holds the given beam |
| `M5.InterfazGrafica.AgregarCarga` | MOMENTOS/M5.PY:167-179 | "Puntual" appends `(magnitud, posicion)`; "Distribuida" appends one load with both intensities equal to the magnitude; "Momento" appends nothing; the same beam object and length |
| `M5.InterfazGrafica.Limpiar` | MOMENTOS/M5.PY:182-183 | a fresh beam of the same length with all lists empty; the old beam object is untouched |
| `M5.InterfazGrafica.CambiarLongitud` | MOMENTOS/M5.PY:186-187 | changes only the length of the same beam; every load is kept |
| `Loads.BasicCheck` | MOMENTOS/fff.py:99-105 | accepts exactly when a distributed load ends after it starts and the magnitude is positive; the range error has priority |
| `F2.Check` | MOMENTOS/f2.py:119-128 | accepts exactly when both shared guards pass and `0 ≤ position ≤ beam_length` (both ends allowed, for every load type); the earlier guards' errors have priority, and a position outside the beam is rejected as such |
| `F2.TotalLoad` | MOMENTOS/f2.py:213 | the sum of the magnitudes of all loads, of every type |
| `F2.SplitReactions` | MOMENTOS/f2.py:211-215 | `left = right` and `left + right` is the total magnitude of all loads |
| `F2.RemoveAt` | MOMENTOS/f2.py:145 | one element shorter; the elements before the index stay, the ones after shift down by one |
| `F2.ReactionsIgnorePlacement` | MOMENTOS/f2.py:213-215 | lists with the same magnitudes give the same reactions, whatever the positions, ends and types |
| `F2.RemoveAfterAppend` | MOMENTOS/f2.py:137-145 | deleting the load just appended restores the list |
| `F2.TotalAfterRemove` | MOMENTOS/f2.py:142-149 | deleting load `i` takes exactly its magnitude off the total |
| `F2.ReactionsAfterAddAndRemove` | MOMENTOS/f2.py:130-149 | adding a load and deleting it again gives back the previous reactions |
| `F2.BeamAnalyzer.constructor` | MOMENTOS/f2.py:14-20 | the given length, no loads and no supports |
| `F2.BeamAnalyzer.AddLoad` | MOMENTOS/f2.py:112-137 | the outcome is `Check`'s; on acceptance exactly one record is appended at the end, otherwise the loads are unchanged; supports and length are unchanged |
| `F2.BeamAnalyzer.RemoveLoad` | MOMENTOS/f2.py:142-149 | removes exactly the selected index when there is one in range, otherwise changes nothing |
| `F2.BeamAnalyzer.AddSupport` | MOMENTOS/f2.py:151-164 | appends `(type, position)` exactly when `0 ≤ position ≤ beam_length`; loads and length are unchanged |
| `F2.BeamAnalyzer.CalculateResults` | MOMENTOS/f2.py:211-215 | the even split of the current loads; changes nothing |
| `Fff.BeamAnalyzer.constructor` | MOMENTOS/fff.py:12-17 | the given length, no loads |
| `Fff.BeamAnalyzer.AddLoad` | MOMENTOS/fff.py:92-114 | the outcome is `BasicCheck`'s, with no position check; on acceptance exactly one five-field record is appended at the end, otherwise the loads are unchanged |
| `Fff.BeamAnalyzer.CalculateResults` | MOMENTOS/fff.py:162-165 | yields only the fixed confirmation text and changes nothing |
| `Fff.F2IsStricter` | MOMENTOS/fff.py:99-105 | every load f2 accepts, fff accepts too |
| `Fff.PositionOnlyCheckedByF2` | MOMENTOS/fff.py:92-114 | a point load at −1 on a 7 m beam is accepted by fff and rejected by f2 |

## Findings

| source | as written | input that shows it | evidently intended | confidence | as-written member | corrected member |
|---|---|---|---|---|---|---|
| MOMENTOS/MOMENTOS.PY:26 | `reacc_a = Σ m·p / L` comes from moments about the left end, so it is the right support's reaction, yet it is used as the left-end shear `reacc_a·x` | `L = 10`, 100 at 4: the moment at `x = 10` is −200 | left reaction `Σ m − Σ m·p/L` (`reacc_b`), so the moment is 0 at both supports | high (not executed) | `Momentos.EjemploNoSeAnulaEnL` | `Momentos.MomentoCorregidoApoyos` |
| MOMENTOS/MOMENTOS.PY:22-36 | the baseline `reacc_a·x` is re-added in each load's branch, once per load | 100 at 4 and 100 at 6 on `L = 10`: the moment at `x = 10` is 1000 | baseline added once, then each load's counter-moment subtracted | high (not executed) | `Momentos.EjemploLineaBaseDoble` | `Momentos.MomentoCorregidoApoyos` |

`Momentos.MomentoCorregido` covers point loads only. The source's reaction solver ignores
distributed loads, so no correction of the curve alone could make distributed loads
vanish at `x = L`. The classes model the code as written.

## Left out

- Windows, dialogs and plots are presentation only and are not modelled. This covers the tkinter, matplotlib and ipywidgets code: `App`, `graficar_momentos`, `dibujar_cargas`, `init_grafico`, `crear_widgets`, `actualizar_widgets_carga`, `draw_beam`, `update_plot`, `messagebox`, and the list box that mirrors `loads`.
- The M5.PY zoom and scroll handlers and `ajustar_vista`/`auto_ajustar` are not modelled: they change only the view limits.
- `remove_support` of f2.py is not modelled, because it can never remove anything. It reads `self.supports_display`, which is never defined. The AttributeError that follows is not an IndexError, so its handler does not catch it.
- MOMENTOS/DD.PY is not part of this model. It wraps an external beam-solving library whose solver cannot be seen.
- The other script variants (MOMENTOS 2/3/4, DOCUMENT T STUDENT.py) are not part of this model.
- `young_modulus` and `inertia` are not modelled: they are stored and never used.
- Parsing of text entries (`float(...)`, `split(",")`) and the ValueError dialogs are left out. Operations take already-parsed reals.
- Editing `beam_length` through its entry widget is left out. The model keeps the length as a field, set by the constructor.
- Floating-point rounding of numpy and Python is left out. Every quantity is an exact real.
- Infinite, NaN and overflowing inputs are left out. The text boxes' `float(...)` accepts "inf" and "nan", and a point load of magnitude `inf` gives `inf·0 = NaN` at its own position and `inf` after it. With finite inputs and no overflow, the only infinity or NaN that reaches a returned sample is the 0/0 of a degenerate "Triangular" load. The model takes parsed finite reals, and a sample is a real or NaN.
