# Climbing competition: scoring and ranking engine

A Dafny model of the live ranking of a climbing speed competition (`app.py`).
Each configured competitor has an initial personal best (PB). During the event
an operator records attempts for a competitor, either a time in seconds or a
DNF ("did not finish"), and can undo the latest one. On every change the
ranking is recomputed. Each competitor's attempts are walked in order:

- a timed attempt scores by closeness to the initial PB (3, 2, 1 or 0 points at
  0.1, 0.2 and 0.3 s), plus 4 when it is strictly below the running best, which
  then drops to it;
- the k-th DNF adds 0, -1, -2 (k = 3..7) or 0 (k >= 8);
- when the whole log holds more than 7 attempts, timed attempts score nothing
  and the running best stays at the PB, while DNFs still follow their schedule.

Each competitor yields a record (name, initial PB, attempt count, DNF count,
points), and the records are sorted by points, descending.

Modules:

- `Competicion` (`competicion.dfy`): attempts, competitors and the configured field of 16.
- `Puntuacion` (`puntuacion.dfy`): the single-attempt rule `puntuar`.
- `Recuento` (`recuento.dfy`): the per-competitor pass. It has a specification
  (`Paso`, `Recorrer`, `Evaluar`), the imperative loops that mirror the source
  (`PuntuarCompetidor`, `Clasificacion`), proved equal to it, and the lemmas
  about it.
- `Tabla` (`tabla.dfy`): sorting by points and the full ranking `TablaClasificacion`.
- `Sesion` (`sesion.dfy`): the attempt log as a class over
  `map<string, seq<Intento>>` with the add and undo buttons' updates.

Times are exact `real` numbers, so the tier comparisons are exact.

## Model

| member | source | states |
|---|---|---|
| `Competicion.CompetidoresConfigurados` | app.py:5-22 | the configured field has 16 competitors, each with a positive PB |
| `Competicion.NombresConfiguradosDistintos` | app.py:5-22 | the 16 configured names are pairwise different |
| `Puntuacion.Puntuar` | app.py:25-38 | the result is in [0, 7]; it is at least 4 exactly when the attempt is a new best; after the bonus is removed it is 3, 2, 1 or 0 exactly when the distance to the PB is at most 0.1, in (0.1, 0.2], in (0.2, 0.3] or above 0.3 |
| `Puntuacion.BonificacionEsCuatro` | app.py:36-37 | a new best scores exactly 4 more than the same time without the bonus |
| `Puntuacion.MasCercaNuncaPuntuaMenos` | app.py:26-35 | a time at most as far from the PB never scores fewer points |
| `Puntuacion.DistanciaSimetrica` | app.py:26 | the same margin above or below the PB scores the same |
| `Recuento.PenalizacionDnf` | app.py:91-101 | the k-th DNF adds between -2 and 0; 0 exactly for k = 1 or k >= 8, -1 exactly for k = 2 (so -2 for 3..7) |
| `Recuento.SumaDnfFormaCerrada` | app.py:91-101 | the first n DNFs together add 0 (n <= 1), 3 - 2n (2 <= n <= 7) or -11 (n >= 8), never below -11 |
| `Recuento.Paso` | app.py:82-101 | one step never raises the running best; a DNF bumps the count and adds its scheduled penalty; under the cap a time changes nothing; otherwise a time strictly below the best becomes the best and earns 4..7, and a time not below it (a tie included) leaves the best and earns 0..3 |
| `Recuento.Recorrer` | app.py:79-101 | the fold of `Paso` over the log from `Estado(0, pb, 0)`; its own contract says the running best never exceeds the PB, and `DnfsContados`, `PuntosAcotados`, `TopeConservaPb`, `MejorEsMinimo` and `MejorNuncaSube` state the rest |
| `Recuento.Evaluar` | app.py:85 | the cap is decided once, by the whole log's length: over 7 entries the best stays at the PB and the points are exactly the DNF total; otherwise the points lie between the DNF total and that plus 7 per timed attempt; the DNF counter equals the number of DNFs |
| `Recuento.DnfsContados` | app.py:81-92 | after the pass the DNF counter equals the number of DNF entries |
| `Recuento.PuntosAcotados` | app.py:79-101 | the points are at least the DNF schedule's total and at most that plus 7 per timed attempt, and exactly the DNF total under the cap |
| `Recuento.TopeConservaPb` | app.py:85-90 | under the cap the running best stays at the PB |
| `Recuento.MejorEsMinimo` | app.py:80-90 | without the cap the running best is at most the PB and every recorded time, and is the PB or one of the times |
| `Recuento.MejorNuncaSube` | app.py:80-90 | along the log the running best never increases and never exceeds the PB |
| `Recuento.Registrar` | app.py:78-110 | the record carries the name, the PB, the log length and the DNF count; an empty log gives 0 points and 0 DNFs; a log longer than 7 gives only the DNF total (<= 0); otherwise points lie in [-11, 49] |
| `Recuento.DnfNuncaSuma` | app.py:85-101 | recording one more DNF adds one to the DNF count and never raises the points, also when it pushes the log over the cap |
| `Recuento.Ejemplos` | app.py:25-101 | PB 5.35 with 5.30 then 5.41 gives 10 points and best 5.30; three DNFs give -3; eight times give 0 |
| `Recuento.PuntuarCompetidor` | app.py:78-110 | the inner loop produces exactly the record `Registrar` specifies |
| `Recuento.Clasificacion` | app.py:76-110 | the outer loop produces one record per competitor, in declaration order, each the one `Registrar` specifies |
| `Recuento.Registros` | app.py:76-110 | the `resultados_finales` list: one record per competitor, element i being `Registrar` of competitor i and its log |
| `Tabla.Insertar` | app.py:112 | inserting into a points-descending table keeps it descending and adds exactly the inserted record |
| `Tabla.Ordenar` | app.py:112 | the result is points-descending and a permutation of the input, with the same multiset of names |
| `Tabla.TablaClasificacion` | app.py:76-112 | the table holds one row per competitor, is points-descending, is a permutation of the computed records, contains every competitor's record, and with unique names names each competitor exactly once |
| `Sesion.Resultados.constructor` | app.py:43-44 | every given competitor, and nobody else, starts with an empty log; the names must be unique, as dictionary keys are |
| `Sesion.Iniciar` | app.py:43-44 | the session starts with the configured field of app.py:5-22, every log empty |
| `Sesion.Aceptado` | app.py:60-63 | the add button records a DNF, or a time greater than 0 (no contract of its own; `Resultados.Anadir` states it) |
| `Sesion.Resultados.Anadir` | app.py:59-65 | a positive time or a DNF is appended to the selected log and reported as added; a time <= 0 changes nothing; other logs are untouched; no rejected attempt ever enters a log |
| `Sesion.Resultados.Deshacer` | app.py:68-73 | on a non-empty log removes and returns exactly the last entry; an empty log is left unchanged and nothing is returned; other logs are untouched |
| `Sesion.Resultados.Clasificar` | app.py:76-112 | the standings of the current logs: one row per competitor, points-descending, a permutation of the computed records, naming each competitor exactly once |
| `Sesion.DeshacerYRehacer` | app.py:59-73 | re-adding what an undo removed restores the log |
| `Sesion.AnadirYDeshacer` | app.py:59-73 | undoing an accepted add restores the log |

## Left out

- The Streamlit interface (title, columns, select box, radio, number input, buttons, success/warning/info/error messages, table, subheaders): widget calls. Only the state changes behind the buttons are modelled, with the button's choice as the `Intento` argument.
- Persistence of the log across reruns of the script (`st.session_state`): framework plumbing. The class holds the log for the session.
- The attempt history display (app.py:117-126): string formatting of floats.
- The pandas data frame and `reset_index`: the sort is specified as points-descending and a permutation. The order among equal points is not specified, because pandas' default sort is not guaranteed stable.
- Floating-point rounding: times and PBs are exact reals, so a distance that IEEE-754 arithmetic puts just past a tier boundary is scored here by its exact value.
- The unused `penalizacion` variable: dead code.
- `test.py`: spreadsheet access over the network and printing. It is not part of this model.
- Unknown competitors: the select box only offers configured names, so `Anadir` and `Deshacer` require the name to have a log.
