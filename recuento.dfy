/** The per-competitor pass: fold one competitor's attempts, in order, into
    points, running best and DNF count, and emit the competitor's record. */
module Recuento {
  import opened Competicion
  import opened Puntuacion

  /** Beyond this many logged attempts, timed attempts score nothing. */
  const Tope: nat := 7

  /** Values the pass carries from one attempt to the next. */
  datatype Estado = Estado(puntos: int, mejor: real, dnfs: nat)

  /** One row of the standings table. */
  datatype Registro = Registro(
    competidor: string, pbInicial: real, intentos: nat, dnfs: nat, puntos: int)

  /** Points added by the k-th DNF of a log (k counts from 1). */
  function PenalizacionDnf(k: nat): (p: int)
    requires k >= 1
    ensures -2 <= p <= 0
    ensures p == 0 <==> k == 1 || k >= 8
    ensures p == -1 <==> k == 2
  {
    if k == 1 then 0
    else if k == 2 then -1
    else if k < 8 then -2
    else if k > 8 then 0
    else 0 // the eighth DNF matches none of the schedule's branches
  }

  /** Points added by the first n DNFs together. */
  function SumaDnf(n: nat): int
  {
    if n == 0 then 0 else SumaDnf(n - 1) + PenalizacionDnf(n)
  }

  lemma {:induction false} SumaDnfFormaCerrada(n: nat)
    ensures SumaDnf(n) == if n <= 1 then 0 else if n <= 7 then 3 - 2 * n else -11
    ensures -11 <= SumaDnf(n) <= 0
  {
    if n > 0 {
      SumaDnfFormaCerrada(n - 1);
    }
  }

  function ContarDnf(log: seq<Intento>): nat
  {
    if log == [] then 0
    else ContarDnf(log[..|log| - 1]) + if log[|log| - 1].Dnf? then 1 else 0
  }

  function ContarTiempos(log: seq<Intento>): nat
  {
    if log == [] then 0
    else ContarTiempos(log[..|log| - 1]) + if log[|log| - 1].Tiempo? then 1 else 0
  }

  /** The pass's update for one attempt; `limitado` says whether the whole
      log is longer than Tope. */
  function Paso(pb: real, limitado: bool, e: Estado, a: Intento): (r: Estado)
    ensures r.mejor <= e.mejor
    ensures a.Dnf? ==> r.dnfs == e.dnfs + 1 && r.mejor == e.mejor
                       && r.puntos == e.puntos + PenalizacionDnf(r.dnfs)
    ensures a.Tiempo? ==> r.dnfs == e.dnfs
    ensures a.Tiempo? && limitado ==> r == e
    ensures a.Tiempo? && !limitado && a.v < e.mejor ==>
              r.mejor == a.v && e.puntos + 4 <= r.puntos <= e.puntos + 7
    ensures a.Tiempo? && !limitado && a.v >= e.mejor ==>
              r.mejor == e.mejor && e.puntos <= r.puntos <= e.puntos + 3
  {
    match a
    case Tiempo(valor) =>
      var nuevoPb := valor < e.mejor;
      if limitado then e
      else Estado(e.puntos + Puntuar(pb, valor, nuevoPb),
                  if nuevoPb then valor else e.mejor, e.dnfs)
    case Dnf =>
      Estado(e.puntos + PenalizacionDnf(e.dnfs + 1), e.mejor, e.dnfs + 1)
  }

  /** The pass over a log from its first attempt to its last. */
  function Recorrer(pb: real, limitado: bool, log: seq<Intento>): (r: Estado)
    ensures r.mejor <= pb
  {
    if log == [] then Estado(0, pb, 0)
    else Paso(pb, limitado, Recorrer(pb, limitado, log[..|log| - 1]), log[|log| - 1])
  }

  /** The pass as the ranking runs it: capped when the log is longer than Tope. */
  function Evaluar(pb: real, log: seq<Intento>): (r: Estado)
    ensures r.dnfs == ContarDnf(log)
    ensures |log| > Tope ==> r.mejor == pb && r.puntos == SumaDnf(r.dnfs)
    ensures |log| <= Tope ==> SumaDnf(r.dnfs) <= r.puntos <= SumaDnf(r.dnfs) + 7 * ContarTiempos(log)
  {
    DnfsContados(pb, |log| > Tope, log);
    PuntosAcotados(pb, |log| > Tope, log);
    TopeConservaPb(pb, log);
    Recorrer(pb, |log| > Tope, log)
  }

  lemma {:induction false} DnfsContados(pb: real, limitado: bool, log: seq<Intento>)
    ensures Recorrer(pb, limitado, log).dnfs == ContarDnf(log)
  {
    if log != [] {
      DnfsContados(pb, limitado, log[..|log| - 1]);
    }
  }

  /** Every DNF adds exactly its scheduled penalty, every timed attempt adds
      between 0 and 7, and nothing at all under the cap. */
  lemma {:induction false} PuntosAcotados(pb: real, limitado: bool, log: seq<Intento>)
    ensures var e := Recorrer(pb, limitado, log);
      SumaDnf(ContarDnf(log)) <= e.puntos
      <= SumaDnf(ContarDnf(log)) + if limitado then 0 else 7 * ContarTiempos(log)
  {
    if log != [] {
      var init := log[..|log| - 1];
      PuntosAcotados(pb, limitado, init);
      DnfsContados(pb, limitado, init);
    }
  }

  /** Under the cap the running best stays at the PB. */
  lemma {:induction false} TopeConservaPb(pb: real, log: seq<Intento>)
    ensures Recorrer(pb, true, log).mejor == pb
  {
    if log != [] {
      TopeConservaPb(pb, log[..|log| - 1]);
    }
  }

  /** Without the cap the running best is the least of the PB and all
      recorded times. */
  lemma {:induction false} MejorEsMinimo(pb: real, log: seq<Intento>)
    ensures var m := Recorrer(pb, false, log).mejor;
      && m <= pb
      && (forall i :: 0 <= i < |log| && log[i].Tiempo? ==> m <= log[i].v)
      && (m == pb || Tiempo(m) in log)
  {
    if log != [] {
      var init := log[..|log| - 1];
      MejorEsMinimo(pb, init);
      var m0 := Recorrer(pb, false, init).mejor;
      assert forall i :: 0 <= i < |init| ==> log[i] == init[i];
      assert Tiempo(m0) in init ==> Tiempo(m0) in log;
    }
  }

  /** Along the log, the running best never goes up. */
  lemma {:induction false} MejorNuncaSube(pb: real, limitado: bool, log: seq<Intento>, j: nat, i: nat)
    requires j <= i <= |log|
    ensures Recorrer(pb, limitado, log[..i]).mejor <= Recorrer(pb, limitado, log[..j]).mejor <= pb
  {
    if i > j {
      assert log[..i][..i - 1] == log[..i - 1];
      MejorNuncaSube(pb, limitado, log, j, i - 1);
    } else if j > 0 {
      assert log[..j][..j - 1] == log[..j - 1];
      MejorNuncaSube(pb, limitado, log, j - 1, j - 1);
    }
  }

  /** The record the ranking emits for one competitor. */
  function Registrar(c: Competidor, log: seq<Intento>): (r: Registro)
    ensures r.competidor == c.nombre && r.pbInicial == c.pb
    ensures r.intentos == |log| && r.dnfs == ContarDnf(log)
    ensures log == [] ==> r.puntos == 0 && r.dnfs == 0
    ensures |log| > Tope ==> r.puntos == SumaDnf(r.dnfs) <= 0
    ensures |log| <= Tope ==> -11 <= r.puntos <= 49
  {
    var e := Evaluar(c.pb, log);
    DnfsContados(c.pb, |log| > Tope, log);
    PuntosAcotados(c.pb, |log| > Tope, log);
    SumaDnfFormaCerrada(ContarDnf(log));
    ConteosSuman(log);
    Registro(c.nombre, c.pb, |log|, e.dnfs, e.puntos)
  }

  lemma {:induction false} ConteosSuman(log: seq<Intento>)
    ensures ContarDnf(log) + ContarTiempos(log) == |log|
  {
    if log != [] {
      ConteosSuman(log[..|log| - 1]);
    }
  }

  /** Recording one more DNF never raises a competitor's points, even when it
      pushes the log over the cap. */
  lemma DnfNuncaSuma(c: Competidor, log: seq<Intento>)
    ensures Registrar(c, log + [Dnf]).dnfs == Registrar(c, log).dnfs + 1
    ensures Registrar(c, log + [Dnf]).puntos <= Registrar(c, log).puntos
  {
    var log' := log + [Dnf];
    assert log'[..|log'| - 1] == log;
    DnfsContados(c.pb, |log| > Tope, log);
    if |log| == Tope {
      PuntosAcotados(c.pb, false, log);
      SumaDnfFormaCerrada(ContarDnf(log) + 1);
    }
  }

  /** Worked cases: a new best followed by a close miss; three DNFs; eight
      timed attempts, which pass the cap. */
  lemma Ejemplos()
    ensures Evaluar(5.35, [Tiempo(5.30), Tiempo(5.41)]) == Estado(3 + 4 + 3, 5.30, 0)
    ensures Evaluar(5.35, [Dnf, Dnf, Dnf]) == Estado(0 - 1 - 2, 5.35, 3)
    ensures Evaluar(5.35, seq(8, _ => Tiempo(5.30))).puntos == 0
  {
    var dos := [Tiempo(5.30), Tiempo(5.41)];
    assert dos[..1] == [Tiempo(5.30)] && dos[..1][..0] == [];
    assert Recorrer(5.35, false, dos[..1]) == Estado(7, 5.30, 0);
    var tres := [Dnf, Dnf, Dnf];
    SinTiemposCuentaCero(tres);
    ConteosSuman(tres);
    DnfsContados(5.35, false, tres);
    PuntosAcotados(5.35, false, tres);
    SumaDnfFormaCerrada(3);
    MejorEsMinimo(5.35, tres);
    var ocho := seq(8, _ => Tiempo(5.30));
    PuntosAcotados(5.35, true, ocho);
    SinDnfCuentaCero(ocho);
  }

  lemma {:induction false} SinTiemposCuentaCero(log: seq<Intento>)
    requires forall i :: 0 <= i < |log| ==> log[i].Dnf?
    ensures ContarTiempos(log) == 0
  {
    if log != [] {
      SinTiemposCuentaCero(log[..|log| - 1]);
    }
  }

  lemma {:induction false} SinDnfCuentaCero(log: seq<Intento>)
    requires forall i :: 0 <= i < |log| ==> log[i].Tiempo?
    ensures ContarDnf(log) == 0
  {
    if log != [] {
      SinDnfCuentaCero(log[..|log| - 1]);
    }
  }

  /** The ranking's inner loop for one competitor. */
  method PuntuarCompetidor(c: Competidor, intentos: seq<Intento>) returns (r: Registro)
    ensures r == Registrar(c, intentos)
  {
    var puntosTotales := 0;
    var mejor := c.pb;
    var dnfs := 0;
    var i := 0;
    while i < |intentos|
      invariant 0 <= i <= |intentos|
      invariant Estado(puntosTotales, mejor, dnfs) == Recorrer(c.pb, |intentos| > Tope, intentos[..i])
    {
      assert intentos[..i + 1][..i] == intentos[..i];
      match intentos[i] {
        case Tiempo(valor) =>
          var nuevoPb := valor < mejor;
          if |intentos| > Tope {
            puntosTotales := puntosTotales + 0;
          } else {
            puntosTotales := puntosTotales + Puntuar(c.pb, valor, nuevoPb);
            if nuevoPb {
              mejor := valor;
            }
          }
        case Dnf =>
          dnfs := dnfs + 1;
          if dnfs == 1 {
            puntosTotales := puntosTotales + 0;
          } else if dnfs == 2 {
            puntosTotales := puntosTotales - 1;
          } else if dnfs < 8 {
            puntosTotales := puntosTotales - 2;
          } else if dnfs > 8 {
            puntosTotales := puntosTotales + 0;
          }
      }
      i := i + 1;
    }
    assert intentos[..i] == intentos;
    r := Registro(c.nombre, c.pb, |intentos|, dnfs, puntosTotales);
  }

  /** The records of all competitors, in declaration order. */
  function Registros(cs: seq<Competidor>, resultados: map<string, seq<Intento>>): (rs: seq<Registro>)
    requires forall c <- cs :: c.nombre in resultados
    ensures |rs| == |cs|
    ensures forall i :: 0 <= i < |cs| ==> rs[i] == Registrar(cs[i], resultados[cs[i].nombre])
  {
    if cs == [] then []
    else [Registrar(cs[0], resultados[cs[0].nombre])] + Registros(cs[1..], resultados)
  }

  /** The ranking's outer loop: one record per competitor, in declaration order. */
  method Clasificacion(cs: seq<Competidor>, resultados: map<string, seq<Intento>>)
    returns (rs: seq<Registro>)
    requires forall c <- cs :: c.nombre in resultados
    ensures rs == Registros(cs, resultados)
  {
    rs := [];
    var k := 0;
    while k < |cs|
      invariant 0 <= k <= |cs|
      invariant |rs| == k
      invariant forall i :: 0 <= i < k ==> rs[i] == Registrar(cs[i], resultados[cs[i].nombre])
    {
      var r := PuntuarCompetidor(cs[k], resultados[cs[k].nombre]);
      rs := rs + [r];
      k := k + 1;
    }
  }
}
