/** The point rule for a single timed attempt. Times are exact reals. */
module Puntuacion {

  function Abs(x: real): (r: real)
    ensures r >= 0.0 && (r == x || r == -x)
  {
    if x < 0.0 then -x else x
  }

  /** Points for one timed attempt: a closeness tier measured against the
      initial PB (3 within 0.1 s, 2 within 0.2 s, 1 within 0.3 s, else 0),
      plus 4 when the caller says the attempt is a new best. */
  function Puntuar(pb: real, tiempo: real, nuevoPb: bool): (puntos: int)
    ensures 0 <= puntos <= 7
    ensures nuevoPb <==> puntos >= 4
    ensures var base := if nuevoPb then puntos - 4 else puntos;
      && (base == 3 <==> Abs(tiempo - pb) <= 0.1)
      && (base == 2 <==> 0.1 < Abs(tiempo - pb) <= 0.2)
      && (base == 1 <==> 0.2 < Abs(tiempo - pb) <= 0.3)
      && (base == 0 <==> 0.3 < Abs(tiempo - pb))
  {
    var dif := Abs(tiempo - pb);
    var base :=
      if dif <= 0.1 then 3
      else if dif <= 0.2 then 2
      else if dif <= 0.3 then 1
      else 0;
    if nuevoPb then base + 4 else base
  }

  /** The new-best bonus is exactly 4 points on top of the closeness tier. */
  lemma BonificacionEsCuatro(pb: real, tiempo: real)
    ensures Puntuar(pb, tiempo, true) == Puntuar(pb, tiempo, false) + 4
  {
  }

  /** An attempt closer to the PB never scores fewer points. */
  lemma MasCercaNuncaPuntuaMenos(pb: real, t1: real, t2: real, nuevoPb: bool)
    requires Abs(t1 - pb) <= Abs(t2 - pb)
    ensures Puntuar(pb, t1, nuevoPb) >= Puntuar(pb, t2, nuevoPb)
  {
  }

  /** Being slower or faster than the PB by the same margin scores the same. */
  lemma DistanciaSimetrica(pb: real, d: real, nuevoPb: bool)
    ensures Puntuar(pb, pb + d, nuevoPb) == Puntuar(pb, pb - d, nuevoPb)
  {
    assert Abs(pb + d - pb) == Abs(pb - d - pb);
  }
}
