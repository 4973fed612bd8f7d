/** The session's attempt log: a list of attempts per competitor, changed by
    the "add attempt" and "undo last attempt" buttons. */
module Sesion {
  import opened Competicion
  import opened Recuento
  import Tabla

  datatype Option<T> = None | Some(value: T)

  /** Whether the add button records this attempt: a time only when positive,
      a DNF always. */
  predicate Aceptado(a: Intento)
  {
    a.Dnf? || a.v > 0.0
  }

  /** No log of the map holds a rejected attempt. */
  ghost predicate SoloAceptados(m: map<string, seq<Intento>>)
  {
    forall n, i :: n in m && 0 <= i < |m[n]| ==> Aceptado(m[n][i])
  }

  lemma AnadirConservaAceptados(m: map<string, seq<Intento>>, nombre: string, a: Intento)
    requires SoloAceptados(m) && nombre in m && Aceptado(a)
    ensures SoloAceptados(m[nombre := m[nombre] + [a]])
  {
  }

  lemma PrefijoConservaAceptados(m: map<string, seq<Intento>>, nombre: string, k: nat)
    requires SoloAceptados(m) && nombre in m && k <= |m[nombre]|
    ensures SoloAceptados(m[nombre := m[nombre][..k]])
  {
  }

  class Resultados {
    /** The configured competitors. */
    const competidores: seq<Competidor>
    /** Each competitor's attempts, oldest first. */
    var log: map<string, seq<Intento>>

    /** Every configured competitor, and nobody else, has a log, and no
        rejected attempt is in any log. */
    ghost predicate Valid()
      reads this
    {
      && Distintos(NombresDe(competidores))
      && log.Keys == (set c | c in competidores :: c.nombre)
      && SoloAceptados(log)
    }

    /** Starts every given competitor with an empty log. */
    constructor (cs: seq<Competidor>)
      requires Distintos(NombresDe(cs))
      ensures Valid()
      ensures competidores == cs
      ensures forall c <- cs :: c.nombre in log && log[c.nombre] == []
    {
      competidores := cs;
      log := map c | c in cs :: c.nombre := [];
    }

    /** Records an attempt for the selected competitor. */
    method Anadir(nombre: string, a: Intento) returns (anadido: bool)
      requires Valid() && nombre in log
      modifies this
      ensures Valid()
      ensures anadido <==> Aceptado(a)
      ensures anadido ==> log == old(log)[nombre := old(log)[nombre] + [a]]
      ensures !anadido ==> log == old(log)
      ensures forall n :: n in log && n != nombre ==> log[n] == old(log)[n]
    {
      match a
      case Tiempo(t) =>
        if t > 0.0 {
          AnadirConservaAceptados(log, nombre, a);
          log := log[nombre := log[nombre] + [a]];
          anadido := true;
        } else {
          anadido := false;
        }
      case Dnf =>
        AnadirConservaAceptados(log, nombre, Dnf);
        log := log[nombre := log[nombre] + [Dnf]];
        anadido := true;
    }

    /** Removes and returns the selected competitor's latest attempt; an empty
        log is left as it is. */
    method Deshacer(nombre: string) returns (ultimo: Option<Intento>)
      requires Valid() && nombre in log
      modifies this
      ensures Valid()
      ensures old(log)[nombre] == [] ==> ultimo == None && log == old(log)
      ensures old(log)[nombre] != [] ==>
                var prev := old(log)[nombre];
                && ultimo == Some(prev[|prev| - 1])
                && log == old(log)[nombre := prev[..|prev| - 1]]
      ensures forall n :: n in log && n != nombre ==> log[n] == old(log)[n]
    {
      var intentos := log[nombre];
      if intentos != [] {
        ultimo := Some(intentos[|intentos| - 1]);
        PrefijoConservaAceptados(log, nombre, |intentos| - 1);
        log := log[nombre := intentos[..|intentos| - 1]];
      } else {
        ultimo := None;
      }
    }

    /** The live standings computed from the current logs. */
    method Clasificar() returns (tabla: seq<Registro>)
      requires Valid()
      ensures |tabla| == |competidores|
      ensures Tabla.Descendente(tabla)
      ensures multiset(tabla) == multiset(Registros(competidores, log))
      ensures forall c <- competidores :: multiset(Tabla.Nombres(tabla))[c.nombre] == 1
    {
      tabla := Tabla.TablaClasificacion(competidores, log);
    }
  }

  /** The session as the app starts it: the configured field, every log empty. */
  method Iniciar() returns (r: Resultados)
    ensures fresh(r) && r.Valid() && r.competidores == Competidores
    ensures forall c <- Competidores :: c.nombre in r.log && r.log[c.nombre] == []
  {
    NombresConfiguradosDistintos();
    r := new Resultados(Competidores);
  }

  /** Re-adding the attempt an undo removed gives back the log as it was. */
  method DeshacerYRehacer(r: Resultados, nombre: string)
    requires r.Valid() && nombre in r.log && r.log[nombre] != []
    modifies r
    ensures r.log == old(r.log)
  {
    ghost var prev := r.log[nombre];
    assert Aceptado(prev[|prev| - 1]);
    var ultimo := r.Deshacer(nombre);
    var anadido := r.Anadir(nombre, ultimo.value);
    assert r.log[nombre] == old(r.log)[nombre];
  }

  /** Undoing right after an accepted add gives back the attempt and the log
      as it was. */
  method AnadirYDeshacer(r: Resultados, nombre: string, a: Intento)
    requires r.Valid() && nombre in r.log && Aceptado(a)
    modifies r
    ensures r.log == old(r.log)
  {
    var anadido := r.Anadir(nombre, a);
    var ultimo := r.Deshacer(nombre);
    assert ultimo == Some(a);
    assert r.log[nombre] == old(r.log)[nombre];
  }
}
