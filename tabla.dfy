/** Ordering the records into the standings table: by points, descending. */
module Tabla {
  import opened Competicion
  import opened Recuento

  /** Points never increase down the table. */
  ghost predicate Descendente(s: seq<Registro>)
  {
    forall i, j :: 0 <= i < j < |s| ==> s[i].puntos >= s[j].puntos
  }

  /** The competitor names of a table, top to bottom. */
  function Nombres(s: seq<Registro>): (ns: seq<string>)
    ensures |ns| == |s|
    ensures forall i :: 0 <= i < |s| ==> ns[i] == s[i].competidor
  {
    if s == [] then [] else [s[0].competidor] + Nombres(s[1..])
  }

  /** Places a record into a descending table. */
  function Insertar(x: Registro, s: seq<Registro>): (r: seq<Registro>)
    requires Descendente(s)
    ensures Descendente(r)
    ensures multiset(r) == multiset(s) + multiset{x}
  {
    if s == [] then [x]
    else if x.puntos >= s[0].puntos then [x] + s
    else
      var rest := Insertar(x, s[1..]);
      assert s == [s[0]] + s[1..];
      CotaSuperior(rest, s[0].puntos, x, s[1..]);
      [s[0]] + rest
  }

  /** Insertion adds exactly the inserted record's name. */
  lemma {:induction false} InsertarNombres(x: Registro, s: seq<Registro>)
    requires Descendente(s)
    ensures multiset(Nombres(Insertar(x, s))) == multiset(Nombres(s)) + multiset{x.competidor}
  {
    var r := Insertar(x, s);
    if s == [] {
      assert Nombres(r) == [x.competidor];
    } else if x.puntos >= s[0].puntos {
      assert r[1..] == s;
      assert Nombres(r) == [x.competidor] + Nombres(s);
    } else {
      var rest := Insertar(x, s[1..]);
      InsertarNombres(x, s[1..]);
      assert r[1..] == rest;
      assert Nombres(r) == [s[0].competidor] + Nombres(rest);
      assert Nombres(s) == [s[0].competidor] + Nombres(s[1..]);
    }
  }

  lemma CotaSuperior(rest: seq<Registro>, p: int, x: Registro, t: seq<Registro>)
    requires multiset(rest) == multiset(t) + multiset{x}
    requires x.puntos <= p
    requires forall k :: 0 <= k < |t| ==> t[k].puntos <= p
    ensures forall k :: 0 <= k < |rest| ==> rest[k].puntos <= p
  {
    forall k | 0 <= k < |rest| ensures rest[k].puntos <= p {
      assert rest[k] in multiset(rest);
      if rest[k] != x {
        assert rest[k] in multiset(t);
        var j :| 0 <= j < |t| && t[j] == rest[k];
      }
    }
  }

  /** Sorts records by points, descending. The order among equal points is
      not specified. */
  function Ordenar(s: seq<Registro>): (r: seq<Registro>)
    ensures Descendente(r)
    ensures multiset(r) == multiset(s)
    ensures multiset(Nombres(r)) == multiset(Nombres(s))
  {
    if s == [] then []
    else
      assert s == [s[0]] + s[1..];
      InsertarNombres(s[0], Ordenar(s[1..]));
      Insertar(s[0], Ordenar(s[1..]))
  }

  lemma {:induction false} NombresDeRegistros(cs: seq<Competidor>, resultados: map<string, seq<Intento>>)
    requires forall c <- cs :: c.nombre in resultados
    ensures Nombres(Registros(cs, resultados)) == NombresDe(cs)
  {
  }

  /** The standings table: every configured competitor's record, sorted by
      points, descending. */
  method TablaClasificacion(cs: seq<Competidor>, resultados: map<string, seq<Intento>>)
    returns (tabla: seq<Registro>)
    requires forall c <- cs :: c.nombre in resultados
    ensures |tabla| == |cs|
    ensures Descendente(tabla)
    ensures multiset(tabla) == multiset(Registros(cs, resultados))
    ensures forall c <- cs :: Registrar(c, resultados[c.nombre]) in tabla
    ensures Distintos(NombresDe(cs)) ==>
              forall n :: multiset(Nombres(tabla))[n] == if n in NombresDe(cs) then 1 else 0
  {
    var registros := Clasificacion(cs, resultados);
    tabla := Ordenar(registros);
    PermutacionConservaRegistros(cs, resultados, tabla);
    NombresDeRegistros(cs, resultados);
    if Distintos(NombresDe(cs)) {
      NombresUnaVez(NombresDe(cs), Nombres(tabla));
    }
  }

  lemma PermutacionConservaRegistros(cs: seq<Competidor>, resultados: map<string, seq<Intento>>, tabla: seq<Registro>)
    requires forall c <- cs :: c.nombre in resultados
    requires multiset(tabla) == multiset(Registros(cs, resultados))
    ensures |tabla| == |cs|
    ensures forall c <- cs :: Registrar(c, resultados[c.nombre]) in tabla
  {
    var registros := Registros(cs, resultados);
    assert |multiset(tabla)| == |tabla| && |multiset(registros)| == |registros|;
    forall c <- cs ensures Registrar(c, resultados[c.nombre]) in tabla {
      var i :| 0 <= i < |cs| && cs[i] == c;
      assert registros[i] in multiset(registros);
    }
  }

  /** A permutation of a repetition-free name list names each member once. */
  lemma NombresUnaVez(ns: seq<string>, ms: seq<string>)
    requires Distintos(ns) && multiset(ms) == multiset(ns)
    ensures forall n :: multiset(ms)[n] == if n in ns then 1 else 0
  {
    forall n ensures multiset(ms)[n] == if n in ns then 1 else 0 {
      DistintosUnaVez(ns, n);
    }
  }
}
