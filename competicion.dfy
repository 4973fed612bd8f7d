/** The competition's data: competitors with their initial personal best (PB)
    and the attempts recorded for them. */
module Competicion {

  /** One recorded attempt: a time in seconds or a "did not finish". */
  datatype Intento = Tiempo(v: real) | Dnf

  /** A configured competitor: unique name and initial PB in seconds. */
  datatype Competidor = Competidor(nombre: string, pb: real)

  /** The competitors configured for the event, in declaration order. */
  const Competidores: seq<Competidor> := [
    Competidor("Unax", 5.35),
    Competidor("Ivan", 7.149),
    Competidor("Leslie", 6.66),
    Competidor("Leire", 7.32),
    Competidor("Haize", 8.67),
    Competidor("Aida", 9.35),
    Competidor("Maria", 7.98),
    Competidor("Alberto", 5.409),
    Competidor("Miquel", 5.230),
    Competidor("Alex Rivas", 5.41),
    Competidor("Alejo", 5.47),
    Competidor("Carla", 6.96),
    Competidor("Ola", 6.51),
    Competidor("Oriol", 5.47),
    Competidor("Julia", 8.80),
    Competidor("Víctor", 5.97)
  ]

  /** The competitors' names, in declaration order. */
  function NombresDe(cs: seq<Competidor>): (ns: seq<string>)
    ensures |ns| == |cs|
    ensures forall i :: 0 <= i < |cs| ==> ns[i] == cs[i].nombre
  {
    if cs == [] then [] else [cs[0].nombre] + NombresDe(cs[1..])
  }

  ghost predicate Distintos(ns: seq<string>)
  {
    forall i, j :: 0 <= i < j < |ns| ==> ns[i] != ns[j]
  }

  /** In a sequence without repetitions every member occurs exactly once. */
  lemma {:induction false} DistintosUnaVez(ns: seq<string>, n: string)
    requires Distintos(ns)
    ensures multiset(ns)[n] == if n in ns then 1 else 0
  {
    if ns != [] {
      assert ns == [ns[0]] + ns[1..];
      assert Distintos(ns[1..]) by {
        forall i, j | 0 <= i < j < |ns[1..]| ensures ns[1..][i] != ns[1..][j] {
          assert ns[1..][i] == ns[i + 1] && ns[1..][j] == ns[j + 1];
        }
      }
      DistintosUnaVez(ns[1..], n);
      assert ns[0] !in ns[1..] by {
        forall k | 0 <= k < |ns[1..]| ensures ns[1..][k] != ns[0] {
          assert ns[1..][k] == ns[k + 1];
        }
      }
    }
  }

  /** Sixteen competitors, each with a positive PB. */
  lemma CompetidoresConfigurados()
    ensures |Competidores| == 16
    ensures forall c <- Competidores :: c.pb > 0.0
  {
  }

  /** Names that differ pairwise give a repetition-free name list. */
  lemma NombresDistintos(cs: seq<Competidor>)
    requires forall i, j :: 0 <= i < j < |cs| ==> cs[i].nombre != cs[j].nombre
    ensures Distintos(NombresDe(cs))
  {
  }

  /** The configured names are unique: no two share both length and initial. */
  lemma NombresConfiguradosDistintos()
    ensures Distintos(NombresDe(Competidores))
  {
    var cs := Competidores;
    forall i, j | 0 <= i < j < |cs| ensures cs[i].nombre != cs[j].nombre {
      assert |cs[i].nombre| != |cs[j].nombre| || cs[i].nombre[0] != cs[j].nombre[0];
    }
    NombresDistintos(cs);
  }
}
