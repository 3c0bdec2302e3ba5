/**
 * The student list of one group: the group's roster object turned into an
 * array, and the name search over it with the "shown / total" count.
 */
module StudentList {
  import opened Wrappers
  import opened Seqs
  import opened Text
  import opened Grupos
  import opened Rosters

  /** `estudiantes`: the group's roster as an array; an unknown group gives `[]`. */
  function Estudiantes(grupo: string): (es: seq<Estudiante>)
    ensures RosterOf(grupo).None? ==> es == []
    ensures RosterOf(grupo).Some? ==> es == Students(RosterOf(grupo).value)
  {
    Students(RosterOf(grupo).GetOr([]))
  }

  /** In every group's roster the `id` each array element carries is its object key. */
  lemma IdsAreKeys(grupo: string)
    ensures |Estudiantes(grupo)| == |RosterOf(grupo).GetOr([])|
    ensures forall i | 0 <= i < |Estudiantes(grupo)| :: Estudiantes(grupo)[i].id == RosterOf(grupo).GetOr([])[i].key
  {
    GruposDataShape();
  }

  function Busqueda(termino: string): Estudiante -> bool {
    (e: Estudiante) => CoincideBusqueda(e.nombre, termino)
  }

  /** `filteredEstudiantes`. */
  function Filtrados(es: seq<Estudiante>, termino: string): seq<Estudiante> {
    Filter(es, Busqueda(termino))
  }

  /**
   * The filtered list keeps the roster's order, holds exactly the students
   * whose lower-cased name contains the lower-cased term, and so is never
   * longer than the roster.
   */
  lemma FiltradosMeaning(es: seq<Estudiante>, termino: string)
    ensures IsSubseq(Filtrados(es, termino), es)
    ensures forall e :: e in Filtrados(es, termino) <==> e in es && CoincideBusqueda(e.nombre, termino)
    ensures |Filtrados(es, termino)| <= |es|
  {
    FilterIsSubseq(es, Busqueda(termino));
    forall e
      ensures e in Filtrados(es, termino) <==> e in es && CoincideBusqueda(e.nombre, termino)
    {
      FilterMembers(es, Busqueda(termino), e);
    }
  }

  /** An empty search shows the whole roster. */
  lemma EmptySearchShowsAll(es: seq<Estudiante>)
    ensures Filtrados(es, "") == es
  {
    forall i | 0 <= i < |es|
      ensures Busqueda("")(es[i])
    {
      BusquedaVacia(es[i].nombre);
    }
    FilterAll(es, Busqueda(""));
  }
}
