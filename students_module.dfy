/**
 * The all-students page: every group's roster flattened into one list (each
 * student tagged with its group), filtered by a selected group ("Todos" for
 * all) and by name, with a count per group button.
 */
module StudentsModule {
  import opened Wrappers
  import opened Seqs
  import opened Text
  import opened Grupos
  import opened Rosters

  const TodosLosGrupos := "Todos"

  /** An entry of `allStudents`: `{id, ...data, grupo}`. */
  datatype Alumno = Alumno(id: int, nombre: string, grupo: string)

  /** A roster's students tagged with group `g`, in key order. */
  function Etiquetar(r: Roster, g: string): (as_: seq<Alumno>)
    ensures |as_| == |r|
    ensures forall i | 0 <= i < |r| :: as_[i] == Alumno(r[i].student.id, r[i].student.nombre, g)
  {
    if |r| == 0 then [] else Etiquetar(r[..|r| - 1], g) + [Alumno(r[|r| - 1].student.id, r[|r| - 1].student.nombre, g)]
  }

  /** The rosters of the groups `gs`, one after the other (an unknown group adds nobody). */
  function Todos(gs: seq<string>): seq<Alumno> {
    if |gs| == 0 then []
    else Todos(gs[..|gs| - 1]) + Etiquetar(RosterOf(gs[|gs| - 1]).GetOr([]), gs[|gs| - 1])
  }

  /** The inner `forEach`: push each student of roster `r`, tagged with `g`, onto `all`. */
  method PushRoster(all: seq<Alumno>, r: Roster, g: string) returns (res: seq<Alumno>)
    ensures res == all + Etiquetar(r, g)
  {
    res := all;
    var j := 0;
    while j < |r|
      invariant 0 <= j <= |r|
      invariant res == all + Etiquetar(r[..j], g)
    {
      assert r[..j + 1][..j] == r[..j];
      res := res + [Alumno(r[j].student.id, r[j].student.nombre, g)];
      j := j + 1;
    }
    assert r[..|r|] == r;
  }

  /** `allStudents`, built by the outer `forEach` over the groups. */
  method AllStudents() returns (all: seq<Alumno>)
    ensures all == Todos(Grupos.Grupos)
  {
    all := [];
    var i := 0;
    while i < |Grupos.Grupos|
      invariant 0 <= i <= |Grupos.Grupos|
      invariant all == Todos(Grupos.Grupos[..i])
    {
      var g := Grupos.Grupos[i];
      all := PushRoster(all, RosterOf(g).GetOr([]), g);
      assert Grupos.Grupos[..i + 1][..i] == Grupos.Grupos[..i];
      i := i + 1;
    }
    assert Grupos.Grupos[..|Grupos.Grupos|] == Grupos.Grupos;
  }

  function GrupoDe(a: Alumno): string {
    a.grupo
  }

  function DelGrupo(g: string): Alumno -> bool {
    (a: Alumno) => a.grupo == g
  }

  /** Every student listed is tagged with one of the groups walked. */
  lemma {:induction false} TodosTagged(gs: seq<string>)
    ensures forall i | 0 <= i < |Todos(gs)| :: Todos(gs)[i].grupo in gs
  {
    if |gs| > 0 {
      var init, g := gs[..|gs| - 1], gs[|gs| - 1];
      TodosTagged(init);
      var prev, nuevos := Todos(init), Etiquetar(RosterOf(g).GetOr([]), g);
      forall i | 0 <= i < |Todos(gs)|
        ensures Todos(gs)[i].grupo in gs
      {
        if i < |prev| {
          assert Todos(gs)[i] == prev[i];
          assert prev[i].grupo in init;
        } else {
          assert Todos(gs)[i] == nuevos[i - |prev|];
        }
      }
    }
  }

  /**
   * Filtering the flattened list by one group gives back exactly that
   * group's roster, tagged: no student is lost or duplicated across groups.
   */
  lemma {:induction false} FilterByGroup(gs: seq<string>, g: string)
    requires Distinct(gs)
    ensures Filter(Todos(gs), DelGrupo(g)) == if g in gs then Etiquetar(RosterOf(g).GetOr([]), g) else []
  {
    if |gs| == 0 {
    } else {
      var init, last := gs[..|gs| - 1], gs[|gs| - 1];
      assert gs == init + [last];
      assert Distinct(init);
      FilterByGroup(init, g);
      var nuevos := Etiquetar(RosterOf(last).GetOr([]), last);
      FilterAppend(Todos(init), nuevos, DelGrupo(g));
      if last == g {
        assert g !in init;
        FilterAll(nuevos, DelGrupo(g));
      } else {
        FilterNone(nuevos, DelGrupo(g));
        assert g in gs <==> g in init;
      }
    }
  }

  /** The `filter` of `filteredStudents`: group ("Todos" passes all) and name search. */
  function Criterio(grupoSel: string, termino: string): Alumno -> bool {
    (a: Alumno) => (grupoSel == TodosLosGrupos || a.grupo == grupoSel) && CoincideBusqueda(a.nombre, termino)
  }

  function Filtrados(all: seq<Alumno>, grupoSel: string, termino: string): seq<Alumno> {
    Filter(all, Criterio(grupoSel, termino))
  }

  /**
   * The filtered list keeps the order of `allStudents` and holds exactly the
   * students of the selected group (any group for "Todos") whose name
   * contains the search term, case aside.
   */
  lemma FiltradosMeaning(all: seq<Alumno>, grupoSel: string, termino: string)
    ensures IsSubseq(Filtrados(all, grupoSel, termino), all)
    ensures forall a :: a in Filtrados(all, grupoSel, termino) <==>
      a in all && (grupoSel == TodosLosGrupos || a.grupo == grupoSel) && CoincideBusqueda(a.nombre, termino)
  {
    FilterIsSubseq(all, Criterio(grupoSel, termino));
    forall a
      ensures a in Filtrados(all, grupoSel, termino) <==>
        a in all && (grupoSel == TodosLosGrupos || a.grupo == grupoSel) && CoincideBusqueda(a.nombre, termino)
    {
      FilterMembers(all, Criterio(grupoSel, termino), a);
    }
  }

  /** The initial view ("Todos", empty search) lists every student. */
  lemma InitialViewShowsAll(all: seq<Alumno>)
    ensures Filtrados(all, TodosLosGrupos, "") == all
  {
    forall i | 0 <= i < |all|
      ensures Criterio(TodosLosGrupos, "")(all[i])
    {
      BusquedaVacia(all[i].nombre);
    }
    FilterAll(all, Criterio(TodosLosGrupos, ""));
  }

  /** The counts on the group buttons, added up over `gs`. */
  function SumaConteos(all: seq<Alumno>, gs: seq<string>): nat {
    if |gs| == 0 then 0 else |Filter(all, DelGrupo(gs[0]))| + SumaConteos(all, gs[1..])
  }

  lemma {:induction false} SumaConteosIsSumCounts(all: seq<Alumno>, gs: seq<string>)
    ensures SumaConteos(all, gs) == SumCounts(all, GrupoDe, gs)
  {
    if |gs| > 0 {
      FilterCount(all, DelGrupo(gs[0]), GrupoDe, gs[0]);
      SumaConteosIsSumCounts(all, gs[1..]);
    }
  }

  /** The per-group counts add up to the "Todos" count. */
  lemma CountsAddUp()
    ensures SumaConteos(Todos(Grupos.Grupos), Grupos.Grupos) == |Todos(Grupos.Grupos)|
  {
    GruposDataShape();
    TodosTagged(Grupos.Grupos);
    SumaConteosIsSumCounts(Todos(Grupos.Grupos), Grupos.Grupos);
    PartitionCount(Todos(Grupos.Grupos), GrupoDe, Grupos.Grupos);
  }
}
