/**
 * The formación attendance grid: one row per persona (persona `i` has the id
 * `persona-i`, modelled as the index `i`), fifteen formación columns, each
 * cell a three-state value. The remote table `asistencias_formacion` is a
 * map keyed by its conflict key (formacion_nombre, formacion_num).
 */
module FormacionAsistencia {
  import opened Wrappers
  import opened Estados
  import opened Tables

  const NumFormaciones: int := 15

  /** A row of `asistencias_formacion`. */
  datatype FormacionRow = FormacionRow(nombre: string, num: int, estado: Estado)

  type Grid = map<int, map<int, Estado>>

  /** `personas.find(p => p.nombre === nombre)`, as the index of that persona. */
  function FindPersona(personas: seq<string>, nombre: string): (r: Option<nat>)
    ensures r.None? <==> nombre !in personas
    ensures r.Some? ==> r.value < |personas| && personas[r.value] == nombre
    ensures r.Some? ==> forall i | 0 <= i < r.value :: personas[i] != nombre
  {
    if |personas| == 0 then None
    else if personas[0] == nombre then Some(0)
    else match FindPersona(personas[1..], nombre)
      case None => None
      case Some(i) => Some(i + 1)
  }

  /** `formacionesIndices`: 1..15. */
  const Formaciones: set<int> := Range(1, NumFormaciones + 1)

  /** The all-ausente row for formaciones 1..15. */
  function DefaultRow(): map<int, Estado> {
    map k | k in Formaciones :: Ausente
  }

  /** The grid before loading: personas `0..n-1`, every formación ausente. */
  function DefaultGrid(n: nat): (g: Grid)
    ensures g.Keys == Range(0, n)
    ensures forall p, k | 0 <= p < n && 1 <= k <= NumFormaciones :: Cell(g, p, k) == Some(Ausente)
    ensures forall p, k | !(0 <= p < n && 1 <= k <= NumFormaciones) :: Cell(g, p, k) == None
  {
    map p | p in Range(0, n) :: DefaultRow()
  }

  /** One loaded row: it lands on the first persona of that name, or is dropped. */
  function ApplyRow(g: Grid, personas: seq<string>, row: FormacionRow): Grid {
    match FindPersona(personas, row.nombre)
    case None => g
    case Some(p) => SetCell(g, p, row.num, row.estado)
  }

  /** The grid after loading `rows` in order over the default grid. */
  function Loaded(personas: seq<string>, rows: seq<FormacionRow>): Grid {
    if |rows| == 0 then DefaultGrid(|personas|)
    else ApplyRow(Loaded(personas, rows[..|rows| - 1]), personas, rows[|rows| - 1])
  }

  /** Row `row` is written into cell (p, k): its name is persona p's and its number is k. */
  predicate Lands(personas: seq<string>, row: FormacionRow, p: int, k: int) {
    FindPersona(personas, row.nombre) == Some(p) && row.num == k
  }

  /** The estado of the last row that lands on cell (p, k), if any. */
  function LastRow(personas: seq<string>, rows: seq<FormacionRow>, p: int, k: int): Option<Estado> {
    if |rows| == 0 then None
    else
      var last := rows[|rows| - 1];
      if Lands(personas, last, p, k) then Some(last.estado)
      else LastRow(personas, rows[..|rows| - 1], p, k)
  }

  /** `LastRow` finds nothing exactly when no row lands on the cell, and otherwise the last one that does. */
  lemma {:induction false} LastRowMeaning(personas: seq<string>, rows: seq<FormacionRow>, p: int, k: int)
    ensures LastRow(personas, rows, p, k).None? <==> forall i | 0 <= i < |rows| :: !Lands(personas, rows[i], p, k)
    ensures LastRow(personas, rows, p, k).Some? ==> exists i | 0 <= i < |rows| ::
      Lands(personas, rows[i], p, k) && rows[i].estado == LastRow(personas, rows, p, k).value &&
      forall j | i < j < |rows| :: !Lands(personas, rows[j], p, k)
  {
    if |rows| > 0 {
      var pre, n := rows[..|rows| - 1], |rows| - 1;
      LastRowMeaning(personas, pre, p, k);
      if Lands(personas, rows[n], p, k) {
        assert rows[n].estado == LastRow(personas, rows, p, k).value;
      } else {
        LastRowSkip(personas, rows, p, k);
      }
    }
  }

  /** A last row that does not land on the cell leaves the search to the rows before it. */
  lemma LastRowSkip(personas: seq<string>, rows: seq<FormacionRow>, p: int, k: int)
    requires |rows| > 0 && !Lands(personas, rows[|rows| - 1], p, k)
    requires var pre := rows[..|rows| - 1];
      (LastRow(personas, pre, p, k).None? <==> forall i | 0 <= i < |pre| :: !Lands(personas, pre[i], p, k)) &&
      (LastRow(personas, pre, p, k).Some? ==> exists i | 0 <= i < |pre| ::
        Lands(personas, pre[i], p, k) && pre[i].estado == LastRow(personas, pre, p, k).value &&
        forall j | i < j < |pre| :: !Lands(personas, pre[j], p, k))
    ensures LastRow(personas, rows, p, k).None? <==> forall i | 0 <= i < |rows| :: !Lands(personas, rows[i], p, k)
    ensures LastRow(personas, rows, p, k).Some? ==> exists i | 0 <= i < |rows| ::
      Lands(personas, rows[i], p, k) && rows[i].estado == LastRow(personas, rows, p, k).value &&
      forall j | i < j < |rows| :: !Lands(personas, rows[j], p, k)
  {
    var pre, n := rows[..|rows| - 1], |rows| - 1;
    assert LastRow(personas, rows, p, k) == LastRow(personas, pre, p, k);
    if LastRow(personas, pre, p, k).Some? {
      var i :| 0 <= i < n && Lands(personas, pre[i], p, k) && pre[i].estado == LastRow(personas, pre, p, k).value &&
        forall j | i < j < n :: !Lands(personas, pre[j], p, k);
      assert rows[i] == pre[i];
      forall j | i < j < |rows| ensures !Lands(personas, rows[j], p, k) {
        if j < n {
          assert rows[j] == pre[j];
        }
      }
    } else {
      forall j | 0 <= j < |rows| ensures !Lands(personas, rows[j], p, k) {
        if j < n {
          assert rows[j] == pre[j];
        }
      }
    }
  }

  /**
   * What a loaded cell holds: the last row for it, else ausente for a
   * persona's formaciones 1..15, else nothing. Rows whose name matches no
   * persona never show.
   */
  lemma {:induction false} LoadedCell(personas: seq<string>, rows: seq<FormacionRow>, p: int, k: int)
    ensures Cell(Loaded(personas, rows), p, k) ==
      match LastRow(personas, rows, p, k)
      case Some(e) => Some(e)
      case None => if 0 <= p < |personas| && 1 <= k <= NumFormaciones then Some(Ausente) else None
  {
    if |rows| > 0 {
      LoadedCell(personas, rows[..|rows| - 1], p, k);
    }
  }

  /** Loading never adds or removes personas. */
  lemma {:induction false} LoadedRows(personas: seq<string>, rows: seq<FormacionRow>)
    ensures Loaded(personas, rows).Keys == Range(0, |personas|)
  {
    if |rows| > 0 {
      LoadedRows(personas, rows[..|rows| - 1]);
    }
  }

  /** A row naming nobody changes nothing. */
  lemma UnknownRowIgnored(personas: seq<string>, rows: seq<FormacionRow>, row: FormacionRow)
    requires row.nombre !in personas
    ensures Loaded(personas, rows + [row]) == Loaded(personas, rows)
  {
    assert (rows + [row])[..|rows|] == rows;
  }

  /** With rows for formaciones 1..15 only, nobody has more than 15 presentes. */
  lemma PresentesAtMostFifteen(personas: seq<string>, rows: seq<FormacionRow>, p: int)
    requires forall i | 0 <= i < |rows| :: 1 <= rows[i].num <= NumFormaciones
    ensures CountValue(RowOf(Loaded(personas, rows), p), Presente) <= NumFormaciones
  {
    var row := RowOf(Loaded(personas, rows), p);
    forall k | k in row
      ensures 1 <= k < NumFormaciones + 1
    {
      LoadedCell(personas, rows, p, k);
      LastRowMeaning(personas, rows, p, k);
      assert Cell(Loaded(personas, rows), p, k).Some?;
      if LastRow(personas, rows, p, k).Some? {
        var i :| 0 <= i < |rows| && Lands(personas, rows[i], p, k);
      }
    }
    CountInRange(row, Presente, 1, NumFormaciones + 1);
  }

  class Grilla {
    /** `nombresFormacion`, in order; persona `i` is `personas[i]`. */
    const personas: seq<string>
    /** `asistenciasState`. */
    var asistencias: Grid
    /** The `asistencias_formacion` table, by (formacion_nombre, formacion_num). */
    var store: map<(string, int), Estado>

    constructor(personas: seq<string>, store: map<(string, int), Estado>)
      ensures this.personas == personas && this.store == store
      ensures asistencias == map[]
    {
      this.personas := personas;
      this.store := store;
      asistencias := map[];
    }

    /**
     * `loadAsistencias`: build the all-ausente grid, then on a successful
     * select overlay `rows` in order; on an error keep the default grid.
     * With no personas the load does not run.
     */
    method LoadAsistencias(rows: seq<FormacionRow>, ok: bool)
      modifies this`asistencias
      ensures |personas| == 0 ==> asistencias == old(asistencias)
      ensures |personas| > 0 ==> asistencias == if ok then Loaded(personas, rows) else DefaultGrid(|personas|)
    {
      if |personas| == 0 {
        return;
      }
      var grid: Grid := map[];
      var p := 0;
      while p < |personas|
        invariant 0 <= p <= |personas|
        invariant grid == DefaultGrid(p)
      {
        var fila: map<int, Estado> := map[];
        var num := 1;
        while num <= NumFormaciones
          invariant 1 <= num <= NumFormaciones + 1
          invariant fila == map k | k in Range(1, num) :: Ausente
        {
          fila := fila[num := Ausente];
          num := num + 1;
        }
        assert fila == DefaultRow();
        grid := grid[p := fila];
        p := p + 1;
      }
      if ok {
        var i := 0;
        while i < |rows|
          invariant 0 <= i <= |rows|
          invariant grid == Loaded(personas, rows[..i])
        {
          var row := rows[i];
          var persona := FindPersona(personas, row.nombre);
          if persona.Some? {
            grid := SetCell(grid, persona.value, row.num, row.estado);
          }
          assert rows[..i + 1][..i] == rows[..i];
          i := i + 1;
        }
        assert rows[..|rows|] == rows;
      }
      asistencias := grid;
    }

    /**
     * `handleEstadoChange(persona, num)`: the next value in the cycle is
     * upserted under (nombre, num); only when that succeeds does exactly that
     * one cell change locally. An unknown persona writes nothing.
     */
    method HandleEstadoChange(persona: nat, num: int, ok: bool)
      modifies this`asistencias, this`store
      ensures persona < |personas| && ok ==>
        var nuevo := Siguiente(Cell(old(asistencias), persona, num));
        store == old(store)[(personas[persona], num) := nuevo] &&
        asistencias == SetCell(old(asistencias), persona, num, nuevo)
      ensures !(persona < |personas| && ok) ==> asistencias == old(asistencias) && store == old(store)
    {
      var nuevo := Siguiente(Cell(asistencias, persona, num));
      if persona >= |personas| || !ok {
        return;
      }
      store := store[(personas[persona], num) := nuevo];
      asistencias := SetCell(asistencias, persona, num, nuevo);
    }

    /** The number of a persona's cells showing `presente`. */
    function Presentes(persona: nat): (n: nat)
      reads this
      ensures n <= |RowOf(asistencias, persona)|
    {
      CountValue(RowOf(asistencias, persona), Presente)
    }
  }
}
