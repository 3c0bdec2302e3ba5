/**
 * The `asistencia_catequistas` table, shared by the module-level catequista
 * grid and the per-group catequista grid, and the load step both of them run
 * over its rows: every row's name joins the name list (a `Set`, so in order
 * of first appearance) and its estado lands in cell [name][fecha].
 */
module AsistenciaCatequistas {
  import opened Wrappers
  import opened Seqs
  import opened Estados
  import opened Tables
  import opened Text

  /** A row of `asistencia_catequistas`. */
  datatype CatRow = CatRow(grupo: string, nombre: string, fecha: string, estado: Estado)

  /** The table, keyed by (grupo, catequista_nombre, fecha). */
  type Store = map<(string, string, string), Estado>

  type Grid = map<string, map<string, Estado>>

  function RowNames(rows: seq<CatRow>): (ns: seq<string>)
    ensures |ns| == |rows| && forall i | 0 <= i < |rows| :: ns[i] == rows[i].nombre
  {
    if |rows| == 0 then [] else RowNames(rows[..|rows| - 1]) + [rows[|rows| - 1].nombre]
  }

  /** `newState[nombre][fecha] = estado` for every row, in order, from `{}`. */
  function StateOf(rows: seq<CatRow>): Grid {
    if |rows| == 0 then map[]
    else
      var last := rows[|rows| - 1];
      SetCell(StateOf(rows[..|rows| - 1]), last.nombre, last.fecha, last.estado)
  }

  /** The estado of the last row for (nombre, fecha). */
  function LastEstado(rows: seq<CatRow>, nombre: string, fecha: string): (r: Option<Estado>)
    ensures r.None? <==> forall i | 0 <= i < |rows| :: !(rows[i].nombre == nombre && rows[i].fecha == fecha)
    ensures r.Some? ==> exists i | 0 <= i < |rows| ::
      rows[i].nombre == nombre && rows[i].fecha == fecha && rows[i].estado == r.value &&
      forall j | i < j < |rows| :: !(rows[j].nombre == nombre && rows[j].fecha == fecha)
  {
    if |rows| == 0 then None
    else
      var last := rows[|rows| - 1];
      if last.nombre == nombre && last.fecha == fecha then Some(last.estado)
      else LastEstado(rows[..|rows| - 1], nombre, fecha)
  }

  /** A loaded cell holds the last row for it, and a loaded grid has a row exactly per name seen. */
  lemma {:induction false} StateOfCell(rows: seq<CatRow>, nombre: string, fecha: string)
    ensures Cell(StateOf(rows), nombre, fecha) == LastEstado(rows, nombre, fecha)
    ensures nombre in StateOf(rows) <==> nombre in RowNames(rows)
  {
    if |rows| > 0 {
      StateOfCell(rows[..|rows| - 1], nombre, fecha);
    }
  }

  /** One more element offered to the distinct list `d` of the elements before it. */
  lemma DedupStep(all: seq<string>, i: nat, d: seq<string>)
    requires i < |all| && d == Dedup(all[..i])
    ensures Dedup(all[..i + 1]) == if all[i] in d then d else d + [all[i]]
  {
    DedupSnoc(all[..i], all[i]);
    DedupMembers(all[..i], all[i]);
    assert all[..i + 1] == all[..i] + [all[i]];
  }

  /** `Array.from(new Set([...names, ...extra]))`, computed one element at a time. */
  method MergeNames(names: seq<string>, extra: seq<string>) returns (r: seq<string>)
    ensures r == Dedup(names + extra)
    ensures Distinct(r)
    ensures forall n :: n in r <==> n in names || n in extra
  {
    var all := names + extra;
    r := [];
    var i := 0;
    while i < |all|
      invariant 0 <= i <= |all|
      invariant r == Dedup(all[..i])
    {
      DedupStep(all, i, r);
      if all[i] !in r {
        r := r + [all[i]];
      }
      i := i + 1;
    }
    assert all[..|all|] == all;
    DedupDistinct(all);
    forall n
      ensures n in r <==> n in names || n in extra
    {
      DedupMembers(all, n);
    }
  }

  /** The `forEach` over the selected rows that fills the grid. */
  method FillState(rows: seq<CatRow>) returns (state: Grid)
    ensures state == StateOf(rows)
  {
    state := map[];
    var i := 0;
    while i < |rows|
      invariant 0 <= i <= |rows|
      invariant state == StateOf(rows[..i])
    {
      assert rows[..i + 1][..i] == rows[..i];
      state := SetCell(state, rows[i].nombre, rows[i].fecha, rows[i].estado);
      i := i + 1;
    }
    assert rows[..|rows|] == rows;
  }
}
