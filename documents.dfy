/**
 * Document delivery for one group: a grid [student key][document id] of
 * checkboxes over the required document types, and the
 * `documentos_entregados` table keyed by (grupo, estudiante_id, documento_id).
 */
module Documents {
  import opened Wrappers
  import opened Seqs
  import opened Tables
  import opened Grupos
  import opened Rosters

  /** A row of `documentos_entregados`. */
  datatype DocRow = DocRow(grupo: string, estudianteId: int, documentoId: string, entregado: bool)

  /** The stored part of a row besides its key. */
  datatype Entrega = Entrega(estudianteNombre: string, entregado: bool)

  type Grid = map<int, map<string, bool>>

  function DelGrupo(grupo: string): DocRow -> bool {
    (r: DocRow) => r.grupo == grupo
  }

  /** `.eq('grupo', grupo)`. */
  function RowsOf(table: seq<DocRow>, grupo: string): seq<DocRow> {
    Filter(table, DelGrupo(grupo))
  }

  /** Every roster key with an empty row. */
  function EmptyRows(keys: seq<int>): (g: Grid)
    ensures forall k :: k in g <==> k in keys
    ensures forall k | k in g :: g[k] == map[]
  {
    map k | k in keys :: map[]
  }

  /** The rows applied in order; a row for a student outside the roster is dropped. */
  function Loaded(keys: seq<int>, rows: seq<DocRow>): Grid {
    if |rows| == 0 then EmptyRows(keys)
    else
      var g := Loaded(keys, rows[..|rows| - 1]);
      var r := rows[|rows| - 1];
      if r.estudianteId in g then SetCell(g, r.estudianteId, r.documentoId, r.entregado) else g
  }

  /** The flag of the last row for (id, doc). */
  function LastRow(rows: seq<DocRow>, id: int, doc: string): (r: Option<bool>)
    ensures r.None? <==> forall i | 0 <= i < |rows| :: !(rows[i].estudianteId == id && rows[i].documentoId == doc)
    ensures r.Some? ==> exists i | 0 <= i < |rows| ::
      rows[i].estudianteId == id && rows[i].documentoId == doc && rows[i].entregado == r.value &&
      forall j | i < j < |rows| :: !(rows[j].estudianteId == id && rows[j].documentoId == doc)
  {
    if |rows| == 0 then None
    else
      var r := rows[|rows| - 1];
      if r.estudianteId == id && r.documentoId == doc then Some(r.entregado)
      else LastRow(rows[..|rows| - 1], id, doc)
  }

  /**
   * After loading, the rows are exactly the roster keys, and a cell holds
   * the last row for it; students outside the roster never appear.
   */
  lemma {:induction false} LoadedMeaning(keys: seq<int>, rows: seq<DocRow>, id: int, doc: string)
    ensures id in Loaded(keys, rows) <==> id in keys
    ensures Cell(Loaded(keys, rows), id, doc) == if id in keys then LastRow(rows, id, doc) else None
  {
    if |rows| > 0 {
      LoadedMeaning(keys, rows[..|rows| - 1], id, doc);
    }
  }

  /** The two `forEach` passes of the load: an empty row per key, then each row of a listed student. */
  method LoadGrid(keys: seq<int>, rows: seq<DocRow>) returns (g: Grid)
    ensures g == Loaded(keys, rows)
  {
    g := map[];
    var i := 0;
    while i < |keys|
      invariant 0 <= i <= |keys|
      invariant g == EmptyRows(keys[..i])
    {
      assert keys[..i + 1] == keys[..i] + [keys[i]];
      g := g[keys[i] := map[]];
      i := i + 1;
    }
    assert keys[..|keys|] == keys;
    var j := 0;
    while j < |rows|
      invariant 0 <= j <= |rows|
      invariant g == Loaded(keys, rows[..j])
    {
      assert rows[..j + 1][..j] == rows[..j];
      if rows[j].estudianteId in g {
        g := SetCell(g, rows[j].estudianteId, rows[j].documentoId, rows[j].entregado);
      }
      j := j + 1;
    }
    assert rows[..|rows|] == rows;
  }

  class Documentos {
    const grupo: string
    const estudiantes: Roster
    /** `documentosState`. */
    var state: Grid
    /** `documentos_entregados`: (grupo, estudiante_id, documento_id) -> row. */
    var store: map<(string, int, string), Entrega>

    constructor(grupo: string, estudiantes: Roster, store: map<(string, int, string), Entrega>)
      ensures this.grupo == grupo && this.estudiantes == estudiantes && this.store == store
      ensures state == map[]
    {
      this.grupo := grupo;
      this.estudiantes := estudiantes;
      this.store := store;
      state := map[];
    }

    /**
     * `loadDocumentos` (run for a non-empty group): an empty row per roster
     * key, then this group's rows for those students; on an error the rows
     * stay empty.
     */
    method LoadDocumentos(table: seq<DocRow>, ok: bool)
      modifies this`state
      ensures grupo == "" ==> state == old(state)
      ensures grupo != "" ==> state == Loaded(Keys(estudiantes), if ok then RowsOf(table, grupo) else [])
    {
      if grupo == "" {
        return;
      }
      var rows: seq<DocRow> := [];
      if ok {
        rows := RowsOf(table, grupo);
      }
      state := LoadGrid(Keys(estudiantes), rows);
    }

    /**
     * `handleCheckboxChange(key, doc)`: upsert the student's name and the
     * negation of the current cell (missing = false) under (grupo, key, doc);
     * only on success does that one cell change locally. A key outside the
     * roster has no name to read, so nothing is written.
     */
    method HandleCheckboxChange(key: int, doc: string, ok: bool)
      modifies this`state, this`store
      ensures var nuevo := !Checked(old(state), key, doc);
        match Lookup(estudiantes, key)
        case Some(e) =>
          if ok then store == old(store)[(grupo, key, doc) := Entrega(e.nombre, nuevo)] && state == SetCell(old(state), key, doc, nuevo)
          else store == old(store) && state == old(state)
        case None => store == old(store) && state == old(state)
    {
      var nuevo := !Checked(state, key, doc);
      var estudiante := Lookup(estudiantes, key);
      if estudiante.None? || !ok {
        return;
      }
      store := store[(grupo, key, doc) := Entrega(estudiante.value.nombre, nuevo)];
      state := SetCell(state, key, doc, nuevo);
    }
  }
}
