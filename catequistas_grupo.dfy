/**
 * The catequista attendance grid shown inside one group's page: a name list
 * seeded with three placeholders, a grid [name][fecha] of three-state cells
 * over the rows of that group, and the `asistencia_catequistas` table keyed
 * by (grupo, catequista_nombre, fecha).
 */
module CatequistasGrupo {
  import opened Wrappers
  import opened Seqs
  import opened Estados
  import opened Tables
  import opened Text
  import opened AsistenciaCatequistas

  const Iniciales: seq<string> := ["Catequista 1", "Catequista 2", "Catequista 3"]

  function DelGrupo(grupo: string): CatRow -> bool {
    (r: CatRow) => r.grupo == grupo
  }

  /** `.eq('grupo', grupo)` over the table's rows. */
  function RowsOf(table: seq<CatRow>, grupo: string): seq<CatRow> {
    Filter(table, DelGrupo(grupo))
  }

  /** A cell loaded for a group comes from a row of that group with that name and date. */
  lemma LoadedOnlyGroup(table: seq<CatRow>, grupo: string, nombre: string, fecha: string)
    requires Cell(StateOf(RowsOf(table, grupo)), nombre, fecha).Some?
    ensures exists i | 0 <= i < |table| ::
      table[i] == CatRow(grupo, nombre, fecha, Cell(StateOf(RowsOf(table, grupo)), nombre, fecha).value)
  {
    var rows := RowsOf(table, grupo);
    StateOfCell(rows, nombre, fecha);
    var e := LastEstado(rows, nombre, fecha);
    var i :| 0 <= i < |rows| && rows[i].nombre == nombre && rows[i].fecha == fecha && rows[i].estado == e.value;
    assert DelGrupo(grupo)(rows[i]);
    assert rows[i] in table;
  }

  class Tabla {
    const grupo: string
    /** `catequistasNombres`. */
    var nombres: seq<string>
    /** `catequistasState`. */
    var state: Grid
    /** `nuevoNombre`, the text box. */
    var nuevoNombre: string
    /** The `asistencia_catequistas` table. */
    var store: Store

    constructor(grupo: string, store: Store)
      ensures this.grupo == grupo && this.store == store
      ensures nombres == Iniciales && state == map[] && nuevoNombre == ""
    {
      this.grupo := grupo;
      this.store := store;
      nombres := Iniciales;
      state := map[];
      nuevoNombre := "";
    }

    /**
     * `loadCatequistas` (run only for a non-empty group) over `table`, the
     * rows a select returns: the grid is rebuilt from this group's rows; the
     * names gain the new names of those rows only when the select succeeds,
     * and on an error the grid is empty.
     */
    method LoadCatequistas(table: seq<CatRow>, ok: bool)
      modifies this`nombres, this`state
      ensures grupo == "" ==> nombres == old(nombres) && state == old(state)
      ensures grupo != "" && ok ==>
        nombres == Dedup(old(nombres) + RowNames(RowsOf(table, grupo))) && state == StateOf(RowsOf(table, grupo))
      ensures grupo != "" && !ok ==> nombres == old(nombres) && state == map[]
    {
      if grupo == "" {
        return;
      }
      var nuevo: Grid := map[];
      if ok {
        var rows := RowsOf(table, grupo);
        nombres := MergeNames(nombres, RowNames(rows));
        nuevo := FillState(rows);
      }
      state := nuevo;
    }

    /**
     * `handleEstadoChange`: the next value in the cycle is upserted under
     * (grupo, nombre, fecha); an error is silent and changes nothing, a
     * success changes cell [nombre][fecha] and no other.
     */
    method HandleEstadoChange(nombre: string, fecha: string, ok: bool)
      modifies this`state, this`store
      ensures var nuevo := Siguiente(Cell(old(state), nombre, fecha));
        if ok then store == old(store)[(grupo, nombre, fecha) := nuevo] && state == SetCell(old(state), nombre, fecha, nuevo)
        else store == old(store) && state == old(state)
    {
      var nuevo := Siguiente(Cell(state, nombre, fecha));
      if !ok {
        return;
      }
      store := store[(grupo, nombre, fecha) := nuevo];
      state := SetCell(state, nombre, fecha, nuevo);
    }

    /** Typing into the text box. */
    method SetNuevoNombre(texto: string)
      modifies this`nuevoNombre
      ensures nuevoNombre == texto
    {
      nuevoNombre := texto;
    }

    /**
     * `agregarCatequista`: only a trimmed, non-blank name not yet listed is
     * appended (with an empty row, clearing the box); otherwise nothing
     * changes, the box included.
     */
    method AgregarCatequista()
      modifies this`nombres, this`state, this`nuevoNombre
      ensures var n := Trim(old(nuevoNombre));
        if n != "" && n !in old(nombres) then
          nombres == old(nombres) + [n] && state == old(state)[n := map[]] && nuevoNombre == ""
        else
          nombres == old(nombres) && state == old(state) && nuevoNombre == old(nuevoNombre)
      ensures Distinct(old(nombres)) ==> Distinct(nombres)
    {
      var limpio := Trim(nuevoNombre);
      if limpio != "" && limpio !in nombres {
        nombres := nombres + [limpio];
        state := state[limpio := map[]];
        nuevoNombre := "";
      }
    }

    /** What cell [nombre][fecha] shows: only presente and justificado show as such. */
    function Vista(nombre: string, fecha: string): (v: Vista)
      reads this
      ensures v == VistaPresente <==> Cell(state, nombre, fecha) == Some(Presente)
      ensures v == VistaJustificado <==> Cell(state, nombre, fecha) == Some(Justificado)
      ensures v == VistaAusente <==> Cell(state, nombre, fecha) !in {Some(Presente), Some(Justificado)}
    {
      Mostrar(Current(Cell(state, nombre, fecha)))
    }
  }
}
