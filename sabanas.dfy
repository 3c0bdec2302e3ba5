/**
 * Sheet delivery for one group: one flag per student, keyed by the roster's
 * object key (not the id the student carries), and the `sabanas_entregadas`
 * table keyed by (grupo, estudiante_id), which also records the name.
 */
module Sabanas {
  import opened Wrappers
  import opened Seqs
  import opened Tables
  import opened Grupos
  import opened Rosters
  import opened Entregas

  /** A stored `sabanas_entregadas` row. */
  datatype Sabana = Sabana(estudianteNombre: string, entregado: bool)

  class Sabanas {
    const grupo: string
    const estudiantes: Roster
    /** `sabanasState`. */
    var state: map<int, bool>
    /** `sabanas_entregadas`: (grupo, estudiante_id) -> row. */
    var store: map<(string, int), Sabana>

    constructor(grupo: string, estudiantes: Roster, store: map<(string, int), Sabana>)
      ensures this.grupo == grupo && this.estudiantes == estudiantes && this.store == store
      ensures state == map[]
    {
      this.grupo := grupo;
      this.estudiantes := estudiantes;
      this.store := store;
      state := map[];
    }

    /**
     * `loadSabanas` (run for a non-empty group): a false flag for every
     * roster key, overwritten by this group's rows for keys already present;
     * on an error the flags stay false.
     */
    method LoadSabanas(table: seq<FlagRow>, ok: bool)
      modifies this`state
      ensures grupo == "" ==> state == old(state)
      ensures grupo != "" ==> state == Flags(Keys(estudiantes), if ok then RowsOf(table, grupo) else [])
    {
      if grupo == "" {
        return;
      }
      var rows: seq<FlagRow> := [];
      if ok {
        rows := RowsOf(table, grupo);
      }
      state := LoadFlags(Keys(estudiantes), rows);
    }

    /**
     * `handleCheckboxChange(key)`: upsert the student's name and the
     * negation of the current flag under (grupo, key); only on success does
     * that one flag change locally. A key outside the roster has no name to
     * read, so nothing is written.
     */
    method HandleCheckboxChange(key: int, ok: bool)
      modifies this`state, this`store
      ensures var nuevo := !(key in old(state) && old(state)[key]);
        match Lookup(estudiantes, key)
        case Some(e) =>
          if ok then store == old(store)[(grupo, key) := Sabana(e.nombre, nuevo)] && state == old(state)[key := nuevo]
          else store == old(store) && state == old(state)
        case None => store == old(store) && state == old(state)
    {
      var nuevo := !(key in state && state[key]);
      var estudiante := Lookup(estudiantes, key);
      if estudiante.None? || !ok {
        return;
      }
      store := store[(grupo, key) := Sabana(estudiante.value.nombre, nuevo)];
      state := state[key := nuevo];
    }

    /** `totalEntregadas`. */
    function TotalEntregadas(): (n: nat)
      reads this
      ensures n <= |state|
    {
      Entregadas(state)
    }
  }

  /** Right after a load, at most one sheet per roster entry is counted as delivered. */
  lemma LoadedTotalAtMostRoster(estudiantes: Roster, rows: seq<FlagRow>)
    ensures Entregadas(Flags(Keys(estudiantes), rows)) <= |estudiantes|
  {
    EntregadasAtMostKeys(Keys(estudiantes), rows);
  }

  /**
   * Letters and sheets key their flags differently: when a roster's keys
   * match its ids the two loads list the same students; when a student's id
   * differs from its key, a delivered row for that key shows as a sheet but
   * not as a letter.
   */
  lemma KeyingDiffers(rows: seq<FlagRow>)
    ensures forall r: Roster | KeysMatchIds(r) :: Flags(Ids(r), rows) == Flags(Keys(r), rows)
    ensures var r := [RosterEntry(1, Estudiante(7, "Ana"))];
      var fila := [FlagRow("Ciencia", 1, true)];
      1 in Flags(Keys(r), fila) && Flags(Keys(r), fila)[1] && 1 !in Flags(Ids(r), fila)
  {
    forall r: Roster | KeysMatchIds(r)
      ensures Flags(Ids(r), rows) == Flags(Keys(r), rows)
    {
      assert Ids(r) == Keys(r);
    }
    var r := [RosterEntry(1, Estudiante(7, "Ana"))];
    var fila := [FlagRow("Ciencia", 1, true)];
    assert Keys(r) == [1] && Ids(r) == [7];
    FlagsMeaning(Keys(r), fila, 1);
    FlagsMeaning(Ids(r), fila, 1);
    assert fila[..0] == [];
  }
}
