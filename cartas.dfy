/**
 * Letter delivery for one group: one flag per student, keyed by the id the
 * student carries (`estudiantes[key].id`), and the `cartas_entregadas` table
 * keyed by (grupo, estudiante_id).
 */
module Cartas {
  import opened Seqs
  import opened Tables
  import opened Grupos
  import opened Rosters
  import opened Entregas

  class Cartas {
    const grupo: string
    const estudiantes: Roster
    /** `cartasState`. */
    var state: map<int, bool>
    /** `cartas_entregadas`: (grupo, estudiante_id) -> entregada. */
    var store: map<(string, int), bool>

    constructor(grupo: string, estudiantes: Roster, store: map<(string, int), bool>)
      ensures this.grupo == grupo && this.estudiantes == estudiantes && this.store == store
      ensures state == map[]
    {
      this.grupo := grupo;
      this.estudiantes := estudiantes;
      this.store := store;
      state := map[];
    }

    /**
     * `loadCartas` (run for a non-empty group): a false flag for every
     * student id, overwritten by this group's rows for ids already present;
     * on an error the flags stay false.
     */
    method LoadCartas(table: seq<FlagRow>, ok: bool)
      modifies this`state
      ensures grupo == "" ==> state == old(state)
      ensures grupo != "" ==> state == Flags(Ids(estudiantes), if ok then RowsOf(table, grupo) else [])
    {
      if grupo == "" {
        return;
      }
      var rows: seq<FlagRow> := [];
      if ok {
        rows := RowsOf(table, grupo);
      }
      state := LoadFlags(Ids(estudiantes), rows);
    }

    /**
     * `handleCheckboxChange(id)`: upsert the negation of the current flag
     * (missing = false) under (grupo, id); only on success does that one
     * flag change locally.
     */
    method HandleCheckboxChange(id: int, ok: bool)
      modifies this`state, this`store
      ensures var nuevo := !(id in old(state) && old(state)[id]);
        if ok then store == old(store)[(grupo, id) := nuevo] && state == old(state)[id := nuevo]
        else store == old(store) && state == old(state)
    {
      var nuevo := !(id in state && state[id]);
      if !ok {
        return;
      }
      store := store[(grupo, id) := nuevo];
      state := state[id := nuevo];
    }

    /** `totalEntregadas`. */
    function TotalEntregadas(): (n: nat)
      reads this
      ensures n <= |state|
    {
      Entregadas(state)
    }
  }

  /** Right after a load, at most one letter per roster entry is counted as delivered. */
  lemma LoadedTotalAtMostRoster(estudiantes: Roster, rows: seq<FlagRow>)
    ensures Entregadas(Flags(Ids(estudiantes), rows)) <= |estudiantes|
  {
    EntregadasAtMostKeys(Ids(estudiantes), rows);
  }

  /** Toggling a student already listed keeps the set of listed students. */
  lemma ToggleKeepsKeys(state: map<int, bool>, id: int, v: bool)
    requires id in state
    ensures state[id := v].Keys == state.Keys
    ensures Entregadas(state[id := v]) <= |state|
  {
  }
}
