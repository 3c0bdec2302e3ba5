/**
 * The Thursday attendance grid of one group, kept in the realtime database
 * under `grupos/<grupo>/estudiantes/<id>/asistencias/<fecha>`. The part of
 * the database the grid reads and writes (this group's students) is `store`:
 * student key -> date -> mark. The session dates are a parameter.
 */
module Attendance {
  import opened Wrappers
  import opened Seqs
  import opened Tables
  import opened Grupos
  import opened Rosters

  type Grid = map<int, map<string, bool>>

  /** `newState[key] = snapshot.val() || {}` for every roster key. */
  function Snapshot(store: Grid, keys: seq<int>): (s: Grid)
    ensures forall k :: k in s <==> k in keys
    ensures forall k | k in s :: s[k] == RowOf(store, k)
  {
    map k | k in keys :: RowOf(store, k)
  }

  function MarkedOn(state: Grid, key: int): string -> bool {
    (fecha: string) => Checked(state, key, fecha)
  }

  /** The marked dates of a student, among the session dates. */
  function Asistidas(state: Grid, key: int, fechas: seq<string>): seq<string> {
    Filter(fechas, MarkedOn(state, key))
  }

  /** Every session date marked gives a full count. */
  lemma {:induction false} FullAttendance(state: Grid, key: int, fechas: seq<string>)
    requires forall i | 0 <= i < |fechas| :: Checked(state, key, fechas[i])
    ensures |Asistidas(state, key, fechas)| == |fechas|
  {
    if |fechas| > 0 {
      FullAttendance(state, key, fechas[1..]);
    }
  }

  /** No session date marked gives zero. */
  lemma {:induction false} NoAttendance(state: Grid, key: int, fechas: seq<string>)
    requires forall i | 0 <= i < |fechas| :: !Checked(state, key, fechas[i])
    ensures |Asistidas(state, key, fechas)| == 0
  {
    if |fechas| > 0 {
      NoAttendance(state, key, fechas[1..]);
    }
  }

  class Asistencia {
    const grupo: string
    const estudiantes: Roster
    /** `asistenciasState`. */
    var state: Grid
    /** This group's students in the database. */
    var store: Grid

    constructor(grupo: string, estudiantes: Roster, store: Grid)
      ensures this.grupo == grupo && this.estudiantes == estudiantes && this.store == store
      ensures state == map[]
    {
      this.grupo := grupo;
      this.estudiantes := estudiantes;
      this.store := store;
      state := map[];
    }

    /**
     * `loadAsistencias` (run for a non-empty group): one read per roster key;
     * if any read fails the grid is left as it was.
     */
    method LoadAsistencias(ok: bool)
      modifies this`state
      ensures grupo != "" && ok ==> state == Snapshot(store, Keys(estudiantes))
      ensures !(grupo != "" && ok) ==> state == old(state)
    {
      if grupo == "" {
        return;
      }
      var keys := Keys(estudiantes);
      var nuevo: Grid := map[];
      var i := 0;
      while i < |keys|
        invariant 0 <= i <= |keys|
        invariant nuevo == Snapshot(store, keys[..i])
      {
        assert keys[..i + 1] == keys[..i] + [keys[i]];
        nuevo := nuevo[keys[i] := RowOf(store, keys[i])];
        i := i + 1;
      }
      assert keys[..|keys|] == keys;
      if ok {
        state := nuevo;
      }
    }

    /**
     * `handleCheckboxChange`: write the negation of the current mark (a
     * missing mark is false); only after the write succeeds does exactly
     * that cell change locally.
     */
    method HandleCheckboxChange(key: int, fecha: string, ok: bool)
      modifies this`state, this`store
      ensures var nuevo := !Checked(old(state), key, fecha);
        if ok then store == SetCell(old(store), key, fecha, nuevo) && state == SetCell(old(state), key, fecha, nuevo)
        else store == old(store) && state == old(state)
    {
      var nuevo := !Checked(state, key, fecha);
      if !ok {
        return;
      }
      store := SetCell(store, key, fecha, nuevo);
      state := SetCell(state, key, fecha, nuevo);
    }

    /** The Total column: marked dates among the session dates, out of all of them. */
    function Total(key: int, fechas: seq<string>): (n: nat)
      reads this
      ensures n <= |fechas|
    {
      |Asistidas(state, key, fechas)|
    }
  }

  /** A successful toggle marks the cell as the negation of what it showed and touches nothing else. */
  lemma ToggleFlips(state: Grid, key: int, fecha: string)
    ensures var after := SetCell(state, key, fecha, !Checked(state, key, fecha));
      Checked(after, key, fecha) != Checked(state, key, fecha) &&
      forall k, f | k != key || f != fecha :: Checked(after, k, f) == Checked(state, k, f)
  {
  }
}
