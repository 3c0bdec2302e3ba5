/**
 * The module-level catequista attendance grid (all groups together): a name
 * list seeded with the known catequistas, a grid [name][fecha] of three-state
 * cells, the text box for a new name, and the `asistencia_catequistas` table.
 */
module CatequistasModule {
  import opened Wrappers
  import opened Seqs
  import opened Estados
  import opened Tables
  import opened Text
  import opened AsistenciaCatequistas

  /** The name list the page starts with. */
  const Iniciales: seq<string> := [
      "Adriana \U{00C1}lvarez",
      "Amanda Cordero",
      "Amanda Villegas",
      "Andr\U{00E9} Barboza",
      "Andrey Corrales",
      "Ashley Rodriguez",
      "Brenda Jim\U{00E9}nez",
      "Dylan Chac\U{00F3}n",
      "Esteban Naranjo",
      "Fabiola Fallas",
      "Gabriel Valverde",
      "Isaac Monge",
      "Ismael Rivera",
      "Jefferson Aguilar",
      "Valeska Angulo",
      "Johanna Castro",
      "Jose Joel Vargas",
      "Jose Pablo Castro",
      "Josu\U{00E9} Escorcia",
      "Julissa Escalante",
      "Jeaustin Fernandez",
      "Justin Rojas",
      "Karemy Guzm\U{00E1}n",
      "Krystel Narv\U{00E1}ez",
      "Luis \U{00C1}ngel S\U{00E1}nchez",
      "Luis Felipe Mora",
      "Mar\U{00ED}a Paula Avil\U{00E9}s",
      "Mar\U{00ED}a Paula Hurtado",
      "Mariam Astua",
      "Mariana Segura",
      "Mathias Calderon",
      "Monserrat Solano",
      "Nashamy Araya",
      "Noelia Matarrita",
      "Oscar Sand\U{00ED}",
      "Samuel Brenes",
      "Sebasti\U{00E1}n Araya",
      "Sebastian Huertas",
      "Sofia Arce",
      "Steven Alp\U{00ED}zar",
      "Susseth Alan P\U{00E9}rez"
  ]

  /** The key of the row the page inserts when its lookup finds nothing. */
  function GeneralKey(nombre: string, fecha: string): (string, string, string) {
    ("General", nombre, fecha)
  }

  /** The rows for (nombre, fecha), whatever their group. */
  function Matching(store: Store, nombre: string, fecha: string): (m: set<(string, string, string)>)
    ensures forall k :: k in m <==> k in store && k.1 == nombre && k.2 == fecha
  {
    set k | k in store && k.1 == nombre && k.2 == fecha
  }

  /**
   * Whether the `.single()` lookup by (nombre, fecha) returns data: the select
   * did not fail and exactly one row matches. With no row or with several rows
   * `.single()` yields an error and no data.
   */
  predicate Found(store: Store, nombre: string, fecha: string, lookupOk: bool) {
    lookupOk && |Matching(store, nombre, fecha)| == 1
  }

  /**
   * The write. When the lookup found its row, every row for (nombre, fecha)
   * takes `nuevo`; otherwise a row under group `General` is inserted, and the
   * insert is refused (`None`) when the table's conflict key
   * (General, nombre, fecha) is already taken.
   */
  function Persist(store: Store, nombre: string, fecha: string, nuevo: Estado, lookupOk: bool): (r: Option<Store>)
    ensures r.None? <==> !Found(store, nombre, fecha, lookupOk) && GeneralKey(nombre, fecha) in store
    ensures r.Some? && Found(store, nombre, fecha, lookupOk) ==>
      r.value.Keys == store.Keys && forall k | k in Matching(store, nombre, fecha) :: r.value[k] == nuevo
    ensures r.Some? && !Found(store, nombre, fecha, lookupOk) ==>
      r.value.Keys == store.Keys + {GeneralKey(nombre, fecha)} && GeneralKey(nombre, fecha) !in store
      && r.value[GeneralKey(nombre, fecha)] == nuevo
      && forall k | k in store :: r.value[k] == store[k]
    ensures r.Some? ==> forall k | k in store && !(k.1 == nombre && k.2 == fecha) :: k in r.value && r.value[k] == store[k]
  {
    if Found(store, nombre, fecha, lookupOk) then
      Some(map k | k in store :: if k.1 == nombre && k.2 == fecha then nuevo else store[k])
    else if GeneralKey(nombre, fecha) in store then
      None
    else
      Some(store[GeneralKey(nombre, fecha) := nuevo])
  }

  /**
   * With two rows for the same name and date (in different groups) the
   * lookup finds nothing, so the page inserts under General: the two rows
   * keep their old state, and when one of them is the General row the
   * insert is refused and nothing is written.
   */
  lemma {:induction false} SeveralRowsNotUpdated(store: Store, nombre: string, fecha: string, nuevo: Estado,
                                                 a: (string, string, string), b: (string, string, string))
    requires a in store && b in store && a != b
    requires a.1 == nombre && a.2 == fecha && b.1 == nombre && b.2 == fecha
    ensures !Found(store, nombre, fecha, true)
    ensures GeneralKey(nombre, fecha) in store ==> Persist(store, nombre, fecha, nuevo, true).None?
    ensures GeneralKey(nombre, fecha) !in store ==>
      Persist(store, nombre, fecha, nuevo, true) == Some(store[GeneralKey(nombre, fecha) := nuevo])
  {
    var m := Matching(store, nombre, fecha);
    assert b in m - {a};
    assert |m - {a}| >= 1;
    assert |m| == |m - {a}| + 1;
  }

  class Modulo {
    /** `catequistasNombres`. */
    var nombres: seq<string>
    /** `catequistasState`. */
    var state: Grid
    /** `nuevoNombre`, the text box. */
    var nuevoNombre: string
    /** The `asistencia_catequistas` table. */
    var store: Store

    constructor(store: Store)
      ensures nombres == Iniciales && state == map[] && nuevoNombre == "" && this.store == store
    {
      nombres := Iniciales;
      state := map[];
      nuevoNombre := "";
      this.store := store;
    }

    /**
     * `loadCatequistas` over the selected rows (ordered by name): the names
     * become the current ones followed by the new names of the rows, without
     * repetitions, and the grid is rebuilt from the rows alone. On an error
     * no name is added and the grid is empty.
     */
    method LoadCatequistas(rows: seq<CatRow>, ok: bool)
      modifies this`nombres, this`state
      ensures nombres == Dedup(old(nombres) + if ok then RowNames(rows) else [])
      ensures state == if ok then StateOf(rows) else map[]
    {
      var extra: seq<string> := [];
      var nuevo: Grid := map[];
      if ok {
        extra := RowNames(rows);
        nuevo := FillState(rows);
      }
      nombres := MergeNames(nombres, extra);
      state := nuevo;
    }

    /**
     * `handleEstadoChange`: the next value in the cycle is written as Persist
     * says, `lookupOk` being whether the lookup select succeeded and `ok`
     * whether the write reached the table; only after a successful write does
     * cell [nombre][fecha], and no other, change locally.
     */
    method HandleEstadoChange(nombre: string, fecha: string, lookupOk: bool, ok: bool)
      modifies this`state, this`store
      ensures var nuevo := Siguiente(Cell(old(state), nombre, fecha));
        var w := Persist(old(store), nombre, fecha, nuevo, lookupOk);
        if ok && w.Some? then store == w.value && state == SetCell(old(state), nombre, fecha, nuevo)
        else store == old(store) && state == old(state)
    {
      var nuevo := Siguiente(Cell(state, nombre, fecha));
      var w := Persist(store, nombre, fecha, nuevo, lookupOk);
      if !ok || w.None? {
        return;
      }
      store := w.value;
      state := SetCell(state, nombre, fecha, nuevo);
    }

    /** Typing into the text box. */
    method SetNuevoNombre(texto: string)
      modifies this`nuevoNombre
      ensures nuevoNombre == texto
    {
      nuevoNombre := texto;
    }

    /**
     * `agregarCatequista`: a blank entry is ignored; a trimmed name already
     * listed only clears the box; a new one is appended with an empty row and
     * the box is cleared.
     */
    method AgregarCatequista()
      modifies this`nombres, this`state, this`nuevoNombre
      ensures var n := Trim(old(nuevoNombre));
        if n == "" then nombres == old(nombres) && state == old(state) && nuevoNombre == old(nuevoNombre)
        else if n in old(nombres) then nombres == old(nombres) && state == old(state) && nuevoNombre == ""
        else nombres == old(nombres) + [n] && state == old(state)[n := map[]] && nuevoNombre == ""
      ensures Distinct(old(nombres)) ==> Distinct(nombres)
    {
      var limpio := Trim(nuevoNombre);
      if limpio == "" {
        return;
      }
      if limpio in nombres {
        nuevoNombre := "";
        return;
      }
      nombres := nombres + [limpio];
      state := state[limpio := map[]];
      nuevoNombre := "";
    }
  }

  /** After a load the name list never repeats a name and keeps every name it had. */
  lemma LoadedNamesDistinct(nombres: seq<string>, rows: seq<CatRow>)
    ensures Distinct(Dedup(nombres + RowNames(rows)))
    ensures forall n | n in nombres :: n in Dedup(nombres + RowNames(rows))
  {
    DedupDistinct(nombres + RowNames(rows));
    forall n | n in nombres
      ensures n in Dedup(nombres + RowNames(rows))
    {
      DedupMembers(nombres + RowNames(rows), n);
    }
  }
}
