/**
 * The payments page around the per-group payment grid: the groups offered
 * (with a "Catequistas" pseudo-group for admin and financiero), the
 * automatic choice of a group user's own group, and what a chosen group
 * hands to the grid: a roster, or, for "Catequistas", the catechist names
 * and no roster at all.
 */
module PagosModule {
  import opened Wrappers
  import opened Usuarios
  import opened Grupos
  import opened Rosters
  import opened CatequistasData
  import opened Permissions
  import opened ModuleSelector
  import Pagos

  const PseudoGrupo := "Catequistas"

  /** `gruposDisponibles`: the pseudo-group and every group for admin or financiero, otherwise the user's role. */
  function GruposDisponibles(user: Option<User>): (gs: seq<string>)
    ensures RolOf(user) in {"admin", "financiero"} ==> gs == [PseudoGrupo] + Grupos.Grupos
    ensures RolOf(user) !in {"admin", "financiero"} ==> gs == [RolOf(user)]
  {
    if RolOf(user) == "admin" || RolOf(user) == "financiero" then [PseudoGrupo] + Grupos.Grupos else [RolOf(user)]
  }

  class Pagina {
    const user: Option<User>
    var currentGroup: string
    /** `estudiantes`: `null` before loading and for the pseudo-group. */
    var estudiantes: Option<Roster>
    var catequistas: seq<string>

    constructor(user: Option<User>)
      ensures this.user == user && currentGroup == "" && estudiantes == None && catequistas == []
    {
      this.user := user;
      currentGroup := "";
      estudiantes := None;
      catequistas := [];
    }

    /** The effect that moves a logged-in user who is not admin, logistica or financiero to their own group. */
    method AutoSelect()
      modifies this`currentGroup
      ensures currentGroup ==
        if user.Some? && !AdminOrLogistica(user) && user.value.rol != "financiero" && old(currentGroup) == ""
        then user.value.rol else old(currentGroup)
    {
      if user.Some? && !AdminOrLogistica(user) && user.value.rol != "financiero" && currentGroup == "" {
        currentGroup := user.value.rol;
      }
    }

    /**
     * `loadEstudiantes`: the pseudo-group gets the catechist names and no
     * roster; any other group gets its roster (`{}` if unknown) and no names.
     */
    method LoadEstudiantes(grupo: string)
      modifies this`estudiantes, this`catequistas
      ensures grupo == PseudoGrupo ==> catequistas == NombresCatequistas() && estudiantes == None
      ensures grupo != PseudoGrupo ==> estudiantes == Some(RosterOf(grupo).GetOr([])) && catequistas == []
    {
      if grupo == PseudoGrupo {
        catequistas := NombresCatequistas();
        estudiantes := None;
      } else {
        estudiantes := Some(RosterOf(grupo).GetOr([]));
        catequistas := [];
      }
    }

    /** `handleGroupChange`, followed by the effect that loads a non-empty group. */
    method HandleGroupChange(grupo: string)
      modifies this`currentGroup, this`estudiantes, this`catequistas
      ensures currentGroup == grupo
      ensures grupo == "" ==> estudiantes == old(estudiantes) && catequistas == old(catequistas)
      ensures grupo == PseudoGrupo ==> catequistas == NombresCatequistas() && estudiantes == None
      ensures grupo != "" && grupo != PseudoGrupo ==> estudiantes == Some(RosterOf(grupo).GetOr([])) && catequistas == []
    {
      currentGroup := grupo;
      if grupo != "" {
        LoadEstudiantes(grupo);
      }
    }

    /**
     * The first mount of the payment grid: it is given only the current group
     * and the roster (the names are not read by it).
     */
    method AbrirPagos(store: map<(string, int), Pagos.Registro>) returns (grid: Pagos.Pagos)
      ensures fresh(grid)
      ensures grid.grupo == currentGroup && grid.estudiantes == estudiantes && grid.store == store
      ensures grid.state == map[] && grid.loading
    {
      grid := new Pagos.Pagos(currentGroup, estudiantes, store);
    }
  }

  /**
   * Choosing the pseudo-group as the first group hands the grid no roster,
   * so its load never runs: the grid stays loading with nothing in it,
   * whatever the table holds.
   */
  method PseudoGrupoNoCarga(user: Option<User>, store: map<(string, int), Pagos.Registro>, table: seq<Pagos.PagoRow>, ok: bool)
    returns (grid: Pagos.Pagos)
    ensures grid.loading && grid.state == map[]
  {
    var pagina := new Pagina(user);
    pagina.HandleGroupChange(PseudoGrupo);
    grid := pagina.AbrirPagos(store);
    grid.LoadPagos(table, ok);
  }

  /**
   * The financiero role is offered every group here, yet the permission
   * table refuses it the payments module and the home screen shows it no
   * payments tile (unless its usuario is logistica).
   */
  lemma FinancieroOfferedButRefused(usuario: string)
    requires usuario != "logistica"
    ensures var u := Some(User("financiero", usuario));
      GruposDisponibles(u) == [PseudoGrupo] + Grupos.Grupos &&
      !CanAccess("pagos", "financiero") && "pagos" !in Tiles(u)
  {
  }
}
