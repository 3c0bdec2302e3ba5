/**
 * The attendance page around the group grid: which groups the user may pick,
 * the automatic choice of a group user's own group, loading that group's
 * roster, and selecting a student by the id the row carries.
 */
module AttendanceModule {
  import opened Wrappers
  import opened Usuarios
  import opened Grupos
  import opened Rosters

  /** `gruposDisponibles`: every group for admin or logistica, otherwise just the user's role. */
  function GruposDisponibles(user: Option<User>): (gs: seq<string>)
    ensures AdminOrLogistica(user) ==> gs == Grupos.Grupos
    ensures !AdminOrLogistica(user) ==> gs == [RolOf(user)]
  {
    if AdminOrLogistica(user) then Grupos.Grupos else [RolOf(user)]
  }

  /** `for (key in estudiantes) if (estudiantes[key].id === id) { ...; break; }`, as a value. */
  function BuscarPorId(r: Roster, id: int): (e: Option<Estudiante>)
    ensures e.None? <==> forall i | 0 <= i < |r| :: r[i].student.id != id
    ensures e.Some? ==> exists i | 0 <= i < |r| ::
      r[i].student == e.value && e.value.id == id && forall j | 0 <= j < i :: r[j].student.id != id
  {
    if |r| == 0 then None
    else if r[0].student.id == id then Some(r[0].student)
    else
      var rest := BuscarPorId(r[1..], id);
      if rest.Some? then
        var k :| 0 <= k < |r[1..]| && r[1..][k].student == rest.value && rest.value.id == id &&
          forall j | 0 <= j < k :: r[1..][j].student.id != id;
        assert r[k + 1].student == rest.value;
        rest
      else rest
  }

  /** The student shown in detail: `{id, ...estudiante, grupo: currentGroup}`. */
  datatype Seleccion = Seleccion(id: int, nombre: string, grupo: string)

  class Pagina {
    const user: Option<User>
    var currentGroup: string
    /** `estudiantes`: `null` until a group is loaded. */
    var estudiantes: Option<Roster>
    var selected: Option<Seleccion>

    constructor(user: Option<User>)
      ensures this.user == user && currentGroup == "" && estudiantes == None && selected == None
    {
      this.user := user;
      currentGroup := "";
      estudiantes := None;
      selected := None;
    }

    /** The effect that moves a logged-in group user, with no group chosen, to their own group. */
    method AutoSelect()
      modifies this`currentGroup
      ensures currentGroup ==
        if user.Some? && !AdminOrLogistica(user) && old(currentGroup) == "" then user.value.rol else old(currentGroup)
    {
      if user.Some? && !AdminOrLogistica(user) && currentGroup == "" {
        currentGroup := user.value.rol;
      }
    }

    /** `loadEstudiantes`: the group's roster, or `{}` for an unknown group. */
    method LoadEstudiantes(grupo: string)
      modifies this`estudiantes
      ensures estudiantes == Some(RosterOf(grupo).GetOr([]))
      ensures grupo !in Grupos.Grupos ==> estudiantes == Some([])
    {
      estudiantes := Some(RosterOf(grupo).GetOr([]));
    }

    /** `handleGroupChange`, followed by the effect that loads a non-empty group. */
    method HandleGroupChange(grupo: string)
      modifies this`currentGroup, this`estudiantes
      ensures currentGroup == grupo
      ensures estudiantes == if grupo != "" then Some(RosterOf(grupo).GetOr([])) else old(estudiantes)
    {
      currentGroup := grupo;
      if grupo != "" {
        LoadEstudiantes(grupo);
      }
    }

    /**
     * `handleStudentClick`: the first student, in key order, carrying that
     * id is selected with the current group; without one the selection stays.
     */
    method HandleStudentClick(id: int)
      modifies this`selected
      ensures var e := BuscarPorId(estudiantes.GetOr([]), id);
        selected == if e.Some? then Some(Seleccion(e.value.id, e.value.nombre, currentGroup)) else old(selected)
    {
      var r := estudiantes.GetOr([]);
      var encontrado: Option<Estudiante> := None;
      var k := 0;
      while k < |r|
        invariant 0 <= k <= |r|
        invariant encontrado.None? ==> BuscarPorId(r, id) == BuscarPorId(r[k..], id)
        invariant encontrado.Some? ==> encontrado == BuscarPorId(r, id)
      {
        if r[k].student.id == id {
          encontrado := Some(r[k].student);
          break;
        }
        assert r[k..][1..] == r[k + 1..];
        k := k + 1;
      }
      if encontrado.Some? {
        selected := Some(Seleccion(encontrado.value.id, encontrado.value.nombre, currentGroup));
      }
    }
  }
}
