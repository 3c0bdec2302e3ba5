/**
 * The home screen: which module tiles a user is offered, the ADMIN badge and
 * the access message. The tiles depend on `rol` and on `usuario`, while the
 * permission table depends on the role alone; the lemmas compare the two.
 */
module ModuleSelector {
  import opened Wrappers
  import opened Usuarios
  import opened Permissions

  /** The tiles offered to everyone, and those offered to admin / logistica only. */
  const TilesComunes: set<string> := {"asistencia", "documentos", "estudiantes"}
  const TilesAdministrativos: set<string> := {"catequistas", "sabanas", "cartas", "pagos"}

  /** The tiles shown, in page order (each `onSelectModule` name). */
  function Tiles(user: Option<User>): (ts: seq<string>)
    ensures forall t :: t in ts <==> t in TilesComunes || (t in TilesAdministrativos && AdminOrLogistica(user))
    ensures "gastos" !in ts && "ingresos" !in ts
  {
    var admin := AdminOrLogistica(user);
    ["asistencia"] + (if admin then ["catequistas"] else []) + ["documentos", "estudiantes"] +
    (if admin then ["sabanas", "cartas", "pagos"] else [])
  }

  /** The ADMIN badge: shown for the admin role only (not for logistica). */
  function Badge(user: Option<User>): (shown: bool)
    ensures shown <==> user.Some? && user.value.rol == "admin"
  {
    RolOf(user) == "admin"
  }

  /** `${user?.rol}`: a missing user prints as "undefined". */
  function RolTexto(user: Option<User>): (t: string)
    ensures user.Some? ==> t == RolOf(user)
    ensures user.None? ==> t == "undefined"
  {
    if user.Some? then user.value.rol else "undefined"
  }

  const MensajeAdmin := "Tienes acceso a todos los m\U{00F3}dulos y grupos"
  const PrefijoLimitado := "Acceso limitado al grupo: "

  /** The message under the title. */
  function Mensaje(user: Option<User>): (m: string)
    ensures Badge(user) ==> m == MensajeAdmin
    ensures !Badge(user) ==>
      |PrefijoLimitado| <= |m| && m[..|PrefijoLimitado|] == PrefijoLimitado && m[|PrefijoLimitado|..] == RolTexto(user)
  {
    if RolOf(user) == "admin" then MensajeAdmin else PrefijoLimitado + RolTexto(user)
  }

  /** The permission-table name of the module a tile opens. */
  function Permiso(tile: string): (p: string)
    ensures tile in TilesComunes ==> p != tile && p in {"attendance", "documents", "students"}
    ensures tile !in TilesComunes ==> p == tile
  {
    match tile
    case "asistencia" => "attendance"
    case "documentos" => "documents"
    case "estudiantes" => "students"
    case _ => tile
  }

  /**
   * For the administrative roles and for plain group users the tiles agree
   * with the permission table: every tile offered opens a module the role
   * may use. The table also grants admins gastos and ingresos, which have
   * no tile.
   */
  lemma TilesWithinPermissions(user: Option<User>)
    requires user.Some? && user.value.rol != ""
    requires IsAdmin(user.value.rol) || user.value.usuario != "logistica"
    ensures forall t | t in Tiles(user) :: CanAccess(Permiso(t), user.value.rol)
    ensures IsAdmin(user.value.rol) ==> CanAccess("gastos", user.value.rol) && CanAccess("ingresos", user.value.rol)
  {
  }

  /**
   * A `usuario` named logistica whose role is a group role is offered the
   * administrative tiles, although the permission table refuses that role
   * those modules.
   */
  lemma LogisticaByNameOnly()
    ensures var u := Some(User("Ciencia", "logistica"));
      "catequistas" in Tiles(u) && !CanAccess(Permiso("catequistas"), "Ciencia")
  {
  }
}
