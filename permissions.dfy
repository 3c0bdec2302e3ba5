/**
 * Role-based module permissions: administrative roles (admin, logistica)
 * reach every listed module; any other non-empty role is a group role and
 * reaches only the modules open to groups.
 */
module Permissions {
  const AdminRoles: seq<string> := ["admin", "logistica"]

  /** `MODULE_ACCESS`: for each module, the roles allowed; "grupo" opens it to group roles. */
  const ModuleAccess: map<string, seq<string>> := map[
    "attendance" := AdminRoles + ["grupo"],
    "catequistas" := AdminRoles,
    "documents" := AdminRoles + ["grupo"],
    "sabanas" := AdminRoles,
    "cartas" := AdminRoles,
    "pagos" := AdminRoles,
    "ingresos" := AdminRoles,
    "gastos" := AdminRoles,
    "students" := AdminRoles + ["grupo"]
  ]

  /** The modules open to group roles, and those reserved to the administrative roles. */
  const GroupModules: set<string> := {"attendance", "documents", "students"}
  const AdminOnlyModules: set<string> :=
    {"catequistas", "sabanas", "cartas", "pagos", "ingresos", "gastos"}

  /** `isAdmin(role)`; a missing role is the empty string. */
  function IsAdmin(role: string): (r: bool)
    ensures r <==> role == "admin" || role == "logistica"
  {
    role in AdminRoles
  }

  /** `isGroupRole(role)`: every non-empty role that is not administrative. */
  function IsGroupRole(role: string): (r: bool)
    ensures r <==> role != "" && !IsAdmin(role)
    ensures role != "" ==> (r != IsAdmin(role))
  {
    if role == "" then false else role !in AdminRoles
  }

  /** `canAccess(module, role)`. */
  function CanAccess(mod: string, role: string): (r: bool)
    ensures r <==>
      (mod in GroupModules && role != "") ||
      (mod in AdminOnlyModules && IsAdmin(role))
    ensures IsAdmin(role) ==> (r <==> mod in ModuleAccess)
    ensures IsGroupRole(role) ==> (r <==> mod in GroupModules)
    ensures role == "" ==> !r
  {
    if mod !in ModuleAccess then false
    else
      var allowed := ModuleAccess[mod];
      if "grupo" in allowed && IsGroupRole(role) then true
      else role in allowed
  }

  datatype Access = Granted | Denied(message: string)

  /** `requireAccess(module, role)`: the error it throws becomes `Denied` with its message. */
  function RequireAccess(mod: string, role: string): (r: Access)
    ensures r.Granted? <==> CanAccess(mod, role)
    ensures r.Denied? ==> r.message == "Acceso denegado al m\U{00F3}dulo: " + mod
  {
    if !CanAccess(mod, role) then Denied("Acceso denegado al m\U{00F3}dulo: " + mod)
    else Granted
  }

  /**
   * The `financiero` role is a group role here: it reaches attendance, documents
   * and students, but neither `gastos` nor `ingresos`.
   */
  lemma FinancieroIsGroupRole()
    ensures IsGroupRole("financiero")
    ensures !CanAccess("gastos", "financiero") && !CanAccess("ingresos", "financiero")
    ensures CanAccess("attendance", "financiero")
  {
  }
}
