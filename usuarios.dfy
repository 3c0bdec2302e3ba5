/** The logged-in user record every page receives. */
module Usuarios {
  import opened Wrappers

  /** `user.rol` and `user.usuario`; a missing field is the empty string. */
  datatype User = User(rol: string, usuario: string)

  /** `user?.rol` (`undefined`, read as "", when nobody is logged in). */
  function RolOf(user: Option<User>): (r: string)
    ensures user.Some? ==> r == user.value.rol
    ensures user.None? ==> r == ""
  {
    if user.Some? then user.value.rol else ""
  }

  /** `user?.usuario || ''`. */
  function UsuarioOf(user: Option<User>): string {
    if user.Some? then user.value.usuario else ""
  }

  /** `user?.rol === 'admin' || user?.usuario === 'logistica'`. */
  predicate AdminOrLogistica(user: Option<User>)
    ensures AdminOrLogistica(user) <==> RolOf(user) == "admin" || (user.Some? && UsuarioOf(user) == "logistica")
    ensures AdminOrLogistica(user) ==> user.Some?
  {
    user.Some? && (user.value.rol == "admin" || user.value.usuario == "logistica")
  }
}
