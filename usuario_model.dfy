/** The user record and the role-to-permission table of the user model. */
module UsuarioModel {

  /** A row of the `usuarios` table. `contrasena` is the stored credential
      (the bcrypt hash in the running system). */
  datatype Usuario = Usuario(
    nombre: string, correo: string, contrasena: string,
    rol: string, permisos: seq<string>, activo: bool)

  const Roles: seq<string> := ["admin", "editor", "usuario"]

  /** The role a row gets when none is stored (the column default). */
  const RolPorDefecto: string := "usuario"

  predicate RolValido(rol: string)
  {
    rol in Roles
  }

  const AdminPermisos: seq<string> := [
    "crear_usuarios", "modificar_usuarios", "inhabilitar_usuarios", "ver_usuarios", "administrar_permisos",
    "crear_libros", "modificar_libros", "inhabilitar_libros", "ver_libros", "listar_libros",
    "reservar_libros", "ver_reservas_usuario", "ver_reservas_libro", "cancelar_reservas"]

  const EditorPermisos: seq<string> := [
    "crear_libros", "modificar_libros", "inhabilitar_libros", "ver_libros", "listar_libros"]

  const UsuarioPermisos: seq<string> := [
    "listar_libros", "ver_libros", "reservar_libros", "ver_reservas_usuario"]

  /** `asignarPermisosPorRol`: a fixed list per known role, `[]` for any other string. */
  function PermisosPorRol(rol: string): (ps: seq<string>)
    ensures rol == "admin" ==> ps == AdminPermisos
    ensures rol == "editor" ==> ps == EditorPermisos
    ensures rol == "usuario" ==> ps == UsuarioPermisos
    ensures !RolValido(rol) ==> ps == []
  {
    if rol == "admin" then AdminPermisos
    else if rol == "editor" then EditorPermisos
    else if rol == "usuario" then UsuarioPermisos
    else []
  }

  predicate SinDuplicados(s: seq<string>)
  {
    forall i, j :: 0 <= i < j < |s| ==> s[i] != s[j]
  }

  /** Every role's list is part of the admin list. */
  lemma RolesWithinAdmin(rol: string)
    ensures forall p :: p in PermisosPorRol(rol) ==> p in AdminPermisos
  {
  }

  /** The permissions that only the admin role grants. */
  const SoloAdmin: seq<string> := [
    "administrar_permisos", "cancelar_reservas", "ver_reservas_libro",
    "crear_usuarios", "modificar_usuarios", "inhabilitar_usuarios", "ver_usuarios"]

  lemma AdminOnlyPermissions(rol: string)
    ensures forall p :: p in SoloAdmin ==> (p in PermisosPorRol(rol) <==> rol == "admin")
  {
  }

  /** Editors cannot reserve; plain users cannot edit the catalog. */
  lemma RoleGaps()
    ensures "reservar_libros" !in PermisosPorRol("editor")
    ensures "ver_reservas_usuario" !in PermisosPorRol("editor")
    ensures "crear_libros" !in PermisosPorRol("usuario")
    ensures "modificar_libros" !in PermisosPorRol("usuario")
    ensures "inhabilitar_libros" !in PermisosPorRol("usuario")
  {
  }

  lemma ListSizesAndDistinctness()
    ensures |PermisosPorRol("admin")| == 14 && SinDuplicados(PermisosPorRol("admin"))
    ensures |PermisosPorRol("editor")| == 5 && SinDuplicados(PermisosPorRol("editor"))
    ensures |PermisosPorRol("usuario")| == 4 && SinDuplicados(PermisosPorRol("usuario"))
  {
  }
}
