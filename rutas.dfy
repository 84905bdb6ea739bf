/** Which guard sits in front of which handler, and what that means for the
    permission lists the role table hands out. */
module Rutas {
  import opened Common
  import opened PermissionGuards
  import opened UsuarioModel
  import Reservas
  import ReservaModel

  /** The guard of a route, applied to a role's default permission list. */
  function PasaConRol(rol: string, requerido: string): (b: bool)
    ensures b <==> requerido in PermisosPorRol(rol)
  {
    CheckPermissions(Arreglo(PermisosPorRol(rol)), requerido) == Permitir
  }

  /** Reservation routes and the permission-management route, by default role. */
  lemma RoutesByRole(rol: string)
    ensures PasaConRol(rol, "reservar_libros") <==> rol == "admin" || rol == "usuario"
    ensures PasaConRol(rol, "ver_reservas_usuario") <==> rol == "admin" || rol == "usuario"
    ensures PasaConRol(rol, "ver_reservas_libro") <==> rol == "admin"
    ensures PasaConRol(rol, "administrar_permisos") <==> rol == "admin"
    ensures PasaConRol(rol, "crear_libros") <==> rol == "admin" || rol == "editor"
    ensures PasaConRol(rol, "modificar_libros") <==> rol == "admin" || rol == "editor"
    ensures PasaConRol(rol, "inhabilitar_libros") <==> rol == "admin" || rol == "editor"
  {
    if rol == "admin" {
    } else if rol == "editor" {
    } else if rol == "usuario" {
    } else {
      assert PermisosPorRol(rol) == [];
    }
  }

  /** The return route has no guard; the handler lets a non-owner through
      exactly when the caller holds the admin-only override. */
  lemma ReturnOverrideIsAdminOnly(rol: string, id: int, r: ReservaModel.Reserva)
    requires r.usuarioId != id
    ensures Reservas.PuedeDevolver(Caller(id, rol, PermisosPorRol(rol)), r) <==> rol == "admin"
  {
  }
}
