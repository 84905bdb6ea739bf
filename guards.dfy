/** The route guards `checkPermissions` and `checkAnyPermission` as allow/deny
    decisions over the caller's `permisos` value. */
module PermissionGuards {

  /** The `permisos` value found on the caller: falsy (missing, null, ...),
      truthy but not an array, or an array of permission names. */
  datatype PermisosValor = Ausente | NoArreglo | Arreglo(lista: seq<string>)

  datatype Motivo = SinPermisosConfigurados | FaltaPermiso | SinRol | RolNoPermitido

  datatype Decision = Permitir | Denegar(motivo: Motivo)

  /** `permisos.includes(permisoRequerido)` on a well-formed value. */
  function CheckPermissions(permisos: PermisosValor, requerido: string): (d: Decision)
    ensures d == Permitir <==> permisos.Arreglo? && requerido in permisos.lista
    ensures !permisos.Arreglo? ==> d == Denegar(SinPermisosConfigurados)
    ensures permisos.Arreglo? && requerido !in permisos.lista ==> d == Denegar(FaltaPermiso)
  {
    if !permisos.Arreglo? then Denegar(SinPermisosConfigurados)
    else if requerido !in permisos.lista then Denegar(FaltaPermiso)
    else Permitir
  }

  /** `requeridos.some(p => lista.includes(p))`, scanning left to right. */
  function AlgunoIncluido(requeridos: seq<string>, lista: seq<string>): (b: bool)
    ensures b <==> exists p :: p in requeridos && p in lista
  {
    if requeridos == [] then false
    else if requeridos[0] in lista then true
    else
      var rest := AlgunoIncluido(requeridos[1..], lista);
      assert forall p :: p in requeridos ==> p == requeridos[0] || p in requeridos[1..];
      rest
  }

  function CheckAnyPermission(permisos: PermisosValor, requeridos: seq<string>): (d: Decision)
    ensures d == Permitir <==>
            permisos.Arreglo? && exists p :: p in requeridos && p in permisos.lista
    ensures !permisos.Arreglo? ==> d == Denegar(SinPermisosConfigurados)
    ensures permisos.Arreglo? && !(exists p :: p in requeridos && p in permisos.lista)
            ==> d == Denegar(FaltaPermiso)
  {
    if !permisos.Arreglo? then Denegar(SinPermisosConfigurados)
    else if !AlgunoIncluido(requeridos, permisos.lista) then Denegar(FaltaPermiso)
    else Permitir
  }

  /** An empty requirement list lets nobody through. */
  lemma AnyOfNothingDenies(permisos: PermisosValor)
    ensures CheckAnyPermission(permisos, []) != Permitir
  {
  }

  /** A one-element requirement decides like the single-permission guard. */
  lemma AnyOfOneIsSingle(permisos: PermisosValor, p: string)
    ensures CheckAnyPermission(permisos, [p]) == CheckPermissions(permisos, p)
  {
  }

  predicate Incluida(a: seq<string>, b: seq<string>)
  {
    forall p :: p in a ==> p in b
  }

  /** Granting more permissions never turns an allow into a deny. */
  lemma GuardsMonotone(a: seq<string>, b: seq<string>, p: string, ps: seq<string>)
    requires Incluida(a, b)
    ensures CheckPermissions(Arreglo(a), p) == Permitir ==> CheckPermissions(Arreglo(b), p) == Permitir
    ensures CheckAnyPermission(Arreglo(a), ps) == Permitir ==> CheckAnyPermission(Arreglo(b), ps) == Permitir
  {
  }
}

/** The route guard `checkRole(...rolesPermitidos)`. */
module RoleGuard {
  import opened Common
  import opened PermissionGuards

  /** `rol` as found on the caller; a missing or empty role is falsy. */
  function CheckRole(rol: Option<string>, permitidos: seq<string>): (d: Decision)
    ensures d == Permitir <==> Dado(rol) && rol.value in permitidos
    ensures !Dado(rol) ==> d == Denegar(SinRol)
    ensures Dado(rol) && rol.value !in permitidos ==> d == Denegar(RolNoPermitido)
  {
    if !Dado(rol) then Denegar(SinRol)
    else if rol.value !in permitidos then Denegar(RolNoPermitido)
    else Permitir
  }

  /** The guard applied to a resolved caller looks at the role only. */
  function CheckRoleOf(c: Caller, permitidos: seq<string>): Decision
  {
    CheckRole(Some(c.rol), permitidos)
  }

  lemma RoleGuardIgnoresPermisos(c: Caller, otros: seq<string>, permitidos: seq<string>)
    ensures CheckRoleOf(c, permitidos) == CheckRoleOf(c.(permisos := otros), permitidos)
  {
  }

  lemma NoRolesDenies(rol: Option<string>)
    ensures CheckRole(rol, []) != Permitir
  {
  }
}
