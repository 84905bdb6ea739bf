/** The user controller: registration, login, profile lookup and update,
    permission changes and deactivation over the user table. */
module Usuarios {
  import opened Common
  import opened PermissionGuards
  import opened UsuarioModel
  import opened Store

  /** A user as the handlers return it: every column but the stored credential. */
  datatype Perfil = Perfil(id: nat, nombre: string, correo: string, rol: string, permisos: seq<string>, activo: bool)

  function PerfilDe(us: seq<Usuario>, i: nat): (p: Perfil)
    requires i < |us|
    ensures p.id == i + 1 && p.correo == us[i].correo && p.rol == us[i].rol
    ensures p.permisos == us[i].permisos && p.activo == us[i].activo && p.nombre == us[i].nombre
  {
    var u := us[i];
    Perfil(i + 1, u.nombre, u.correo, u.rol, u.permisos, u.activo)
  }

  /** `Usuario.findOne({ where: { correo } })`: the first row with that address, active or not. */
  function IndiceDeCorreo(us: seq<Usuario>, correo: string): (r: Option<nat>)
    ensures r.None? <==> forall k :: 0 <= k < |us| ==> us[k].correo != correo
    ensures r.Some? ==> r.value < |us| && us[r.value].correo == correo
    ensures r.Some? ==> forall k :: 0 <= k < r.value ==> us[k].correo != correo
  {
    if us == [] then None
    else if us[0].correo == correo then Some(0)
    else match IndiceDeCorreo(us[1..], correo)
      case None => None
      case Some(i) => Some(i + 1)
  }

  /** No two rows share an address (the `unique` column constraint, kept by the handlers' checks). */
  predicate CorreosUnicos(us: seq<Usuario>)
  {
    forall j, k :: 0 <= j < k < |us| ==> us[j].correo != us[k].correo
  }

  /** `rol && ['admin','editor','usuario'].includes(rol) ? rol : 'usuario'`. */
  function RolFinal(rol: Option<string>): (r: string)
    ensures RolValido(r)
    ensures rol.Some? && RolValido(rol.value) ==> r == rol.value
    ensures !(rol.Some? && RolValido(rol.value)) ==> r == RolPorDefecto
  {
    if rol.Some? && RolValido(rol.value) then rol.value else RolPorDefecto
  }

  datatype EntradaRegistro = EntradaRegistro(
    nombre: Option<string>, correo: Option<string>, contrasena: Option<string>, rol: Option<string>)

  /** register. */
  function Registrar(us: seq<Usuario>, e: EntradaRegistro): (s: Step<seq<Usuario>, Perfil>)
    ensures s.result.Err? ==> s.state == us
    ensures !Dado(e.nombre) || !Dado(e.correo) || !Dado(e.contrasena) ==> s.result == Err(DatosIncompletos)
    ensures Dado(e.nombre) && Dado(e.correo) && Dado(e.contrasena) && IndiceDeCorreo(us, e.correo.value).Some?
            ==> s.result == Err(CorreoDuplicado)
    ensures s.result.Ok? <==>
            Dado(e.nombre) && Dado(e.correo) && Dado(e.contrasena) && IndiceDeCorreo(us, e.correo.value).None?
    ensures s.result.Ok? ==>
            && |s.state| == |us| + 1
            && s.state == us + [s.state[|us|]]
            && s.state[|us|] == Usuario(e.nombre.value, e.correo.value, e.contrasena.value,
                            RolFinal(e.rol), PermisosPorRol(RolFinal(e.rol)), true)
            && s.result.value == PerfilDe(s.state, |us|)
  {
    if !Dado(e.nombre) || !Dado(e.correo) || !Dado(e.contrasena) then Step(us, Err(DatosIncompletos))
    else if IndiceDeCorreo(us, e.correo.value).Some? then Step(us, Err(CorreoDuplicado))
    else
      var rol := RolFinal(e.rol);
      var u := Usuario(e.nombre.value, e.correo.value, e.contrasena.value, rol, PermisosPorRol(rol), true);
      var us' := us + [u];
      Step(us', Ok(PerfilDe(us', |us|)))
  }

  datatype EntradaLogin = EntradaLogin(correo: Option<string>, contrasena: Option<string>)

  /** The claims the session token is signed with. */
  datatype Sesion = Sesion(id: nat, correo: string, rol: string, permisos: seq<string>)

  /** login; `coincide(ingresada, almacenada)` is the password comparison. */
  function Login(us: seq<Usuario>, e: EntradaLogin, coincide: (string, string) -> bool): (r: Result<Sesion>)
    ensures !Dado(e.correo) || !Dado(e.contrasena) ==> r == Err(DatosIncompletos)
    ensures Dado(e.correo) && Dado(e.contrasena) && IndiceDeCorreo(us, e.correo.value).None?
            ==> r == Err(CredencialesInvalidas)
    ensures Dado(e.correo) && Dado(e.contrasena) && IndiceDeCorreo(us, e.correo.value).Some?
            && !us[IndiceDeCorreo(us, e.correo.value).value].activo
            ==> r == Err(UsuarioInactivo)
    ensures r.Ok? <==>
            Dado(e.correo) && Dado(e.contrasena) && IndiceDeCorreo(us, e.correo.value).Some?
            && us[IndiceDeCorreo(us, e.correo.value).value].activo
            && coincide(e.contrasena.value, us[IndiceDeCorreo(us, e.correo.value).value].contrasena)
    ensures r.Ok? ==>
            var i := IndiceDeCorreo(us, e.correo.value).value;
            r.value == Sesion(i + 1, us[i].correo, us[i].rol, us[i].permisos)
  {
    if !Dado(e.correo) || !Dado(e.contrasena) then Err(DatosIncompletos)
    else match IndiceDeCorreo(us, e.correo.value)
      case None => Err(CredencialesInvalidas)
      case Some(i) =>
        var u := us[i];
        if !u.activo then Err(UsuarioInactivo)
        else if !coincide(e.contrasena.value, u.contrasena) then Err(CredencialesInvalidas)
        else Ok(Sesion(i + 1, u.correo, u.rol, u.permisos))
  }

  /** The failures of login answer 400, 401, 403 and 401, and an inactive
      account is refused whatever password is given. */
  lemma LoginStatusAndInactive(us: seq<Usuario>, e: EntradaLogin, coincide: (string, string) -> bool,
                               otra: (string, string) -> bool)
    ensures !Dado(e.correo) || !Dado(e.contrasena) ==> Status(Login(us, e, coincide).error) == 400
    ensures Dado(e.correo) && Dado(e.contrasena) && IndiceDeCorreo(us, e.correo.value).None?
            ==> Status(Login(us, e, coincide).error) == 401
    ensures Dado(e.correo) && Dado(e.contrasena) && IndiceDeCorreo(us, e.correo.value).Some?
            && !us[IndiceDeCorreo(us, e.correo.value).value].activo
            ==> Status(Login(us, e, coincide).error) == 403
    ensures Dado(e.correo) && Dado(e.contrasena) && IndiceDeCorreo(us, e.correo.value).Some?
            && us[IndiceDeCorreo(us, e.correo.value).value].activo
            && !coincide(e.contrasena.value, us[IndiceDeCorreo(us, e.correo.value).value].contrasena)
            ==> Login(us, e, coincide) == Err(CredencialesInvalidas)
                && Status(Login(us, e, coincide).error) == 401
    ensures Login(us, e, coincide) == Err(UsuarioInactivo) ==> Login(us, e, otra) == Err(UsuarioInactivo)
  {
  }

  /** A registration that names no valid role stores a plain `usuario` row with
      that role's default list, active. */
  lemma RegisterWithoutRoleIsUsuario(us: seq<Usuario>, e: EntradaRegistro)
    requires e.rol.None? || !RolValido(e.rol.value)
    ensures var s := Registrar(us, e);
            s.result.Ok? ==>
              && s.state[|us|].rol == "usuario"
              && s.state[|us|].permisos == ["listar_libros", "ver_libros", "reservar_libros", "ver_reservas_usuario"]
              && s.state[|us|].activo
              && s.result.value.rol == "usuario"
  {
  }

  /** With unique addresses, a successful login is the session of the one row holding that address. */
  lemma LoginFindsTheOwner(us: seq<Usuario>, e: EntradaLogin, coincide: (string, string) -> bool, k: nat)
    requires CorreosUnicos(us) && k < |us| && Dado(e.correo) && us[k].correo == e.correo.value
    requires Login(us, e, coincide).Ok?
    ensures Login(us, e, coincide).value.id == k + 1
  {
  }

  /** Looking up an active user's profile by id. */
  function GetUsuarioById(us: seq<Usuario>, id: int): (r: Result<Perfil>)
    ensures r.Ok? <==> 1 <= id <= |us| && us[id - 1].activo
    ensures r.Ok? ==> r.value == PerfilDe(us, id - 1)
    ensures r.Err? ==> r.error == NoEncontrado
  {
    if 1 <= id <= |us| && us[id - 1].activo then Ok(PerfilDe(us, id - 1)) else Err(NoEncontrado)
  }

  /** `findOne({ where: { id, activo: true } })`. */
  predicate ActivoEn(us: seq<Usuario>, id: int)
  {
    1 <= id <= |us| && us[id - 1].activo
  }

  /** The ownership-or-permission rule of update and deactivation. */
  predicate PropioOPermiso(actor: Caller, id: int, permiso: string)
  {
    actor.id == id || permiso in actor.permisos
  }

  /** Another row (id other than `id`) already holds `correo`. */
  predicate CorreoDeOtro(us: seq<Usuario>, correo: string, id: int)
  {
    exists k :: 0 <= k < |us| && k + 1 != id && us[k].correo == correo
  }

  datatype EntradaActualizar = EntradaActualizar(nombre: Option<string>, correo: Option<string>, contrasena: Option<string>)

  /** updateUsuario: the gate comes before the lookup; only the truthy fields change. */
  function Actualizar(us: seq<Usuario>, actor: Caller, id: int, e: EntradaActualizar): (s: Step<seq<Usuario>, Perfil>)
    ensures s.result.Err? ==> s.state == us
    ensures s.result == Err(AccesoDenegado) <==> !PropioOPermiso(actor, id, "modificar_usuarios")
    ensures PropioOPermiso(actor, id, "modificar_usuarios") && !ActivoEn(us, id) ==> s.result == Err(NoEncontrado)
    ensures PropioOPermiso(actor, id, "modificar_usuarios") && ActivoEn(us, id)
            && Dado(e.correo) && CorreoDeOtro(us, e.correo.value, id)
            ==> s.result == Err(CorreoDuplicado)
    ensures s.result.Ok? <==>
            PropioOPermiso(actor, id, "modificar_usuarios") && ActivoEn(us, id)
            && !(Dado(e.correo) && CorreoDeOtro(us, e.correo.value, id))
    ensures s.result.Ok? ==>
            var a := us[id - 1];
            && s.state == us[id - 1 := a.(nombre := if Dado(e.nombre) then e.nombre.value else a.nombre,
                                           correo := if Dado(e.correo) then e.correo.value else a.correo,
                                           contrasena := if Dado(e.contrasena) then e.contrasena.value else a.contrasena)]
            && s.result.value == PerfilDe(s.state, id - 1)
  {
    if !PropioOPermiso(actor, id, "modificar_usuarios") then Step(us, Err(AccesoDenegado))
    else if !ActivoEn(us, id) then Step(us, Err(NoEncontrado))
    else
      var a := us[id - 1];
      var a1 := if Dado(e.nombre) then a.(nombre := e.nombre.value) else a;
      if Dado(e.correo) && CorreoDeOtro(us, e.correo.value, id) then Step(us, Err(CorreoDuplicado))
      else
        var a2 := if Dado(e.correo) then a1.(correo := e.correo.value) else a1;
        var a3 := if Dado(e.contrasena) then a2.(contrasena := e.contrasena.value) else a2;
        var us' := us[id - 1 := a3];
        Step(us', Ok(PerfilDe(us', id - 1)))
  }

  datatype EntradaPermisos = EntradaPermisos(rol: Option<string>, permisos: PermisosValor)

  /** updatePermisosUsuario: a valid role resets the list to the role's; an
      explicit array then replaces the list whatever the role. */
  function ActualizarPermisos(us: seq<Usuario>, id: int, e: EntradaPermisos): (s: Step<seq<Usuario>, Perfil>)
    ensures s.result.Err? ==> s.state == us
    ensures !ActivoEn(us, id) ==> s.result == Err(NoEncontrado)
    ensures ActivoEn(us, id) && Dado(e.rol) && !RolValido(e.rol.value) ==> s.result == Err(RolInvalido)
    ensures s.result.Ok? <==> ActivoEn(us, id) && !(Dado(e.rol) && !RolValido(e.rol.value))
    ensures s.result.Ok? ==>
            && |s.state| == |us|
            && var a := us[id - 1];
            var b := s.state[id - 1];
            && (forall k :: 0 <= k < |us| && k != id - 1 ==> s.state[k] == us[k])
            && b.nombre == a.nombre && b.correo == a.correo && b.contrasena == a.contrasena && b.activo
            && b.rol == (if Dado(e.rol) then e.rol.value else a.rol)
            && (e.permisos.Arreglo? ==> b.permisos == e.permisos.lista)
            && (!e.permisos.Arreglo? && Dado(e.rol) ==> b.permisos == PermisosPorRol(e.rol.value))
            && (!e.permisos.Arreglo? && !Dado(e.rol) ==> b.permisos == a.permisos)
            && s.result.value == PerfilDe(s.state, id - 1)
  {
    if !ActivoEn(us, id) then Step(us, Err(NoEncontrado))
    else
      var a := us[id - 1];
      if Dado(e.rol) && !RolValido(e.rol.value) then Step(us, Err(RolInvalido))
      else
        var a1 := if Dado(e.rol) then a.(rol := e.rol.value, permisos := PermisosPorRol(e.rol.value)) else a;
        var a2 := if e.permisos.Arreglo? then a1.(permisos := e.permisos.lista) else a1;
        var us' := us[id - 1 := a2];
        Step(us', Ok(PerfilDe(us', id - 1)))
  }

  /** deleteUsuario: the gate, then the active lookup, then `activo = false` and nothing else. */
  function Inhabilitar(us: seq<Usuario>, actor: Caller, id: int): (s: Step<seq<Usuario>, Perfil>)
    ensures s.result.Err? ==> s.state == us
    ensures s.result == Err(AccesoDenegado) <==> !PropioOPermiso(actor, id, "inhabilitar_usuarios")
    ensures PropioOPermiso(actor, id, "inhabilitar_usuarios") && !ActivoEn(us, id) ==> s.result == Err(NoEncontrado)
    ensures s.result.Ok? <==> PropioOPermiso(actor, id, "inhabilitar_usuarios") && ActivoEn(us, id)
    ensures s.result.Ok? ==>
            && s.state == us[id - 1 := us[id - 1].(activo := false)]
            && !s.result.value.activo && s.result.value.id == id
            && s.result.value.nombre == us[id - 1].nombre
  {
    if !PropioOPermiso(actor, id, "inhabilitar_usuarios") then Step(us, Err(AccesoDenegado))
    else if !ActivoEn(us, id) then Step(us, Err(NoEncontrado))
    else
      var us' := us[id - 1 := us[id - 1].(activo := false)];
      Step(us', Ok(PerfilDe(us', id - 1)))
  }

  /** A deactivated account is gone for every later lookup, update and deactivation. */
  lemma {:induction false} DeactivatedIsGone(us: seq<Usuario>, actor: Caller, id: int, e: EntradaActualizar)
    requires Inhabilitar(us, actor, id).result.Ok?
    ensures var s := Inhabilitar(us, actor, id).state;
            && GetUsuarioById(s, id) == Err(NoEncontrado)
            && Inhabilitar(s, actor, id).result == Err(NoEncontrado)
            && Actualizar(s, actor, id, e).result.Err?
            && Actualizar(s, actor, id, e).state == s
  {
    var s := Inhabilitar(us, actor, id).state;
    assert !s[id - 1].activo;
  }

  /** Every handler keeps the addresses unique. */
  lemma {:induction false} HandlersKeepCorreosUnicos(us: seq<Usuario>, r: EntradaRegistro, actor: Caller, id: int,
                                                      a: EntradaActualizar, p: EntradaPermisos)
    requires CorreosUnicos(us)
    ensures CorreosUnicos(Registrar(us, r).state)
    ensures CorreosUnicos(Actualizar(us, actor, id, a).state)
    ensures CorreosUnicos(ActualizarPermisos(us, id, p).state)
    ensures CorreosUnicos(Inhabilitar(us, actor, id).state)
  {
    var s := Actualizar(us, actor, id, a).state;
    if Actualizar(us, actor, id, a).result.Ok? && Dado(a.correo) {
      forall j, k | 0 <= j < k < |s| ensures s[j].correo != s[k].correo {
        if j == id - 1 || k == id - 1 {
          var o := if j == id - 1 then k else j;
          assert s[o] == us[o];
          assert !CorreoDeOtro(us, a.correo.value, id);
        }
      }
    }
  }

  // ---------------------------------------------------------------------------
  // The handlers over the database.

  method Register(db: Database, e: EntradaRegistro) returns (r: Result<Perfil>)
    modifies db`usuarios
    ensures Step(db.usuarios, r) == Registrar(old(db.usuarios), e)
  {
    if !Dado(e.nombre) || !Dado(e.correo) || !Dado(e.contrasena) {
      return Err(DatosIncompletos);
    }
    if IndiceDeCorreo(db.usuarios, e.correo.value).Some? {
      return Err(CorreoDuplicado);
    }
    var rol := RolFinal(e.rol);
    var permisos := PermisosPorRol(rol);
    db.usuarios := db.usuarios + [Usuario(e.nombre.value, e.correo.value, e.contrasena.value, rol, permisos, true)];
    r := Ok(PerfilDe(db.usuarios, |db.usuarios| - 1));
  }

  method UpdateUsuario(db: Database, actor: Caller, id: int, e: EntradaActualizar) returns (r: Result<Perfil>)
    modifies db`usuarios
    ensures Step(db.usuarios, r) == Actualizar(old(db.usuarios), actor, id, e)
  {
    var puedeModificar := actor.id == id || "modificar_usuarios" in actor.permisos;
    if !puedeModificar {
      return Err(AccesoDenegado);
    }
    if !(1 <= id <= |db.usuarios|) || !db.usuarios[id - 1].activo {
      return Err(NoEncontrado);
    }
    var u := db.usuarios[id - 1];
    if Dado(e.nombre) { u := u.(nombre := e.nombre.value); }
    if Dado(e.correo) {
      if CorreoDeOtro(db.usuarios, e.correo.value, id) {
        return Err(CorreoDuplicado);
      }
      u := u.(correo := e.correo.value);
    }
    if Dado(e.contrasena) { u := u.(contrasena := e.contrasena.value); }
    db.usuarios := db.usuarios[id - 1 := u];
    r := Ok(PerfilDe(db.usuarios, id - 1));
  }

  method UpdatePermisosUsuario(db: Database, id: int, e: EntradaPermisos) returns (r: Result<Perfil>)
    modifies db`usuarios
    ensures Step(db.usuarios, r) == ActualizarPermisos(old(db.usuarios), id, e)
  {
    if !(1 <= id <= |db.usuarios|) || !db.usuarios[id - 1].activo {
      return Err(NoEncontrado);
    }
    var u := db.usuarios[id - 1];
    if Dado(e.rol) {
      if !RolValido(e.rol.value) {
        return Err(RolInvalido);
      }
      u := u.(rol := e.rol.value, permisos := PermisosPorRol(e.rol.value));
    }
    if e.permisos.Arreglo? {
      u := u.(permisos := e.permisos.lista);
    }
    db.usuarios := db.usuarios[id - 1 := u];
    r := Ok(PerfilDe(db.usuarios, id - 1));
  }

  method DeleteUsuario(db: Database, actor: Caller, id: int) returns (r: Result<Perfil>)
    modifies db`usuarios
    ensures Step(db.usuarios, r) == Inhabilitar(old(db.usuarios), actor, id)
  {
    var puedeInhabilitar := actor.id == id || "inhabilitar_usuarios" in actor.permisos;
    if !puedeInhabilitar {
      return Err(AccesoDenegado);
    }
    if !(1 <= id <= |db.usuarios|) || !db.usuarios[id - 1].activo {
      return Err(NoEncontrado);
    }
    db.usuarios := db.usuarios[id - 1 := db.usuarios[id - 1].(activo := false)];
    r := Ok(PerfilDe(db.usuarios, id - 1));
  }
}
