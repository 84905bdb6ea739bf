/** The reservation controller: create, the lazy expiry sweep, the two
    listings and the return, each as a specification function over the
    book and reservation tables plus the handler that updates the database. */
module Reservas {
  import opened Common
  import opened Queries
  import opened LibroModel
  import opened ReservaModel
  import opened Store

  datatype Tablas = Tablas(libros: seq<Libro>, reservas: seq<Reserva>)

  /** The `fecha_entrega_prevista` of a request: missing (falsy), text that
      `new Date` cannot parse, or a timestamp. */
  datatype FechaEntrada = FechaAusente | FechaNoValida | Fecha(t: int)

  /** The body of a create request; `libroId` is `None` when missing. */
  datatype EntradaReserva = EntradaReserva(libroId: Option<int>, fecha: FechaEntrada)

  datatype Creada = Creada(id: nat, reserva: Reserva)

  /** `!libro_id || !fecha_entrega_prevista`; the id 0 is falsy too. */
  predicate Incompleta(e: EntradaReserva)
  {
    e.libroId.None? || e.libroId.value == 0 || e.fecha.FechaAusente?
  }

  /** `fechaPrevista <= new Date()`: an unparsable date compares false and passes. */
  predicate NoFutura(e: EntradaReserva, now: int)
  {
    e.fecha.Fecha? && !EsFutura(e.fecha.t, now)
  }

  /** `Reserva.findOne({ where: { usuario_id, libro_id, estado: 'activa' } })` finds a row. */
  predicate TieneReservaActiva(rs: seq<Reserva>, usuarioId: int, libroId: int)
  {
    exists k :: 0 <= k < |rs| && rs[k].usuarioId == usuarioId && rs[k].libroId == libroId && rs[k].estado == Activa
  }

  /** createReserva: five checks in order, then insert the row and mark the book unavailable. */
  function Crear(t: Tablas, usuarioId: int, e: EntradaReserva, now: int): (s: Step<Tablas, Creada>)
    ensures s.result.Err? ==> s.state == t
    ensures Incompleta(e) ==> s.result == Err(DatosIncompletos)
    ensures !Incompleta(e) && NoFutura(e, now) ==> s.result == Err(FechaInvalida)
    ensures !Incompleta(e) && !NoFutura(e, now) && LibroActivo(t.libros, e.libroId.value).None?
            ==> s.result == Err(NoEncontrado)
    ensures !Incompleta(e) && !NoFutura(e, now) && LibroActivo(t.libros, e.libroId.value).Some?
            && !t.libros[e.libroId.value - 1].disponible
            ==> s.result == Err(NoDisponible)
    ensures !Incompleta(e) && !NoFutura(e, now) && LibroActivo(t.libros, e.libroId.value).Some?
            && t.libros[e.libroId.value - 1].disponible
            && TieneReservaActiva(t.reservas, usuarioId, e.libroId.value)
            ==> s.result == Err(ReservaDuplicada)
    ensures !Incompleta(e) && e.fecha.FechaNoValida? && LibroActivo(t.libros, e.libroId.value).Some?
            && t.libros[e.libroId.value - 1].disponible
            && !TieneReservaActiva(t.reservas, usuarioId, e.libroId.value)
            ==> s.result == Err(ErrorDelServidor)
    ensures s.result.Ok? <==>
            !Incompleta(e) && e.fecha.Fecha? && EsFutura(e.fecha.t, now)
            && LibroActivo(t.libros, e.libroId.value).Some?
            && t.libros[e.libroId.value - 1].disponible
            && !TieneReservaActiva(t.reservas, usuarioId, e.libroId.value)
    ensures s.result.Ok? ==>
            var id := e.libroId.value;
            var r := s.result.value;
            && r.id == |t.reservas| + 1
            && r.reserva == Reserva(usuarioId, id, now, e.fecha.t, None, Activa)
            && s.state.reservas == t.reservas + [r.reserva]
            && |s.state.libros| == |t.libros|
            && !s.state.libros[id - 1].disponible
            && s.state.libros[id - 1] == t.libros[id - 1].(disponible := false)
            && forall b :: 0 <= b < |t.libros| && b != id - 1 ==> s.state.libros[b] == t.libros[b]
  {
    if Incompleta(e) then Step(t, Err(DatosIncompletos))
    else if NoFutura(e, now) then Step(t, Err(FechaInvalida))
    else
      var id := e.libroId.value;
      if LibroActivo(t.libros, id).None? then Step(t, Err(NoEncontrado))
      else if !t.libros[id - 1].disponible then Step(t, Err(NoDisponible))
      else if TieneReservaActiva(t.reservas, usuarioId, id) then Step(t, Err(ReservaDuplicada))
      else if !e.fecha.Fecha? then Step(t, Err(ErrorDelServidor))  // the row fails the isDate validator
      else
        var r := NuevaReserva(usuarioId, id, e.fecha.t, now);
        var libro := t.libros[id - 1].(disponible := false);
        Step(Tablas(t.libros[id - 1 := libro], t.reservas + [r]), Ok(Creada(|t.reservas| + 1, r)))
  }

  /** The date boundary of create: an expected return at `now` itself is
      refused as not in the future, one instant later passes that check. */
  lemma DateBoundary(t: Tablas, usuarioId: int, id: int, now: int)
    requires id != 0
    ensures Crear(t, usuarioId, EntradaReserva(Some(id), Fecha(now)), now).result == Err(FechaInvalida)
    ensures Crear(t, usuarioId, EntradaReserva(Some(id), Fecha(now + 1)), now).result != Err(FechaInvalida)
  {
  }

  /** The sweep's condition for one row: `estado = 'activa' AND fecha_entrega_prevista < now`. */
  predicate Vence(r: Reserva, now: int)
  {
    r.estado == Activa && r.fechaEntregaPrevista < now
  }

  /** actualizarReservasVencidas as a function of the table. */
  function Vencer(rs: seq<Reserva>, now: int): (r: seq<Reserva>)
    ensures |r| == |rs|
    ensures forall k :: 0 <= k < |rs| ==> r[k] == rs[k].(estado := r[k].estado)
    ensures forall k :: 0 <= k < |rs| ==> (r[k].estado != rs[k].estado <==> Vence(rs[k], now))
    ensures forall k :: 0 <= k < |rs| && Vence(rs[k], now) ==> r[k].estado == Vencida
  {
    seq(|rs|, k requires 0 <= k < |rs| => if Vence(rs[k], now) then rs[k].(estado := Vencida) else rs[k])
  }

  /** Running the sweep twice at the same time equals running it once. */
  lemma VencerIdempotent(rs: seq<Reserva>, now: int)
    ensures Vencer(Vencer(rs, now), now) == Vencer(rs, now)
  {
    var once := Vencer(rs, now);
    var twice := Vencer(once, now);
    forall k | 0 <= k < |rs| ensures twice[k] == once[k] {
      assert !Vence(once[k], now);
    }
  }

  /** The `estado` and `incluir_finalizadas` query strings of the user listing. */
  datatype ConsultaUsuario = ConsultaUsuario(estado: Option<string>, incluirFinalizadas: Option<string>)

  /** The states the user listing's `where.estado` admits. */
  function EstadosPedidos(q: ConsultaUsuario): (es: set<Estado>)
    ensures Dado(q.estado) && EstadoDeTexto(q.estado.value).Some? ==> es == {EstadoDeTexto(q.estado.value).value}
    ensures Devuelta in es <==>
            (Dado(q.estado) && q.estado.value == "devuelta")
            || (!(Dado(q.estado) && EstadoDeTexto(q.estado.value).Some?) && q.incluirFinalizadas == Some("true"))
    ensures Activa in es && Vencida in es <==>
            !(Dado(q.estado) && EstadoDeTexto(q.estado.value).Some?)
  {
    if Dado(q.estado) && EstadoDeTexto(q.estado.value).Some? then {EstadoDeTexto(q.estado.value).value}
    else if q.incluirFinalizadas != Some("true") then {Activa, Vencida}
    else {Activa, Devuelta, Vencida}
  }

  /** The text chosen for an empty user listing. */
  datatype MensajeVacio = SinReservasConEstado(estado: string) | SinReservas | SinReservasActivas

  datatype RespuestaUsuario =
    | Listado(reservas: seq<(nat, Reserva)>)
    | Vacio(mensaje: MensajeVacio)

  function MensajeVacioDe(q: ConsultaUsuario): (m: MensajeVacio)
    ensures Dado(q.estado) ==> m == SinReservasConEstado(q.estado.value)
    ensures !Dado(q.estado) && q.incluirFinalizadas == Some("true") ==> m == SinReservas
    ensures !Dado(q.estado) && q.incluirFinalizadas != Some("true") ==> m == SinReservasActivas
  {
    if Dado(q.estado) then SinReservasConEstado(q.estado.value)
    else if q.incluirFinalizadas == Some("true") then SinReservas
    else SinReservasActivas
  }

  predicate DelUsuario(r: Reserva, usuarioId: int, es: set<Estado>)
  {
    r.usuarioId == usuarioId && r.estado in es
  }

  /** The caller's rows in the states `es`, with their ids, newest first. */
  function DelUsuarioOrdenadas(rs: seq<Reserva>, usuarioId: int, es: set<Estado>): (found: seq<(nat, Reserva)>)
    ensures SortedDesc(found, (x: (nat, Reserva)) => x.1.fechaReserva)
    ensures forall id, x :: (id, x) in found <==> 1 <= id <= |rs| && rs[id - 1] == x && DelUsuario(x, usuarioId, es)
    ensures forall i, j :: 0 <= i < j < |found| ==> found[i].0 != found[j].0
    ensures found == [] <==> forall k :: 0 <= k < |rs| ==> !DelUsuario(rs[k], usuarioId, es)
  {
    var found := Select(rs, (x: Reserva) => DelUsuario(x, usuarioId, es), (x: Reserva) => x.fechaReserva);
    if found == [] then
      assert forall k :: 0 <= k < |rs| ==> (k + 1, rs[k]) !in found;
      found
    else
      assert (found[0].0, found[0].1) in found;
      found
  }

  /** The query of getReservasUsuario over the (already swept) table. */
  function ListadoUsuario(rs: seq<Reserva>, usuarioId: int, q: ConsultaUsuario): (r: RespuestaUsuario)
    ensures r.Listado? ==> |r.reservas| > 0
    ensures r.Listado? ==> SortedDesc(r.reservas, (x: (nat, Reserva)) => x.1.fechaReserva)
    ensures r.Listado? ==> forall id, x :: (id, x) in r.reservas <==>
              1 <= id <= |rs| && rs[id - 1] == x && x.usuarioId == usuarioId && x.estado in EstadosPedidos(q)
    ensures r.Listado? ==> forall i, j :: 0 <= i < j < |r.reservas| ==> r.reservas[i].0 != r.reservas[j].0
    ensures r.Vacio? <==> forall k :: 0 <= k < |rs| ==> !DelUsuario(rs[k], usuarioId, EstadosPedidos(q))
    ensures r.Vacio? ==> r.mensaje == MensajeVacioDe(q)
  {
    var found := DelUsuarioOrdenadas(rs, usuarioId, EstadosPedidos(q));
    if found == [] then Vacio(MensajeVacioDe(q)) else Listado(found)
  }

  datatype ListadoLibro = ListadoLibro(libroId: int, titulo: string, autor: string, reservas: seq<(nat, Reserva)>)

  /** The query of getReservasLibro over the (already swept) table. */
  function ReservasDeLibro(libros: seq<Libro>, rs: seq<Reserva>, libroId: int): (r: Result<ListadoLibro>)
    ensures r.Err? <==> LibroActivo(libros, libroId).None?
    ensures r.Err? ==> r.error == NoEncontrado
    ensures r.Ok? ==> r.value.libroId == libroId && r.value.titulo == libros[libroId - 1].titulo
    ensures r.Ok? ==> r.value.autor == libros[libroId - 1].autor
    ensures r.Ok? ==> SortedDesc(r.value.reservas, (x: (nat, Reserva)) => x.1.fechaReserva)
    ensures r.Ok? ==> forall id, x :: (id, x) in r.value.reservas <==>
              1 <= id <= |rs| && rs[id - 1] == x && x.libroId == libroId
    ensures r.Ok? ==> forall i, j :: 0 <= i < j < |r.value.reservas| ==> r.value.reservas[i].0 != r.value.reservas[j].0
  {
    match LibroActivo(libros, libroId)
    case None => Err(NoEncontrado)
    case Some(libro) =>
      Ok(ListadoLibro(libroId, libro.titulo, libro.autor,
                      Select(rs, (x: Reserva) => x.libroId == libroId, (x: Reserva) => x.fechaReserva)))
  }

  datatype Devolucion = Devolucion(id: nat, reserva: Reserva, entregaTardia: bool)

  /** The ownership-or-permission gate of the return. */
  predicate PuedeDevolver(actor: Caller, r: Reserva)
  {
    r.usuarioId == actor.id || "cancelar_reservas" in actor.permisos
  }

  /** cancelarReserva: lookup, gate, no second return; then close the row and free the book. */
  function Devolver(t: Tablas, actor: Caller, id: int, now: int): (s: Step<Tablas, Devolucion>)
    ensures s.result.Err? ==> s.state == t
    ensures !(1 <= id <= |t.reservas|) ==> s.result == Err(NoEncontrado)
    ensures 1 <= id <= |t.reservas| && !PuedeDevolver(actor, t.reservas[id - 1])
            ==> s.result == Err(AccesoDenegado)
    ensures 1 <= id <= |t.reservas| && PuedeDevolver(actor, t.reservas[id - 1])
            && t.reservas[id - 1].estado == Devuelta
            ==> s.result == Err(ReservaYaDevuelta)
    ensures s.result.Ok? <==>
            1 <= id <= |t.reservas| && PuedeDevolver(actor, t.reservas[id - 1]) && Abierta(t.reservas[id - 1])
    ensures s.result.Ok? ==>
            var antes := t.reservas[id - 1];
            var d := s.result.value;
            && d.id == id
            && d.reserva == antes.(estado := Devuelta, fechaEntregaReal := Some(now))
            && (d.entregaTardia <==> now > antes.fechaEntregaPrevista)
            && s.state.reservas == t.reservas[id - 1 := d.reserva]
            && |s.state.libros| == |t.libros|
            && (1 <= antes.libroId <= |t.libros| ==>
                  s.state.libros[antes.libroId - 1] == t.libros[antes.libroId - 1].(disponible := true))
            && forall b :: 0 <= b < |t.libros| && b != antes.libroId - 1 ==> s.state.libros[b] == t.libros[b]
  {
    if !(1 <= id <= |t.reservas|) then Step(t, Err(NoEncontrado))
    else
      var r := t.reservas[id - 1];
      if !PuedeDevolver(actor, r) then Step(t, Err(AccesoDenegado))
      else if r.estado == Devuelta then Step(t, Err(ReservaYaDevuelta))
      else
        var tardia := now > r.fechaEntregaPrevista;
        var cerrada := r.(fechaEntregaReal := Some(now), estado := Devuelta);
        var libros :=
          if 1 <= r.libroId <= |t.libros| then t.libros[r.libroId - 1 := t.libros[r.libroId - 1].(disponible := true)]
          else t.libros;
        Step(Tablas(libros, t.reservas[id - 1 := cerrada]), Ok(Devolucion(id, cerrada, tardia)))
  }

  // ---------------------------------------------------------------------------
  // The handlers over the database.

  method CreateReserva(db: Database, usuarioId: int, e: EntradaReserva, now: int) returns (r: Result<Creada>)
    modifies db`libros, db`reservas
    ensures Step(Tablas(db.libros, db.reservas), r) == Crear(old(Tablas(db.libros, db.reservas)), usuarioId, e, now)
  {
    if e.libroId.None? || e.libroId.value == 0 || e.fecha.FechaAusente? {
      return Err(DatosIncompletos);
    }
    if e.fecha.Fecha? && e.fecha.t <= now {
      return Err(FechaInvalida);
    }
    var id := e.libroId.value;
    if !(1 <= id <= |db.libros|) || !db.libros[id - 1].activo {
      return Err(NoEncontrado);
    }
    var libro := db.libros[id - 1];
    if !libro.disponible {
      return Err(NoDisponible);
    }
    if TieneReservaActiva(db.reservas, usuarioId, id) {
      return Err(ReservaDuplicada);
    }
    if !e.fecha.Fecha? {
      return Err(ErrorDelServidor);
    }
    var nueva := NuevaReserva(usuarioId, id, e.fecha.t, now);
    db.reservas := db.reservas + [nueva];
    db.libros := db.libros[id - 1 := libro.(disponible := false)];
    r := Ok(Creada(|db.reservas|, nueva));
  }

  /** The bulk `UPDATE reservas SET estado = 'vencida' WHERE ...`, row by row. */
  method ActualizarReservasVencidas(db: Database, now: int)
    modifies db`reservas
    ensures db.reservas == Vencer(old(db.reservas), now)
  {
    var i := 0;
    while i < |db.reservas|
      invariant 0 <= i <= |db.reservas| == |old(db.reservas)|
      invariant forall k :: 0 <= k < i ==> db.reservas[k] == Vencer(old(db.reservas), now)[k]
      invariant forall k :: i <= k < |db.reservas| ==> db.reservas[k] == old(db.reservas)[k]
    {
      var r := db.reservas[i];
      if r.estado == Activa && r.fechaEntregaPrevista < now {
        db.reservas := db.reservas[i := r.(estado := Vencida)];
      }
      i := i + 1;
    }
  }

  method GetReservasUsuario(db: Database, actor: Caller, q: ConsultaUsuario, now: int) returns (r: RespuestaUsuario)
    modifies db`reservas
    ensures db.reservas == Vencer(old(db.reservas), now)
    ensures r == ListadoUsuario(db.reservas, actor.id, q)
  {
    ActualizarReservasVencidas(db, now);
    r := ListadoUsuario(db.reservas, actor.id, q);
  }

  method GetReservasLibro(db: Database, libroId: int, now: int) returns (r: Result<ListadoLibro>)
    modifies db`reservas
    ensures db.reservas == Vencer(old(db.reservas), now)
    ensures r == ReservasDeLibro(db.libros, db.reservas, libroId)
  {
    ActualizarReservasVencidas(db, now);
    r := ReservasDeLibro(db.libros, db.reservas, libroId);
  }

  method CancelarReserva(db: Database, actor: Caller, id: int, now: int) returns (r: Result<Devolucion>)
    modifies db`libros, db`reservas
    ensures Step(Tablas(db.libros, db.reservas), r) == Devolver(old(Tablas(db.libros, db.reservas)), actor, id, now)
  {
    var tienePermisoAdmin := "cancelar_reservas" in actor.permisos;
    if !(1 <= id <= |db.reservas|) {
      return Err(NoEncontrado);
    }
    var reserva := db.reservas[id - 1];
    if reserva.usuarioId != actor.id && !tienePermisoAdmin {
      return Err(AccesoDenegado);
    }
    if reserva.estado == Devuelta {
      return Err(ReservaYaDevuelta);
    }
    var tardia := now > reserva.fechaEntregaPrevista;
    var cerrada := reserva.(fechaEntregaReal := Some(now), estado := Devuelta);
    db.reservas := db.reservas[id - 1 := cerrada];
    if 1 <= reserva.libroId <= |db.libros| {
      db.libros := db.libros[reserva.libroId - 1 := db.libros[reserva.libroId - 1].(disponible := true)];
    }
    r := Ok(Devolucion(id, cerrada, tardia));
  }
}
