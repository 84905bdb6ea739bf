/** The reservation record: its three states and the future-date rule on the
    planned return date. Dates are integer timestamps. */
module ReservaModel {
  import opened Common

  /** The `estado` enum; a reservation is always in exactly one of these. */
  datatype Estado = Activa | Devuelta | Vencida

  function EstadoDeTexto(s: string): (e: Option<Estado>)
    ensures e == Some(Activa) <==> s == "activa"
    ensures e == Some(Devuelta) <==> s == "devuelta"
    ensures e == Some(Vencida) <==> s == "vencida"
  {
    if s == "activa" then Some(Activa)
    else if s == "devuelta" then Some(Devuelta)
    else if s == "vencida" then Some(Vencida)
    else None
  }

  /** A row of the `reservas` table. */
  datatype Reserva = Reserva(
    usuarioId: int, libroId: int,
    fechaReserva: int, fechaEntregaPrevista: int,
    fechaEntregaReal: Option<int>, estado: Estado)

  /** The `isAfterToday` validator: the planned return must lie strictly after `now`. */
  predicate EsFutura(fecha: int, now: int)
  {
    fecha > now
  }

  /** A reservation still holding its book: not yet returned. */
  predicate Abierta(r: Reserva)
  {
    r.estado == Activa || r.estado == Vencida
  }

  /** A row created at `now` with the column defaults: active, not yet returned. */
  function NuevaReserva(usuarioId: int, libroId: int, prevista: int, now: int): Reserva
  {
    Reserva(usuarioId, libroId, now, prevista, None, Activa)
  }
}
