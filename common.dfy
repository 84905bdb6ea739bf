/** Values shared by every handler of the library backend: optional request
    fields, the error kinds the handlers answer with, and the shape of a
    handler's outcome (new table state plus result). */
module Common {

  datatype Option<T> = None | Some(value: T)

  /** The error bodies the controllers send (`error: '...'`), one kind each. */
  datatype Error =
    | DatosIncompletos
    | FechaInvalida
    | NoEncontrado
    | NoDisponible
    | ReservaDuplicada
    | AccesoDenegado
    | ReservaYaDevuelta
    | CorreoDuplicado
    | CredencialesInvalidas
    | UsuarioInactivo
    | RolInvalido
    | ErrorDelServidor

  datatype Result<T> = Ok(value: T) | Err(error: Error)

  /** What a state-changing handler leaves behind: the table(s) it owns and its answer. */
  datatype Step<S, T> = Step(state: S, result: Result<T>)

  /** The HTTP status the controllers pair with each error kind. */
  function Status(e: Error): (code: int)
    ensures code in {400, 401, 403, 404, 500}
    ensures code == 401 <==> e == CredencialesInvalidas
    ensures code == 403 <==> e == AccesoDenegado || e == UsuarioInactivo
    ensures code == 404 <==> e == NoEncontrado
    ensures code == 500 <==> e == ErrorDelServidor
  {
    match e
    case DatosIncompletos => 400
    case FechaInvalida => 400
    case NoDisponible => 400
    case ReservaDuplicada => 400
    case ReservaYaDevuelta => 400
    case CorreoDuplicado => 400
    case RolInvalido => 400
    case CredencialesInvalidas => 401
    case AccesoDenegado => 403
    case UsuarioInactivo => 403
    case NoEncontrado => 404
    case ErrorDelServidor => 500
  }

  /** JavaScript truthiness of an optional string field: present and non-empty. */
  predicate Dado(s: Option<string>)
  {
    s.Some? && s.value != ""
  }

  /** The caller as the authentication middleware resolves it: an active user's
      id, role and stored permission list. */
  datatype Caller = Caller(id: int, rol: string, permisos: seq<string>)
}
