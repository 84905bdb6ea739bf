# Library reservation backend — Dafny model

The system is a lending library backend with three tables plus guards:

- a catalog of books (`libros`);
- users with a role and a permission list (`usuarios`);
- reservations that tie a user to a book with an expected return date (`reservas`);
- permission and role guards that sit in front of the HTTP handlers.

This project models what the handlers do:

- reserving a book, listing reservations by user and by book, and returning a book;
- the sweep that marks overdue reservations as expired;
- registration, login, profile update, permission changes and deactivation;
- creating, reading, listing, updating and soft-deleting books;
- the page/limit arithmetic of the listings;
- the role-to-permission table and the two guards.

How the model is built:

- **Tables.** Each table is a sequence of rows. The model assumes that a row's id is its position plus one. Ids are auto-increment and rows are never hard-deleted, but a database sequence also skips the ids of failed inserts, which the model does not represent.
- **Handlers.** Each state-changing handler is a pure function from the old tables and the request to a `Step`, which carries the new tables and either a result or an error kind. The read-only handlers (`Libros.GetLibroById`, `Libros.GetLibros`, `Usuarios.GetUsuarioById`, `Usuarios.Login`, `Reservas.ListadoUsuario`, `Reservas.ReservasDeLibro`) are functions of the tables that return a `Result`, a listing or a page. The error kinds are `Common.Error`, and `Common.Status` gives their HTTP statuses.
- **Check order.** The ordered checks of each handler appear in its contract. Each error fires exactly under its guard, leaves the tables unchanged, and pre-empts every later check.
- **Database updates.** `Store.Database` is a class that holds the three tables as fields. Each handler that changes the database is also a module-level method taking a `db: Database` and modifying only the fields it owns. Its postconditions tie the new fields to the pure function.
- **The overdue sweep** is a `while` loop over the reservation table, proved against the function `Reservas.Vencer`.

Inputs the model takes as parameters, because the model cannot compute them:

- **The clock.** `now` is an integer timestamp.
- **Password checking.** `bcrypt.compare` is the function parameter `coincide`.
- **Text search.** The case-insensitive substring match of `iLike` is the parameter `contiene`.
- **Decoded request values.** Query strings and bodies arrive already decoded:
  - an optional text field is `Option<string>`, and JavaScript truthiness is `Common.Dado`;
  - a `parseInt` result is `Option<int>`, with `None` for NaN;
  - a date field is `Reservas.FechaEntrada`: absent, unparsable, or a timestamp.

Behaviour of the handlers that the model makes explicit:

- **Retrying a reservation.** Asking again for a book you already hold open gets "book not available", as long as no book update has marked the book available again. The handler checks availability before it looks for an open reservation, and the first reservation already made the book unavailable (`Disponibilidad.ReserveRetryReturn`). While the availability invariant holds, the duplicate check can never fire (`Disponibilidad.DuplicadaInalcanzable`). A book update that sets `disponible` to true on a reserved book breaks the invariant, and then the same request does end in "duplicate reservation" (`Disponibilidad.ManualReleaseReachesDuplicate`).
- **Unparsable return dates.** An unparsable expected return date passes the handler's "must be in the future" test, because a NaN comparison is false. It is rejected only when the row is built, which gives a server error after all the book checks (`Reservas.Crear`).
- **Returning a book.** The override that lets someone other than the owner return a book is the permission `cancelar_reservas`, which only the admin role holds (`Rutas.ReturnOverrideIsAdminOnly`). The return handler does not run the overdue sweep first.
- **Column defaults.** A user row takes the role `usuario`, an empty permission list and `activo` true when none is given (src/models/Usuario.js:40-60); a book is available and active by default (src/models/Libro.js:39-48). Registration always writes role, list and status explicitly (`Usuarios.RegisterWithoutRoleIsUsuario`), and book creation fills availability in itself (`Libros.CrearLibro`).

## Model

| member | source | states |
|---|---|---|
| Common.Status | src/controllers/reservaController.js:30-247 | the controllers' status per error: 401 exactly for bad credentials, 403 exactly for access denied and inactive accounts, 404 exactly for not found, 500 exactly for the server error, 400 for the other request errors |
| Pagination.ValidPage | src/utils/pagination.js:2-5 | the page is at least 1; a parsed page of at least 1 is kept, and anything else becomes 1 |
| Pagination.ValidLimit | src/utils/pagination.js:3-6 | the limit lies in 1..100; an in-range limit is kept, a larger one is capped at 100, and a missing or non-positive one becomes 10 |
| Pagination.GetPaginationParams | src/utils/pagination.js:1-15 | page and limit are the validated values; the offset is non-negative and is exactly (page-1) whole pages of `limit` rows |
| Pagination.TotalPages | src/utils/pagination.js:18 | the ceiling of count/limit: 0 for no rows, otherwise the smallest page count that covers every row |
| Pagination.BuildPaginationResponse | src/utils/pagination.js:17-31 | echoes data, total, page and limit; totalPages is the ceiling; hasNextPage iff page < totalPages; hasPrevPage iff page > 1 |
| Pagination.GetPaginationParamsIdempotent | src/utils/pagination.js:1-15 | feeding the normalised page and limit back in gives the same parameters |
| Pagination.HasNextPageMeansMoreRows | src/utils/pagination.js:18-27 | hasNextPage holds exactly when page*limit < total, i.e. rows remain after the current page |
| UsuarioModel.PermisosPorRol | src/models/Usuario.js:84-100 | each known role gets its fixed list; any other role string gets the empty list |
| UsuarioModel.RolesWithinAdmin | src/models/Usuario.js:86-96 | every permission some role grants is also granted to admin |
| UsuarioModel.AdminOnlyPermissions | src/models/Usuario.js:86-96 | the user-administration, permission-administration, list-by-book and return-override permissions belong to a role's list iff the role is admin |
| UsuarioModel.RoleGaps | src/models/Usuario.js:91-96 | editors cannot reserve or list their reservations; plain users cannot create, modify or disable books |
| UsuarioModel.ListSizesAndDistinctness | src/models/Usuario.js:86-96 | the admin, editor and usuario lists have 14, 5 and 4 entries, none repeated |
| ReservaModel.EstadoDeTexto | src/controllers/reservaController.js:126 | a status text decodes iff it is one of `activa`, `devuelta` and `vencida`, each to its own state |
| LibroModel.LibroActivo | src/controllers/libroController.js:43-45 | finds the row with that id iff it exists and is active |
| PermissionGuards.CheckPermissions | src/middlewares/checkPermissions.js:6-20 | allows iff the caller's permissions are an array containing the required one; a missing or non-array value is denied as unconfigured, an array without it as missing |
| PermissionGuards.AlgunoIncluido | src/middlewares/checkPermissions.js:42 | true iff some requested permission is in the list |
| PermissionGuards.CheckAnyPermission | src/middlewares/checkPermissions.js:35-51 | allows iff the permissions are an array that contains at least one of the requested permissions; the same deny reasons as the single check |
| PermissionGuards.AnyOfNothingDenies | src/middlewares/checkPermissions.js:42 | asking for any of no permissions always denies |
| PermissionGuards.AnyOfOneIsSingle | src/middlewares/checkPermissions.js:13-42 | asking for any of one permission decides exactly like the single-permission guard |
| PermissionGuards.GuardsMonotone | src/middlewares/checkPermissions.js:13-42 | a caller whose list contains another caller's list passes every guard the other passes |
| RoleGuard.CheckRole | src/middlewares/checkRole.js:6-20 | allows iff the role is present, non-empty and among the allowed ones; denies "no role" when it is falsy and "role not allowed" when it is present but not listed |
| RoleGuard.RoleGuardIgnoresPermisos | src/middlewares/checkRole.js:4-20 | the role guard's decision does not depend on the caller's permission list |
| RoleGuard.NoRolesDenies | src/middlewares/checkRole.js:13 | an empty allowed-role list denies everyone |
| Rutas.PasaConRol | src/routes/reservaRoutes.js:12-14 | a route's permission guard admits a role's default list iff the list contains the permission |
| Rutas.RoutesByRole | src/routes/reservaRoutes.js:12-14 | reserve and list-own are open to admin and usuario, list-by-book and permission administration to admin only, and the book-writing routes to admin and editor |
| Rutas.ReturnOverrideIsAdminOnly | src/controllers/reservaController.js:220-244 | with default permissions, a non-owner may return someone's reservation iff the caller's role is admin |
| Reservas.Crear | src/controllers/reservaController.js:29-86 | ordered errors: missing data, date not in the future, book missing or inactive, book unavailable, duplicate open reservation, then a server error for an unparsable date; each leaves the tables unchanged; success iff all checks pass, appends an active reservation from now with no return date, and marks only that book unavailable |
| Reservas.DateBoundary | src/controllers/reservaController.js:37-42 | a reservation whose expected return is `now` itself is refused as an invalid date; one an instant later is never refused for its date |
| Reservas.Vencer | src/controllers/reservaController.js:8-18 | same length; only the status changes, it changes exactly for active rows whose expected date is before now, and those become expired |
| Reservas.VencerIdempotent | src/controllers/reservaController.js:8-18 | running the sweep twice at the same instant equals running it once |
| Reservas.EstadosPedidos | src/controllers/reservaController.js:124-130 | a valid requested status selects exactly that status; otherwise returned rows are included only when finished reservations are requested, and active and expired rows always are |
| Reservas.MensajeVacioDe | src/controllers/reservaController.js:144-155 | the empty-list message names the requested status, or "no reservations", or "no active reservations", by the same cases |
| Reservas.ListadoUsuario | src/controllers/reservaController.js:124-160 | lists exactly the caller's reservations in the selected statuses, with their ids, each once, newest first; empty (with its message) iff none match |
| Reservas.ReservasDeLibro | src/controllers/reservaController.js:174-206 | not-found iff the book is missing or inactive; otherwise the book's id, title and author, and exactly that book's reservations with their ids, each once, newest first |
| Reservas.Devolver | src/controllers/reservaController.js:218-270 | ordered errors: not found, not owner and no override, already returned; each leaves the tables unchanged; success marks the row returned at now, reports late iff now is after the expected date, frees the book and changes nothing else |
| Reservas.CreateReserva | src/controllers/reservaController.js:24-107 | the tables and result become those of `Crear`; the user table is untouched |
| Reservas.ActualizarReservasVencidas | src/controllers/reservaController.js:4-22 | the loop leaves the reservation table equal to `Vencer` of the old one |
| Reservas.GetReservasUsuario | src/controllers/reservaController.js:117-160 | runs the sweep, then answers `ListadoUsuario` for the caller over the swept table |
| Reservas.GetReservasLibro | src/controllers/reservaController.js:170-206 | runs the sweep, then answers `ReservasDeLibro` over the swept table |
| Reservas.CancelarReserva | src/controllers/reservaController.js:216-277 | the tables and result become those of `Devolver` |
| Disponibilidad.EmptyIsConsistent | src/models/Libro.js:39-48 | empty tables satisfy the availability invariant |
| Disponibilidad.CrearPreserva | src/controllers/reservaController.js:55-86 | reserving keeps the invariant: a reservation names a stored book, a book is unavailable iff it has an open reservation, and a book has at most one open reservation |
| Disponibilidad.VencerPreserva | src/controllers/reservaController.js:8-18 | the overdue sweep keeps the availability invariant |
| Disponibilidad.DevolverPreserva | src/controllers/reservaController.js:253-263 | returning keeps the availability invariant |
| Disponibilidad.DuplicadaInalcanzable | src/controllers/reservaController.js:55-75 | under the invariant a reservation attempt never ends in "duplicate reservation" |
| Disponibilidad.SecondReturnFails | src/controllers/reservaController.js:246-251 | after a successful return, returning the same reservation again gives "already returned" and changes nothing |
| Disponibilidad.OperacionesEvolucionan | src/controllers/reservaController.js:8-259 | reserving, sweeping and returning only append active rows, keep rows' fixed data, move status only active→expired→returned, and never touch a returned row |
| Disponibilidad.CrearLibroPreserva | src/controllers/libroController.js:9-24 | adding a book that is not created unavailable keeps the availability invariant |
| Disponibilidad.ManualReleaseReachesDuplicate | src/controllers/libroController.js:147 | a concrete sequence: reserve, then a book update sending `disponible: true`, breaks the availability invariant, and the same reservation request then gets "duplicate reservation" |
| Disponibilidad.ReserveRetryReturn | src/controllers/reservaController.js:29-270 | a concrete sequence: a reservation succeeds, the same request again gets "not available", the return is on time, and the book is available again |
| Libros.OrNull | src/controllers/libroController.js:20-21 | falsy optional text becomes null; other text is kept |
| Libros.CrearLibro | src/controllers/libroController.js:9-24 | missing data iff title, author or genre is falsy (tables unchanged); otherwise appends an active book with the title, author and genre sent, the publication date and publisher sent or null when falsy, available unless `false` was sent, stamped with now |
| Libros.GetLibroById | src/controllers/libroController.js:43-52 | not-found iff no active book has that id; otherwise that book |
| Libros.ActualizarLibro | src/controllers/libroController.js:132-149 | not-found iff the book is missing or inactive; otherwise each truthy text field replaces the old one, each sent nullable field or availability replaces it, and nothing else changes |
| Libros.EmptyUpdateChangesNothing | src/controllers/libroController.js:141-149 | an update with no fields returns the book and leaves the table as it was |
| Libros.EliminarLibro | src/controllers/libroController.js:168-177 | not-found iff the book is missing or inactive; otherwise only that book becomes inactive and unavailable |
| Libros.DeleteTwice | src/controllers/libroController.js:168-177 | deleting an already deleted book gives not-found and changes nothing |
| Libros.ConstruirFiltro | src/controllers/libroController.js:79-103 | each truthy text parameter becomes a search condition; availability is filtered iff it was sent, and it means available iff it was the text `true` |
| Libros.GetLibros | src/controllers/libroController.js:66-115 | validated page and limit; the total counts every matching active book; at most `limit` titles, each the title of a matching book; totalPages is the ceiling of total/limit, hasNextPage iff page < totalPages, hasPrevPage iff page > 1 |
| Libros.GetLibrosPage | src/controllers/libroController.js:104-112 | the page is the titles of the rows from the offset on of a newest-first ordering of all matches; it is full unless the matches run out |
| Libros.PastTheLastPage | src/controllers/libroController.js:104-115 | a page starting at or past the last match is empty |
| Libros.CreateLibro | src/controllers/libroController.js:5-32 | the book table and the result become those of `CrearLibro` |
| Libros.UpdateLibro | src/controllers/libroController.js:127-157 | the book table and the result become those of `ActualizarLibro` |
| Libros.DeleteLibro | src/controllers/libroController.js:164-190 | the book table and the result become those of `EliminarLibro` |
| Usuarios.PerfilDe | src/controllers/usuarioController.js:36-43 | the profile carries the row's id and every column except the credential |
| Usuarios.IndiceDeCorreo | src/controllers/usuarioController.js:16 | none iff no row has the address; otherwise the first row that has it |
| Usuarios.RolFinal | src/controllers/usuarioController.js:24 | always a valid role: the requested one when valid, `usuario` otherwise |
| Usuarios.Registrar | src/controllers/usuarioController.js:9-34 | missing data before duplicate address, both leaving the table unchanged; success appends an active row with the final role and that role's permissions |
| Usuarios.Login | src/controllers/usuarioController.js:62-92 | ordered errors: missing data, unknown address, inactive user, wrong password; success returns the id, role and permissions of the row with that address |
| Usuarios.LoginStatusAndInactive | src/controllers/usuarioController.js:69-92 | missing data answers 400, an unknown address or a wrong password 401, and an inactive account 403, the latter whatever password is given |
| Usuarios.RegisterWithoutRoleIsUsuario | src/controllers/usuarioController.js:24-33 | a registration naming no valid role stores an active `usuario` row with that role's four default permissions |
| Usuarios.LoginFindsTheOwner | src/controllers/usuarioController.js:69 | with unique addresses, a successful login is the session of the only row with that address |
| Usuarios.GetUsuarioById | src/controllers/usuarioController.js:125-139 | not-found iff no active user has that id; otherwise that user's profile |
| Usuarios.Actualizar | src/controllers/usuarioController.js:159-195 | access denied iff the caller is neither the user nor allowed to modify users, checked first; then not-found; then duplicate address; success replaces the truthy nombre, correo and contraseña sent and changes nothing else |
| Usuarios.ActualizarPermisos | src/controllers/usuarioController.js:220-246 | not-found, then invalid role; success sets the role when given, and the permissions to the array sent or else to the new role's list |
| Usuarios.Inhabilitar | src/controllers/usuarioController.js:271-299 | access denied unless owner or allowed to disable users; then not-found; success sets only `activo` to false and answers that user's id and name with `activo` false |
| Usuarios.DeactivatedIsGone | src/controllers/usuarioController.js:282-291 | after deactivation the user is not found by lookup, cannot be deactivated again, and cannot be updated |
| Usuarios.HandlersKeepCorreosUnicos | src/controllers/usuarioController.js:181-192 | registering and updating keep every address unique |
| Usuarios.Register | src/controllers/usuarioController.js:5-50 | the user table and the result become those of `Registrar` |
| Usuarios.UpdateUsuario | src/controllers/usuarioController.js:153-207 | the user table and the result become those of `Actualizar` |
| Usuarios.UpdatePermisosUsuario | src/controllers/usuarioController.js:215-258 | the user table and the result become those of `ActualizarPermisos` |
| Usuarios.DeleteUsuario | src/controllers/usuarioController.js:266-302 | the user table and the result become those of `Inhabilitar` |

## Left out

- HTTP routing, JSON bodies, the authentication middleware and JWT signing are not modelled. The caller is given as a `Common.Caller`, and a successful login returns the claims a token would carry.
- bcrypt hashing is not modelled. The stored credential stands for the hash, and the comparison is a parameter.
- The column validators are not modelled: e-mail format, password length and empty-string checks on update. Their failures surface as server errors.
- The server-error paths of the `try`/`catch` blocks are not modelled, except for the unparsable return date. The same goes for the sweep swallowing its own errors.
- The joined book and user summaries that accompany created or listed reservations are not modelled. The model returns the reservation rows with their ids.
- Libros.GetLibros: the function's own contract states the count, the page size bound, the page count and both page flags, and where each title comes from; the page's exact contents and newest-first order are stated in `Libros.GetLibrosPage`, up to the order of books created at the same instant.
- Ties in a newest-first order are not modelled. The database leaves the order of equal timestamps open, and the contracts state only the ordering and which rows appear.
- Concurrency is not modelled. Each handler is one atomic step, while the source's reserve (insert, then book update) and return (two updates) are not transactions.
- The three reads of the clock in reserve are not modelled: the handler's date check, the `isAfterToday` validator run by the insert, and the reservation timestamp. One `now` is used for all three.
- Case folding and `%` wildcard matching inside `iLike` are not modelled. They are the parameter `contiene`.
- Non-boolean `disponible` values in createLibro and updateLibro are not modelled; the model takes them as `Option<bool>`. getLibros reads `disponible` from the query string, so it is text there; the source's extra comparison with the boolean `true` cannot succeed on a query value.
- The handlers that consult the caller's own list (return, user update, deactivation) use a `seq<string>`. A non-array value, which would make `includes` throw, is not modelled.
- Usuarios.Inhabilitar: the source answers only `id`, `nombre` and `activo: false`; the model answers the whole profile of the updated row (minus the credential), and its contract states those three fields.
- `PermisosValor` arrays with non-string elements are not modelled.
- UsuarioModel.PermisosPorRol: a role string naming an inherited object member, such as `toString`, would return that member in JavaScript. The model returns the empty list for every unknown role, because both callers validate the role first.
- Pagination.BuildPaginationResponse: requires `limit >= 1`. A zero limit would give `Infinity`/`NaN` in JavaScript, but the only caller passes a validated limit.
- Pagination.TotalPages: requires `limit >= 1`, for the same reason.
- The `createdAt`/`updatedAt` columns are not modelled beyond the book's creation time, which the listing orders by.
- The OpenAPI document, server start-up, the admin seeding script and the model associations file are not part of this model.
