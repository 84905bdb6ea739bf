/** The three tables the handlers read and write. A row's id is its position
    plus one: ids are assigned by auto-increment and rows are never removed
    (users and books are deactivated, reservations are kept). */
module Store {
  import opened LibroModel
  import opened ReservaModel
  import opened UsuarioModel

  class Database {
    var libros: seq<Libro>
    var reservas: seq<Reserva>
    var usuarios: seq<Usuario>

    constructor ()
      ensures libros == [] && reservas == [] && usuarios == []
    {
      libros, reservas, usuarios := [], [], [];
    }
  }
}
