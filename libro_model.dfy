/** The book record of the catalog. */
module LibroModel {
  import opened Common

  /** A row of the `libros` table; `creadoEn` is the `createdAt` timestamp. */
  datatype Libro = Libro(
    titulo: string, autor: string, genero: string,
    fechaPublicacion: Option<string>, casaEditorial: Option<string>,
    disponible: bool, activo: bool, creadoEn: int)

  /** `findOne({ where: { id, activo: true } })`: ids are positions plus one. */
  function LibroActivo(libros: seq<Libro>, id: int): (r: Option<Libro>)
    ensures r.Some? <==> 1 <= id <= |libros| && libros[id - 1].activo
    ensures r.Some? ==> r.value == libros[id - 1]
  {
    if 1 <= id <= |libros| && libros[id - 1].activo then Some(libros[id - 1]) else None
  }
}
