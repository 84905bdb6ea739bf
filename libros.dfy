/** The catalog controller: create with defaults, lookup, partial update,
    soft delete, and the filtered, paginated listing. */
module Libros {
  import opened Common
  import opened Queries
  import opened Pagination
  import opened LibroModel
  import opened Store

  /** The body of a create request. */
  datatype EntradaLibro = EntradaLibro(
    titulo: Option<string>, autor: Option<string>, genero: Option<string>,
    fechaPublicacion: Option<string>, casaEditorial: Option<string>,
    disponible: Option<bool>)

  datatype Creado = Creado(id: nat, libro: Libro)

  /** `x || null` on an optional text field. */
  function OrNull(s: Option<string>): (r: Option<string>)
    ensures r.Some? <==> Dado(s)
    ensures r.Some? ==> r == s
  {
    if Dado(s) then s else None
  }

  /** createLibro. */
  function CrearLibro(libros: seq<Libro>, e: EntradaLibro, now: int): (s: Step<seq<Libro>, Creado>)
    ensures s.result.Err? <==> !Dado(e.titulo) || !Dado(e.autor) || !Dado(e.genero)
    ensures s.result.Err? ==> s.result.error == DatosIncompletos && s.state == libros
    ensures s.result.Ok? ==>
            var b := s.result.value.libro;
            && s.result.value.id == |libros| + 1
            && s.state == libros + [b]
            && b.titulo == e.titulo.value && b.autor == e.autor.value && b.genero == e.genero.value
            && b.activo
            && (b.disponible <==> e.disponible != Some(false))
            && (b.fechaPublicacion.None? <==> !Dado(e.fechaPublicacion))
            && (b.fechaPublicacion.Some? ==> b.fechaPublicacion == e.fechaPublicacion)
            && (b.casaEditorial.None? <==> !Dado(e.casaEditorial))
            && (b.casaEditorial.Some? ==> b.casaEditorial == e.casaEditorial)
            && b.creadoEn == now
  {
    if !Dado(e.titulo) || !Dado(e.autor) || !Dado(e.genero) then Step(libros, Err(DatosIncompletos))
    else
      var disponible := if e.disponible.Some? then e.disponible.value else true;
      var b := Libro(e.titulo.value, e.autor.value, e.genero.value,
                     OrNull(e.fechaPublicacion), OrNull(e.casaEditorial), disponible, true, now);
      Step(libros + [b], Ok(Creado(|libros| + 1, b)))
  }

  /** getLibroById: a deactivated book is not found. */
  function GetLibroById(libros: seq<Libro>, id: int): (r: Result<Libro>)
    ensures r.Ok? <==> 1 <= id <= |libros| && libros[id - 1].activo
    ensures r.Ok? ==> r.value == libros[id - 1]
    ensures r.Err? ==> r.error == NoEncontrado
  {
    match LibroActivo(libros, id)
    case None => Err(NoEncontrado)
    case Some(b) => Ok(b)
  }

  /** The body of an update request. The outer `None` of the two nullable
      fields means "not sent"; `Some(None)` is an explicit null. */
  datatype CambiosLibro = CambiosLibro(
    titulo: Option<string>, autor: Option<string>, genero: Option<string>,
    fechaPublicacion: Option<Option<string>>, casaEditorial: Option<Option<string>>,
    disponible: Option<bool>)

  /** `if (x) datos.x = x`: a truthy text replaces the stored one. */
  function SiDado(nuevo: Option<string>, actual: string): (r: string)
    ensures Dado(nuevo) ==> r == nuevo.value
    ensures !Dado(nuevo) ==> r == actual
  {
    if Dado(nuevo) then nuevo.value else actual
  }

  /** `if (x !== undefined) datos.x = x`. */
  function SiEnviado<T>(nuevo: Option<T>, actual: T): (r: T)
    ensures nuevo.Some? ==> r == nuevo.value
    ensures nuevo.None? ==> r == actual
  {
    if nuevo.Some? then nuevo.value else actual
  }

  /** updateLibro: only the supplied fields of an active book change. */
  function ActualizarLibro(libros: seq<Libro>, id: int, c: CambiosLibro): (s: Step<seq<Libro>, Libro>)
    ensures s.result.Err? <==> LibroActivo(libros, id).None?
    ensures s.result.Err? ==> s.result.error == NoEncontrado && s.state == libros
    ensures s.result.Ok? ==>
            var a := libros[id - 1];
            var b := s.result.value;
            && s.state == libros[id - 1 := b]
            && b.titulo == SiDado(c.titulo, a.titulo)
            && b.autor == SiDado(c.autor, a.autor)
            && b.genero == SiDado(c.genero, a.genero)
            && b.fechaPublicacion == SiEnviado(c.fechaPublicacion, a.fechaPublicacion)
            && b.casaEditorial == SiEnviado(c.casaEditorial, a.casaEditorial)
            && b.disponible == SiEnviado(c.disponible, a.disponible)
            && b.activo && b.creadoEn == a.creadoEn
  {
    match LibroActivo(libros, id)
    case None => Step(libros, Err(NoEncontrado))
    case Some(a) =>
      var b := a.(titulo := SiDado(c.titulo, a.titulo),
                  autor := SiDado(c.autor, a.autor),
                  genero := SiDado(c.genero, a.genero),
                  fechaPublicacion := SiEnviado(c.fechaPublicacion, a.fechaPublicacion),
                  casaEditorial := SiEnviado(c.casaEditorial, a.casaEditorial),
                  disponible := SiEnviado(c.disponible, a.disponible));
      Step(libros[id - 1 := b], Ok(b))
  }

  /** An update that sends nothing leaves the table as it was. */
  lemma EmptyUpdateChangesNothing(libros: seq<Libro>, id: int)
    ensures ActualizarLibro(libros, id, CambiosLibro(None, None, None, None, None, None)).state == libros
  {
  }

  /** deleteLibro: the soft delete clears both flags. */
  function EliminarLibro(libros: seq<Libro>, id: int): (s: Step<seq<Libro>, Libro>)
    ensures s.result.Err? <==> LibroActivo(libros, id).None?
    ensures s.result.Err? ==> s.result.error == NoEncontrado && s.state == libros
    ensures s.result.Ok? ==>
            && s.result.value == libros[id - 1].(activo := false, disponible := false)
            && s.state == libros[id - 1 := s.result.value]
  {
    match LibroActivo(libros, id)
    case None => Step(libros, Err(NoEncontrado))
    case Some(a) =>
      var b := a.(activo := false, disponible := false);
      Step(libros[id - 1 := b], Ok(b))
  }

  /** Deleting twice: the second attempt finds nothing and changes nothing, and
      the deleted book is no longer visible. */
  lemma {:induction false} DeleteTwice(libros: seq<Libro>, id: int)
    requires EliminarLibro(libros, id).result.Ok?
    ensures var s := EliminarLibro(libros, id).state;
            EliminarLibro(s, id) == Step(s, Err(NoEncontrado)) && GetLibroById(s, id) == Err(NoEncontrado)
  {
    var s := EliminarLibro(libros, id).state;
    assert !s[id - 1].activo;
  }

  /** The query string of getLibros; `page` and `limit` are `parseInt` results. */
  datatype ConsultaLibros = ConsultaLibros(
    genero: Option<string>, autor: Option<string>, nombre: Option<string>,
    casaEditorial: Option<string>, fechaPublicacion: Option<string>,
    disponible: Option<string>, page: Option<int>, limit: Option<int>)

  /** The `where` object, beyond `activo: true` which is always present. Text
      fields hold the pattern of an `iLike '%...%'`. */
  datatype Filtro = Filtro(
    genero: Option<string>, autor: Option<string>, titulo: Option<string>,
    casaEditorial: Option<string>, fechaPublicacion: Option<string>,
    disponible: Option<bool>)

  function ConstruirFiltro(q: ConsultaLibros): (f: Filtro)
    ensures f.genero == OrNull(q.genero) && f.autor == OrNull(q.autor)
    ensures f.titulo == OrNull(q.nombre) && f.casaEditorial == OrNull(q.casaEditorial)
    ensures f.fechaPublicacion == OrNull(q.fechaPublicacion)
    ensures f.disponible.Some? <==> q.disponible.Some?
    ensures f.disponible == Some(true) <==> q.disponible == Some("true")
  {
    Filtro(OrNull(q.genero), OrNull(q.autor), OrNull(q.nombre), OrNull(q.casaEditorial),
           OrNull(q.fechaPublicacion),
           if q.disponible.Some? then Some(q.disponible.value == "true") else None)
  }

  /** A row matches the `where` object: every present condition holds, and the
      book is active. `contiene(campo, patron)` stands for the case-insensitive
      substring test of `iLike`; a null column never matches. */
  predicate Cumple(b: Libro, f: Filtro, contiene: (string, string) -> bool)
  {
    && b.activo
    && (f.genero.Some? ==> contiene(b.genero, f.genero.value))
    && (f.autor.Some? ==> contiene(b.autor, f.autor.value))
    && (f.titulo.Some? ==> contiene(b.titulo, f.titulo.value))
    && (f.casaEditorial.Some? ==> b.casaEditorial.Some? && contiene(b.casaEditorial.value, f.casaEditorial.value))
    && (f.fechaPublicacion.Some? ==> b.fechaPublicacion == f.fechaPublicacion)
    && (f.disponible.Some? ==> b.disponible == f.disponible.value)
  }

  function Titulos(bs: seq<Libro>): (r: seq<string>)
    ensures |r| == |bs| && forall i :: 0 <= i < |bs| ==> r[i] == bs[i].titulo
  {
    seq(|bs|, i requires 0 <= i < |bs| => bs[i].titulo)
  }

  /** getLibros: filter, newest first, one page of titles, with the count of all matches. */
  function GetLibros(libros: seq<Libro>, q: ConsultaLibros, contiene: (string, string) -> bool): (r: Paginated<string>)
    ensures r.pagination.page == ValidPage(q.page) && r.pagination.limit == ValidLimit(q.limit)
    ensures r.pagination.total == |Filter(libros, (b: Libro) => Cumple(b, ConstruirFiltro(q), contiene))|
    ensures |r.data| <= r.pagination.limit
    ensures r.pagination.totalPages == TotalPages(r.pagination.total, r.pagination.limit)
    ensures r.pagination.hasNextPage <==> r.pagination.page < r.pagination.totalPages
    ensures r.pagination.hasPrevPage <==> r.pagination.page > 1
    ensures forall t :: t in r.data ==>
              exists k :: 0 <= k < |libros| && libros[k].titulo == t && Cumple(libros[k], ConstruirFiltro(q), contiene)
  {
    var f := ConstruirFiltro(q);
    var p := GetPaginationParams(q.page, q.limit);
    var matching := Filter(libros, (b: Libro) => Cumple(b, f, contiene));
    var ordered := SortDesc(matching, (b: Libro) => b.creadoEn);
    var page := Page(ordered, p.offset, p.limit);
    var titles := Titulos(page);
    TitulosDeCoincidencias(libros, (b: Libro) => Cumple(b, f, contiene), ordered, p.offset, p.limit);
    BuildPaginationResponse(titles, |matching|, p.page, p.limit)
  }

  /** Every title on a page of a rearrangement of the matches is the title of a matching row. */
  lemma TitulosDeCoincidencias(libros: seq<Libro>, ok: Libro -> bool, ordered: seq<Libro>, offset: int, limit: int)
    requires offset >= 0 && limit >= 1
    requires multiset(ordered) == multiset(Filter(libros, ok))
    ensures forall t :: t in Titulos(Page(ordered, offset, limit)) ==>
              exists k :: 0 <= k < |libros| && libros[k].titulo == t && ok(libros[k])
  {
    var matching := Filter(libros, ok);
    var titles := Titulos(Page(ordered, offset, limit));
    forall t | t in titles
      ensures exists k :: 0 <= k < |libros| && libros[k].titulo == t && ok(libros[k])
    {
      var i :| 0 <= i < |titles| && titles[i] == t;
      var b := ordered[offset + i];
      assert b in multiset(ordered);
      assert b in matching;
      var k :| 0 <= k < |libros| && libros[k] == b;
    }
  }

  /** The newest-first order of the matches by creation time. */
  ghost predicate Ordenadas(o: seq<Libro>, matching: seq<Libro>)
  {
    SortedDesc(o, (b: Libro) => b.creadoEn) && multiset(o) == multiset(matching)
  }

  /** The page holds the titles of consecutive rows of a newest-first ordering
      of every match, starting at the page's offset; it is full unless the
      matches run out first. */
  lemma GetLibrosPage(libros: seq<Libro>, q: ConsultaLibros, contiene: (string, string) -> bool)
    ensures var r := GetLibros(libros, q, contiene);
            var p := GetPaginationParams(q.page, q.limit);
            var matching := Filter(libros, (b: Libro) => Cumple(b, ConstruirFiltro(q), contiene));
            && (p.offset < |matching| ==>
                  |r.data| == if p.offset + p.limit <= |matching| then p.limit else |matching| - p.offset)
            && exists o :: Ordenadas(o, matching) && r.data == Titulos(Page(o, p.offset, p.limit))
  {
    var f := ConstruirFiltro(q);
    var p := GetPaginationParams(q.page, q.limit);
    var matching := Filter(libros, (b: Libro) => Cumple(b, f, contiene));
    var ordered := SortDesc(matching, (b: Libro) => b.creadoEn);
    assert Ordenadas(ordered, matching);
    assert GetLibros(libros, q, contiene).data == Titulos(Page(ordered, p.offset, p.limit));
  }

  /** A page that starts at or beyond the last match comes back empty, with the
      total still counting every match. */
  lemma PastTheLastPage(libros: seq<Libro>, q: ConsultaLibros, contiene: (string, string) -> bool)
    requires var r := GetLibros(libros, q, contiene);
             (r.pagination.page - 1) * r.pagination.limit >= r.pagination.total
    ensures GetLibros(libros, q, contiene).data == []
  {
    var f := ConstruirFiltro(q);
    var p := GetPaginationParams(q.page, q.limit);
    var matching := Filter(libros, (b: Libro) => Cumple(b, f, contiene));
    var ordered := SortDesc(matching, (b: Libro) => b.creadoEn);
    assert Page(ordered, p.offset, p.limit) == [];
  }

  // ---------------------------------------------------------------------------
  // The handlers over the database.

  method CreateLibro(db: Database, e: EntradaLibro, now: int) returns (r: Result<Creado>)
    modifies db`libros
    ensures Step(db.libros, r) == CrearLibro(old(db.libros), e, now)
  {
    if !Dado(e.titulo) || !Dado(e.autor) || !Dado(e.genero) {
      return Err(DatosIncompletos);
    }
    var disponible := if e.disponible.Some? then e.disponible.value else true;
    var b := Libro(e.titulo.value, e.autor.value, e.genero.value,
                   OrNull(e.fechaPublicacion), OrNull(e.casaEditorial), disponible, true, now);
    db.libros := db.libros + [b];
    r := Ok(Creado(|db.libros|, b));
  }

  method UpdateLibro(db: Database, id: int, c: CambiosLibro) returns (r: Result<Libro>)
    modifies db`libros
    ensures Step(db.libros, r) == ActualizarLibro(old(db.libros), id, c)
  {
    if !(1 <= id <= |db.libros|) || !db.libros[id - 1].activo {
      return Err(NoEncontrado);
    }
    var b := db.libros[id - 1];
    if Dado(c.titulo) { b := b.(titulo := c.titulo.value); }
    if Dado(c.autor) { b := b.(autor := c.autor.value); }
    if Dado(c.genero) { b := b.(genero := c.genero.value); }
    if c.fechaPublicacion.Some? { b := b.(fechaPublicacion := c.fechaPublicacion.value); }
    if c.casaEditorial.Some? { b := b.(casaEditorial := c.casaEditorial.value); }
    if c.disponible.Some? { b := b.(disponible := c.disponible.value); }
    db.libros := db.libros[id - 1 := b];
    r := Ok(b);
  }

  method DeleteLibro(db: Database, id: int) returns (r: Result<Libro>)
    modifies db`libros
    ensures Step(db.libros, r) == EliminarLibro(old(db.libros), id)
  {
    if !(1 <= id <= |db.libros|) || !db.libros[id - 1].activo {
      return Err(NoEncontrado);
    }
    var b := db.libros[id - 1].(activo := false, disponible := false);
    db.libros := db.libros[id - 1 := b];
    r := Ok(b);
  }
}
