/** The availability invariant of the reservation engine: a book is
    unavailable exactly when a reservation on it is still open, at most one
    reservation per book is open, and every reservation names a stored book.
    The reservation operations keep it; catalog edits that write `disponible`
    directly are outside it. */
module Disponibilidad {
  import opened Common
  import opened LibroModel
  import opened ReservaModel
  import opened Reservas
  import Libros

  predicate TieneAbierta(rs: seq<Reserva>, libroId: int)
  {
    exists k :: 0 <= k < |rs| && rs[k].libroId == libroId && Abierta(rs[k])
  }

  predicate Consistente(t: Tablas)
  {
    && (forall k :: 0 <= k < |t.reservas| ==> 1 <= t.reservas[k].libroId <= |t.libros|)
    && (forall b :: 0 <= b < |t.libros| ==> (!t.libros[b].disponible <==> TieneAbierta(t.reservas, b + 1)))
    && (forall j, k :: 0 <= j < k < |t.reservas| && Abierta(t.reservas[j]) && Abierta(t.reservas[k])
          ==> t.reservas[j].libroId != t.reservas[k].libroId)
  }

  /** The empty database is consistent. */
  lemma EmptyIsConsistent()
    ensures Consistente(Tablas([], []))
  {
  }

  lemma {:induction false} CrearPreserva(t: Tablas, usuarioId: int, e: EntradaReserva, now: int)
    requires Consistente(t)
    ensures Consistente(Crear(t, usuarioId, e, now).state)
  {
    var s := Crear(t, usuarioId, e, now);
    if s.result.Ok? {
      var id := e.libroId.value;
      var rs := s.state.reservas;
      var n := |t.reservas|;
      assert rs[n].libroId == id && Abierta(rs[n]);
      // The book was available, so nothing on it was open before.
      assert !TieneAbierta(t.reservas, id);
      forall b | 0 <= b < |s.state.libros|
        ensures !s.state.libros[b].disponible <==> TieneAbierta(rs, b + 1)
      {
        if b == id - 1 {
          assert TieneAbierta(rs, b + 1);
        } else {
          assert TieneAbierta(rs, b + 1) ==> TieneAbierta(t.reservas, b + 1) by {
            if TieneAbierta(rs, b + 1) {
              var k :| 0 <= k < |rs| && rs[k].libroId == b + 1 && Abierta(rs[k]);
              assert k < n;
              assert t.reservas[k] == rs[k];
            }
          }
          assert TieneAbierta(t.reservas, b + 1) ==> TieneAbierta(rs, b + 1) by {
            if TieneAbierta(t.reservas, b + 1) {
              var k :| 0 <= k < n && t.reservas[k].libroId == b + 1 && Abierta(t.reservas[k]);
              assert rs[k] == t.reservas[k];
            }
          }
        }
      }
      forall j, k | 0 <= j < k < |rs| && Abierta(rs[j]) && Abierta(rs[k])
        ensures rs[j].libroId != rs[k].libroId
      {
        if k == n {
          assert rs[j] == t.reservas[j];
        }
      }
    }
  }

  lemma VencerPreserva(t: Tablas, now: int)
    requires Consistente(t)
    ensures Consistente(Tablas(t.libros, Vencer(t.reservas, now)))
  {
    var rs := Vencer(t.reservas, now);
    assert forall k :: 0 <= k < |rs| ==> (Abierta(rs[k]) <==> Abierta(t.reservas[k]));
    forall lid | 1 <= lid <= |t.libros|
      ensures TieneAbierta(rs, lid) <==> TieneAbierta(t.reservas, lid)
    {
      if TieneAbierta(rs, lid) {
        var k :| 0 <= k < |rs| && rs[k].libroId == lid && Abierta(rs[k]);
        assert t.reservas[k].libroId == lid && Abierta(t.reservas[k]);
      }
      if TieneAbierta(t.reservas, lid) {
        var k :| 0 <= k < |rs| && t.reservas[k].libroId == lid && Abierta(t.reservas[k]);
        assert rs[k].libroId == lid && Abierta(rs[k]);
      }
    }
  }

  lemma {:induction false} DevolverPreserva(t: Tablas, actor: Caller, id: int, now: int)
    requires Consistente(t)
    ensures Consistente(Devolver(t, actor, id, now).state)
  {
    var s := Devolver(t, actor, id, now);
    if s.result.Ok? {
      var i := id - 1;
      var b0 := t.reservas[i].libroId - 1;
      var rs := s.state.reservas;
      assert 0 <= b0 < |t.libros|;
      assert !Abierta(rs[i]);
      forall b | 0 <= b < |s.state.libros|
        ensures !s.state.libros[b].disponible <==> TieneAbierta(rs, b + 1)
      {
        if b == b0 {
          // The returned row was the only open one on its book.
          assert !TieneAbierta(rs, b + 1);
        } else {
          assert TieneAbierta(rs, b + 1) ==> TieneAbierta(t.reservas, b + 1) by {
            if TieneAbierta(rs, b + 1) {
              var k :| 0 <= k < |rs| && rs[k].libroId == b + 1 && Abierta(rs[k]);
              assert k != i;
              assert t.reservas[k] == rs[k];
            }
          }
          assert TieneAbierta(t.reservas, b + 1) ==> TieneAbierta(rs, b + 1) by {
            if TieneAbierta(t.reservas, b + 1) {
              var k :| 0 <= k < |rs| && t.reservas[k].libroId == b + 1 && Abierta(t.reservas[k]);
              assert k != i;
              assert rs[k] == t.reservas[k];
            }
          }
        }
      }
    }
  }

  /** Under the invariant the duplicate check never fires: an available book has no open row. */
  lemma {:induction false} DuplicadaInalcanzable(t: Tablas, usuarioId: int, e: EntradaReserva, now: int)
    requires Consistente(t)
    ensures Crear(t, usuarioId, e, now).result != Err(ReservaDuplicada)
  {
    if !Incompleta(e) && !NoFutura(e, now) && LibroActivo(t.libros, e.libroId.value).Some?
       && t.libros[e.libroId.value - 1].disponible
    {
      var id := e.libroId.value;
      assert !TieneAbierta(t.reservas, id);
    }
  }

  /** A second return of the same reservation fails and leaves both tables as they are. */
  lemma SecondReturnFails(t: Tablas, actor: Caller, id: int, now: int, later: int)
    requires Devolver(t, actor, id, now).result.Ok?
    ensures var s := Devolver(t, actor, id, now);
            Devolver(s.state, actor, id, later) == Step(s.state, Err(ReservaYaDevuelta))
  {
  }

  /** The allowed moves of one row: active to overdue, active or overdue to returned. */
  predicate Transicion(a: Estado, b: Estado)
  {
    a == b || (a == Activa && b == Vencida) || (a != Devuelta && b == Devuelta)
  }

  /** How the reservation table may change under the engine's operations: rows
      are only appended, appended rows are active, reservation data is fixed,
      states move forward only, and a returned row never changes again. */
  predicate Evoluciona(antes: seq<Reserva>, despues: seq<Reserva>)
  {
    && |antes| <= |despues|
    && (forall k :: |antes| <= k < |despues| ==> despues[k].estado == Activa && despues[k].fechaEntregaReal.None?)
    && (forall k :: 0 <= k < |antes| ==>
          && Transicion(antes[k].estado, despues[k].estado)
          && despues[k].usuarioId == antes[k].usuarioId && despues[k].libroId == antes[k].libroId
          && despues[k].fechaReserva == antes[k].fechaReserva
          && despues[k].fechaEntregaPrevista == antes[k].fechaEntregaPrevista
          && (antes[k].estado == Devuelta ==> despues[k] == antes[k]))
  }

  lemma OperacionesEvolucionan(t: Tablas, usuarioId: int, e: EntradaReserva, actor: Caller, id: int, now: int)
    ensures Evoluciona(t.reservas, Crear(t, usuarioId, e, now).state.reservas)
    ensures Evoluciona(t.reservas, Vencer(t.reservas, now))
    ensures Evoluciona(t.reservas, Devolver(t, actor, id, now).state.reservas)
  {
  }

  /** Adding a book that starts available keeps the invariant; one created
      with `disponible: false` would break it. */
  lemma {:induction false} CrearLibroPreserva(t: Tablas, e: Libros.EntradaLibro, now: int)
    requires Consistente(t) && e.disponible != Some(false)
    ensures Consistente(Tablas(Libros.CrearLibro(t.libros, e, now).state, t.reservas))
  {
    var ls := Libros.CrearLibro(t.libros, e, now).state;
    if Libros.CrearLibro(t.libros, e, now).result.Ok? {
      var n := |t.libros|;
      assert ls[n].disponible;
      assert !TieneAbierta(t.reservas, n + 1);
      forall b | 0 <= b < n ensures ls[b] == t.libros[b] { }
    }
  }

  /** A reservation, an attempt to reserve the same book again, and the return. */
  lemma ReserveRetryReturn()
    ensures var libro := Libro("Rayuela", "Cortazar", "novela", None, None, true, true, 0);
            var t0 := Tablas([libro], []);
            var e := EntradaReserva(Some(1), Fecha(200));
            var s1 := Crear(t0, 7, e, 100);
            var s2 := Crear(s1.state, 7, e, 150);
            var s3 := Devolver(s1.state, Caller(7, "usuario", []), 1, 200);
            && s1.result == Ok(Creada(1, Reserva(7, 1, 100, 200, None, Activa)))
            && !s1.state.libros[0].disponible
            && s2 == Step(s1.state, Err(NoDisponible))
            && s3.result.Ok? && !s3.result.value.entregaTardia
            && s3.state.libros[0].disponible
            && s3.state.reservas[0].estado == Devuelta
  {
  }

  /** A book update that marks a reserved book available again breaks the
      invariant, and then the same reservation request reaches the duplicate check. */
  lemma ManualReleaseReachesDuplicate()
    ensures var libro := Libro("Rayuela", "Cortazar", "novela", None, None, true, true, 0);
            var t0 := Tablas([libro], []);
            var e := EntradaReserva(Some(1), Fecha(200));
            var s1 := Crear(t0, 7, e, 100);
            var u := Libros.ActualizarLibro(s1.state.libros, 1,
                       Libros.CambiosLibro(None, None, None, None, None, Some(true)));
            var t2 := Tablas(u.state, s1.state.reservas);
            && s1.result.Ok? && u.result.Ok?
            && !Consistente(t2)
            && Crear(t2, 7, e, 150) == Step(t2, Err(ReservaDuplicada))
  {
    var libro := Libro("Rayuela", "Cortazar", "novela", None, None, true, true, 0);
    var s1 := Crear(Tablas([libro], []), 7, EntradaReserva(Some(1), Fecha(200)), 100);
    var u := Libros.ActualizarLibro(s1.state.libros, 1, Libros.CambiosLibro(None, None, None, None, None, Some(true)));
    var t2 := Tablas(u.state, s1.state.reservas);
    assert s1.state.reservas == [Reserva(7, 1, 100, 200, None, Activa)];
    assert t2.reservas[0].usuarioId == 7 && t2.reservas[0].libroId == 1 && Abierta(t2.reservas[0]);
    assert TieneAbierta(t2.reservas, 1) && t2.libros[0].disponible;
    assert TieneReservaActiva(t2.reservas, 7, 1);
  }
}
