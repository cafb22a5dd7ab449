/** What each event does to the owners and to the queues of the keys, and so over every run. */
module Claves {
  import opened Planificacion
  import opened Exclusion
  import opened Lugares
  import opened SinPerdida

  // ---- owners ----

  /** Every reservation but the ones of `e`. */
  lemma {:induction false} ReleaseKeysReservas(c: Config, s: Estado, e: Quien, r: Reserva)
    ensures r in ReleaseKeys(c, s, e).reservas <==> r in s.reservas && r.esi != e
    decreases |s.reservas|
  {
    var i := Primera(s.reservas, DeEsi(e));
    if i != -1 {
      var t := s.(reservas := Quitar(s.reservas, i));
      QuitarMiembros(s.reservas, i, r);
      ReleaseKeysReservas(c, UnlockEsi(c, t, s.reservas[i].clave), e, r);
    }
  }

  lemma QuitarMiembros(rs: seq<Reserva>, i: nat, r: Reserva)
    requires i < |rs|
    ensures r in Quitar(rs, i) ==> r in rs
    ensures r in rs && r != rs[i] ==> r in Quitar(rs, i)
  {
    assert rs == rs[..i] + [rs[i]] + rs[i + 1..];
  }

  lemma SacarMiembros(rs: seq<Reserva>, f: Filtro, r: Reserva)
    requires Unicas(rs) && (f.Exacta? || f.DeClave?)
    ensures r in Sacar(rs, f) <==> r in rs && !Cumple(f, r)
  {
    var i := Primera(rs, f);
    if i != -1 {
      SacarQuita(rs, i);
      if r in rs && Cumple(f, r) {
        var j :| 0 <= j < |rs| && rs[j] == r;
        assert rs[j].clave == rs[i].clave;
      }
    }
  }

  lemma UnlockKeyReservas(c: Config, s: Estado, k: string, r: Reserva)
    requires Unicas(s.reservas)
    ensures r in UnlockKey(c, s, k).reservas <==> r in s.reservas && r != Reserva(s.unEsi, k)
  {
    SacarMiembros(s.reservas, Exacta(s.unEsi, k), r);
  }

  lemma ConsolaReservas(c: Config, s: Estado, k: string, r: Reserva)
    requires Sana(s)
    ensures r in UnlockKeyByConsole(c, s, k).reservas <==> r in s.reservas && r.clave != k
  {
    SacarMiembros(s.reservas, DeClave(k), r);
    if k in s.colas {
      ConsolaEs(c, s, k);
      var a := Liberada(s, k);
      assert a.reservas == Sacar(s.reservas, DeClave(k));
      if Despierta(s, k) { AvisarReservas(c, Pop(a, k), a.colas[k][0]); }
    } else {
      assert r in s.reservas ==> r.clave in s.colas;
    }
  }

  lemma DespertarReservas(c: Config, s: Estado, q: Quien)
    ensures Despertar(c, s, q).reservas == s.reservas && Despertar(c, s, q).colas == s.colas
  {
    var d := Estimar(Dato(s, q), c.alfa);
    assert Listar(c, s, q).reservas == s.reservas && Listar(c, s, q).colas == s.colas;
  }

  lemma AvisarReservas(c: Config, s: Estado, q: Quien)
    ensures Avisar(c, s, q).reservas == s.reservas && Avisar(c, s, q).colas == s.colas
  {
    DespertarReservas(c, s, q);
  }

  /** The event gives `k` to `o`: a GET of a key that is free. */
  predicate Otorga(s: Estado, ev: Evento, o: Quien, k: string) {
    ev.Instruye? && ev.p == Chequear(k) && Concede(s, k) && o == s.unEsi
  }

  /** The event takes `k` from `o`: a STORE by `o`, a good end of `o`, or the console. */
  predicate Suelta(c: Config, s: Estado, ev: Evento, o: Quien, k: string) {
    match ev
    case Instruye(p, r) =>
      || (p == Guardar(k) && o == s.unEsi)
      || (r.Fin? && (p.Chequear? || !s.block) && o == WaitQuestion(c, s, p).unEsi)
    case Desbloquea(x) => x == k
    case _ => false
  }

  lemma WaitQuestionReservas(c: Config, s: Estado, p: Pregunta, r: Reserva)
    requires Unicas(s.reservas)
    ensures r in WaitQuestion(c, s, p).reservas <==>
            || (r in s.reservas && p != Guardar(r.clave))
            || (r in s.reservas && r.esi != s.unEsi)
            || (p == Chequear(r.clave) && Concede(s, r.clave) && r.esi == s.unEsi)
  {
    if p.Guardar? { UnlockKeyReservas(c, s, p.clave, r); }
  }

  lemma CerrarReservas(c: Config, u: Estado, bloqueado: bool, r: Reserva)
    requires bloqueado ==> u.block
    ensures r in Cerrar(c, u, bloqueado).reservas <==>
            r in u.reservas && !(!bloqueado && u.fin && !u.block && !u.abortar && r.esi == u.unEsi)
  {
    ReleaseKeysReservas(c, u.(finalizados := u.finalizados + [u.unEsi]), u.unEsi, r);
  }

  lemma CuentaReservas(c: Config, s: Estado, p: Pregunta, a: Respuesta, r: Reserva)
    requires Sana(s) && FinBajo(s) && s.fase.Corriendo? && Compatible(s, p, a)
    ensures var w := WaitQuestion(c, s, p);
            r in Instruccion(c, s, p, a).reservas <==>
            r in w.reservas && !(a.Fin? && (p.Chequear? || !s.block) && r.esi == w.unEsi)
  {
    CuentaListas(c, s, WaitQuestion(c, s, p), a);
    ContadaBanderas(c, s, p, a);
    CerrarReservas(c, Contada(c, s, p, a), a.Bloqueo?, r);
  }

  lemma InstruccionReservas(c: Config, s: Estado, p: Pregunta, a: Respuesta, r: Reserva)
    requires Sana(s) && FinBajo(s) && s.fase.Corriendo? && Compatible(s, p, a)
    ensures r in Instruccion(c, s, p, a).reservas <==>
            && (r in s.reservas || Otorga(s, Instruye(p, a), r.esi, r.clave))
            && !Suelta(c, s, Instruye(p, a), r.esi, r.clave)
  {
    CuentaReservas(c, s, p, a, r);
    WaitQuestionReservas(c, s, p, r);
    match p {
      case Chequear(k) => assert !Suelta(c, s, Instruye(p, a), r.esi, r.clave) || a.Fin?;
      case Guardar(k) => assert !Otorga(s, Instruye(p, a), r.esi, r.clave);
      case _ => assert !Otorga(s, Instruye(p, a), r.esi, r.clave);
    }
  }

  /** The table of owners after any event, exactly: what was there or is granted now, less
      what its own ESI, or the console, lets go. */
  lemma ReservasPaso(c: Config, s: Estado, ev: Evento, r: Reserva)
    requires Sana(s) && FinBajo(s) && Habilitado(s, ev)
    ensures r in Paso(c, s, ev).reservas <==>
            && (r in s.reservas || Otorga(s, ev, r.esi, r.clave))
            && !Suelta(c, s, ev, r.esi, r.clave)
  {
    match ev
    case Llega =>
    case Despacha =>
    case Instruye(p, a) => InstruccionReservas(c, s, p, a, r);
    case Desbloquea(k) => ConsolaReservas(c, s, k, r);
  }

  // ---- grants and releases over runs ----

  ghost predicate SeSuelta(c: Config, s: Estado, evs: seq<Evento>, o: Quien, k: string)
    requires Corrida(c, s, evs)
    decreases |evs|
  {
    evs != [] && (Suelta(c, s, evs[0], o, k) || SeSuelta(c, Paso(c, s, evs[0]), evs[1..], o, k))
  }

  lemma PasoFin(c: Config, s: Estado, ev: Evento)
    requires Sana(s) && FinBajo(s) && Habilitado(s, ev)
    ensures FinBajo(Paso(c, s, ev))
  {
    match ev
    case Llega =>
    case Despacha =>
    case Instruye(p, r) => InstruccionFin(c, s, p, r);
    case Desbloquea(k) =>
      if k in s.colas {
        ConsolaEs(c, s, k);
        var a := Liberada(s, k);
        if Despierta(s, k) { AvisarMarcas(c, Pop(a, k), a.colas[k][0]); }
      }
  }

  lemma {:induction false} DuraDesde(c: Config, s: Estado, evs: seq<Evento>, o: Quien, k: string)
    requires Sana(s) && FinBajo(s) && Corrida(c, s, evs)
    requires Reserva(o, k) in s.reservas && !SeSuelta(c, s, evs, o, k)
    ensures var f := Final(c, s, evs);
            Reserva(o, k) in f.reservas && !Concede(f, k) && forall q | Reserva(q, k) in f.reservas :: q == o
    decreases |evs|
  {
    if evs != [] {
      PasoSano(c, s, evs[0]);
      PasoFin(c, s, evs[0]);
      ReservasPaso(c, s, evs[0], Reserva(o, k));
      DuraDesde(c, Paso(c, s, evs[0]), evs[1..], o, k);
    } else {
      assert Tomada(s, k);
      forall q | Reserva(q, k) in s.reservas ensures q == o { UnicoDuenio(s, q, o, k); }
    }
  }

  lemma {:induction false} FinSiempre(c: Config, s: Estado, evs: seq<Evento>)
    requires Sana(s) && FinBajo(s) && Corrida(c, s, evs)
    ensures Sana(Final(c, s, evs)) && FinBajo(Final(c, s, evs))
    decreases |evs|
  {
    if evs != [] {
      PasoSano(c, s, evs[0]);
      PasoFin(c, s, evs[0]);
      FinSiempre(c, Paso(c, s, evs[0]), evs[1..]);
    }
  }

  /** Over every run from the start, whatever ESIs it loses and under each algorithm: after any
      events `antes`, an ESI that owns a key owns it after any further events in which neither
      it nor the console lets go, and nobody else is granted it. So between two grants of a key
      there is a release. */
  lemma ReservaDura(c: Config, bloqueadas: set<string>, antes: seq<Evento>, evs: seq<Evento>, o: Quien, k: string)
    requires Corrida(c, Inicial(bloqueadas), antes)
    requires Corrida(c, Final(c, Inicial(bloqueadas), antes), evs)
    requires Reserva(o, k) in Final(c, Inicial(bloqueadas), antes).reservas
    requires !SeSuelta(c, Final(c, Inicial(bloqueadas), antes), evs, o, k)
    ensures var f := Final(c, Final(c, Inicial(bloqueadas), antes), evs);
            Reserva(o, k) in f.reservas && !Concede(f, k) && forall q | Reserva(q, k) in f.reservas :: q == o
  {
    InicialPartido(bloqueadas);
    FinSiempre(c, Inicial(bloqueadas), antes);
    DuraDesde(c, Final(c, Inicial(bloqueadas), antes), evs, o, k);
  }

  /** Between two grants of a key its first owner, or the console, let it go: if `ev` grants the
      key and after `evs` it would be granted again, `ev` itself or one of `evs` released it. */
  lemma EntreConcesiones(c: Config, bloqueadas: set<string>, antes: seq<Evento>, ev: Evento, evs: seq<Evento>,
                         o: Quien, k: string)
    requires Corrida(c, Inicial(bloqueadas), antes)
    requires var s := Final(c, Inicial(bloqueadas), antes);
             && Habilitado(s, ev) && Otorga(s, ev, o, k)
             && Corrida(c, Paso(c, s, ev), evs) && Concede(Final(c, Paso(c, s, ev), evs), k)
    ensures var s := Final(c, Inicial(bloqueadas), antes);
            Suelta(c, s, ev, o, k) || SeSuelta(c, Paso(c, s, ev), evs, o, k)
  {
    var s := Final(c, Inicial(bloqueadas), antes);
    InicialPartido(bloqueadas);
    FinSiempre(c, Inicial(bloqueadas), antes);
    PasoSano(c, s, ev);
    PasoFin(c, s, ev);
    ReservasPaso(c, s, ev, Reserva(o, k));
    if !Suelta(c, s, ev, o, k) && !SeSuelta(c, Paso(c, s, ev), evs, o, k) {
      DuraDesde(c, Paso(c, s, ev), evs, o, k);
    }
  }

  lemma UnicoDuenio(s: Estado, q: Quien, o: Quien, k: string)
    requires Sana(s) && Reserva(q, k) in s.reservas && Reserva(o, k) in s.reservas
    ensures q == o
  {
    var i :| 0 <= i < |s.reservas| && s.reservas[i] == Reserva(q, k);
    var j :| 0 <= j < |s.reservas| && s.reservas[j] == Reserva(o, k);
  }

  // ---- the queue of a key ----

  function Cola(s: Estado, k: string): seq<Quien> { if k in s.colas then s.colas[k] else [] }

  ghost predicate Sufijo(b: seq<Quien>, a: seq<Quien>) { |b| <= |a| && b == a[|a| - |b|..] }

  /** The ESIs that the event sends to the queue of `k`. */
  function Entra(s: Estado, ev: Evento, k: string): seq<Quien> {
    if ev.Instruye? && ev.p == Chequear(k) && !Concede(s, k) then [s.unEsi] else []
  }

  lemma SufijoTransitivo(a: seq<Quien>, b: seq<Quien>, d: seq<Quien>)
    requires Sufijo(b, a) && Sufijo(d, b)
    ensures Sufijo(d, a)
  {}

  lemma UnlockKeyCola(c: Config, s: Estado, k: string, x: string)
    ensures Sufijo(Cola(UnlockKey(c, s, k), x), Cola(s, x))
  {
    var r := s.(reservas := Sacar(s.reservas, Exacta(s.unEsi, k)));
    if EsDuenio(s, k) && k in r.colas && r.colas[k] != [] {
      AvisarReservas(c, Pop(r, k), r.colas[k][0]);
      assert UnlockKey(c, s, k).colas == Pop(r, k).colas;
      PopCola(r, k, x);
    } else {
      assert UnlockKey(c, s, k).colas == s.colas;
    }
  }

  lemma {:induction false} ReleaseKeysCola(c: Config, s: Estado, e: Quien, x: string)
    ensures Sufijo(Cola(ReleaseKeys(c, s, e), x), Cola(s, x))
    decreases |s.reservas|
  {
    var i := Primera(s.reservas, DeEsi(e));
    if i != -1 {
      var t := UnlockEsi(c, s.(reservas := Quitar(s.reservas, i)), s.reservas[i].clave);
      assert Sufijo(Cola(t, x), Cola(s, x));
      ReleaseKeysCola(c, t, e, x);
      SufijoTransitivo(Cola(s, x), Cola(t, x), Cola(ReleaseKeys(c, s, e), x));
    }
  }

  lemma FinishEsiCola(c: Config, s: Estado, x: string)
    ensures Sufijo(Cola(FinishEsi(c, s), x), Cola(s, x))
  {
    ReleaseKeysCola(c, s.(finalizados := s.finalizados + [s.unEsi]), s.unEsi, x);
  }

  lemma CerrarCola(c: Config, s: Estado, bloqueado: bool, x: string)
    ensures Sufijo(Cola(Cerrar(c, s, bloqueado), x), Cola(s, x))
  {
    var v := if !bloqueado then s else if s.abortar then FinishEsi(c, s) else s.(fin := true);
    FinishEsiCola(c, s, x);
    FinishEsiCola(c, v, x);
    assert Sufijo(Cola(v, x), Cola(s, x));
    SufijoTransitivo(Cola(s, x), Cola(v, x), Cola(Cerrar(c, s, bloqueado), x));
  }

  lemma CheckKeyFila(s: Estado, k: string, r: Respuesta, x: string)
    ensures Cola(CheckKey(s, k), x) == Cola(s, x) + Entra(s, Instruye(Chequear(k), r), x)
  {}

  lemma WaitQuestionCola(c: Config, s: Estado, p: Pregunta, r: Respuesta, x: string)
    ensures Sufijo(Cola(WaitQuestion(c, s, p), x), Cola(s, x) + Entra(s, Instruye(p, r), x))
  {
    match p {
      case Chequear(k) => CheckKeyFila(s, k, r, x);
      case Guardar(k) => UnlockKeyCola(c, s, k, x); SinEntrar(Cola(s, x), Entra(s, Instruye(p, r), x));
      case _ => SinEntrar(Cola(s, x), Entra(s, Instruye(p, r), x));
    }
  }

  lemma SinEntrar(a: seq<Quien>, e: seq<Quien>)
    requires e == []
    ensures a + e == a && Sufijo(a, a + e)
  {}

  lemma InstruccionCola(c: Config, s: Estado, p: Pregunta, r: Respuesta, x: string)
    ensures Sufijo(Cola(Instruccion(c, s, p, r), x), Cola(s, x) + Entra(s, Instruye(p, r), x))
  {
    var w, u := WaitQuestion(c, s, p), Contada(c, s, p, r);
    WaitQuestionCola(c, s, p, r, x);
    CuentaListas(c, s, w, r);
    CerrarCola(c, u, r.Bloqueo?, x);
    SufijoTransitivo(Cola(s, x) + Entra(s, Instruye(p, r), x), Cola(u, x), Cola(Instruccion(c, s, p, r), x));
  }

  lemma ConsolaCola(c: Config, s: Estado, k: string, x: string)
    requires Sana(s)
    ensures Sufijo(Cola(UnlockKeyByConsole(c, s, k), x), Cola(s, x))
  {
    if k in s.colas {
      ConsolaEs(c, s, k);
      var a := Liberada(s, k);
      LiberadaCola(s, k, x);
      if Despierta(s, k) { AvisarReservas(c, Pop(a, k), a.colas[k][0]); }
    }
  }

  lemma LiberadaCola(s: Estado, k: string, x: string)
    requires k in s.colas
    ensures var a := Liberada(s, k);
            && Sufijo(Cola(a, x), Cola(s, x))
            && (a.colas[k] != [] ==> Sufijo(Cola(Pop(a, k), x), Cola(s, x)))
  {
    var a, r := Liberada(s, k), s.(reservas := Sacar(s.reservas, DeClave(k)));
    if r.colas[k] != [] { PopCola(r, k, x); }
    if a.colas[k] != [] {
      PopCola(a, k, x);
      SufijoTransitivo(Cola(s, x), Cola(a, x), Cola(Pop(a, k), x));
    }
  }

  lemma PopCola(s: Estado, k: string, x: string)
    requires k in s.colas && s.colas[k] != []
    ensures Sufijo(Cola(Pop(s, k), x), Cola(s, x))
  {}

  lemma PasoCola(c: Config, s: Estado, ev: Evento, x: string)
    requires Sana(s) && Habilitado(s, ev)
    ensures Sufijo(Cola(Paso(c, s, ev), x), Cola(s, x) + Entra(s, ev, x))
  {
    match ev
    case Llega =>
    case Despacha =>
    case Instruye(p, r) => InstruccionCola(c, s, p, r, x);
    case Desbloquea(k) => ConsolaCola(c, s, k, x);
  }

  /** Those that a run sends to the queue of `k`, in order. */
  ghost function Entrados(c: Config, s: Estado, evs: seq<Evento>, k: string): seq<Quien>
    requires Corrida(c, s, evs)
    decreases |evs|
  {
    if evs == [] then [] else Entra(s, evs[0], k) + Entrados(c, Paso(c, s, evs[0]), evs[1..], k)
  }

  /** A queue is first in, first out over every run: those that were in it or came, in that
      order, are those that left followed by those that are in it now. */
  lemma {:induction false} ColaFifo(c: Config, s: Estado, evs: seq<Evento>, k: string)
    returns (salieron: seq<Quien>)
    requires Sana(s) && Corrida(c, s, evs)
    ensures Cola(s, k) + Entrados(c, s, evs, k) == salieron + Cola(Final(c, s, evs), k)
    decreases |evs|
  {
    if evs == [] {
      salieron := [];
    } else {
      var t, e := Paso(c, s, evs[0]), Entra(s, evs[0], k);
      PasoSano(c, s, evs[0]);
      PasoCola(c, s, evs[0], k);
      EntradosPaso(c, s, evs, k);
      var resto := ColaFifo(c, t, evs[1..], k);
      salieron := (Cola(s, k) + e)[..|Cola(s, k) + e| - |Cola(t, k)|] + resto;
      Cose(Cola(s, k), e, Cola(t, k), Entrados(c, t, evs[1..], k), resto, Cola(Final(c, t, evs[1..]), k));
    }
  }

  lemma EntradosPaso(c: Config, s: Estado, evs: seq<Evento>, k: string)
    requires Corrida(c, s, evs) && evs != []
    ensures var t := Paso(c, s, evs[0]);
            && Entrados(c, s, evs, k) == Entra(s, evs[0], k) + Entrados(c, t, evs[1..], k)
            && Final(c, s, evs) == Final(c, t, evs[1..])
  {}

  lemma Cose(q: seq<Quien>, e: seq<Quien>, t: seq<Quien>, r: seq<Quien>, resto: seq<Quien>, f: seq<Quien>)
    requires Sufijo(t, q + e) && t + r == resto + f
    ensures q + (e + r) == (q + e)[..|q + e| - |t|] + resto + f
  {
    var a := q + e;
    assert a == a[..|a| - |t|] + t;
    assert q + (e + r) == a + r == a[..|a| - |t|] + (t + r);
  }
}
