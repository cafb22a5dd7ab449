/** Mutual exclusion over keys, in every reachable state of the Planificador. */
module Exclusion {
  import opened Planificacion

  /** At most one reservation a key. */
  ghost predicate Unicas(rs: seq<Reserva>) {
    forall i, j | 0 <= i < j < |rs| :: rs[i].clave != rs[j].clave
  }

  /** In a queue the console can only be first, and then nobody owns the key. */
  ghost predicate ColaSana(s: Estado, k: string)
    requires k in s.colas
  {
    && (forall i | 0 < i < |s.colas[k]| :: s.colas[k][i] != Consola)
    && (s.colas[k] != [] && s.colas[k][0] == Consola ==> !Tomada(s, k))
    && (s.fase.Arranque? ==> forall q | q in s.colas[k] :: q == Consola)
  }

  ghost predicate Sana(s: Estado) {
    && Unicas(s.reservas)
    && (forall r | r in s.reservas :: r.clave in s.colas && r.esi != Consola)
    && (forall k | k in s.colas :: ColaSana(s, k))
    && Consola !in s.ready && Consola !in s.finalizados
    && (if s.fase.Arranque? then s.reservas == [] else s.unEsi != Consola)
  }

  lemma SacarQuita(rs: seq<Reserva>, i: nat)
    requires Unicas(rs) && i < |rs|
    ensures Unicas(Quitar(rs, i))
    ensures forall r :: r in Quitar(rs, i) <==> r in rs && r != rs[i]
  {
    var n := Quitar(rs, i);
    forall r ensures r in n <==> r in rs && r != rs[i] {
      if r in rs && r != rs[i] {
        var j :| 0 <= j < |rs| && rs[j] == r;
        assert r == n[if j < i then j else j - 1];
      }
      if r in n {
        var j :| 0 <= j < |n| && n[j] == r;
        assert r == rs[if j < i then j else j + 1];
      }
    }
  }

  /** Only the two lists and the queues matter, and the last two only as sets. */
  lemma SanaEnmarcada(s: Estado, t: Estado)
    requires Sana(s) && t.reservas == s.reservas && t.colas == s.colas
    requires forall q | q in t.ready :: q in s.ready
    requires forall q | q in t.finalizados :: q in s.finalizados || q == s.unEsi
    requires s.fase.Arranque? <==> t.fase.Arranque?
    requires t.unEsi == s.unEsi && !(s.fase.Arranque? && t.finalizados != s.finalizados)
    ensures Sana(t)
  {
    forall k | k in t.colas ensures ColaSana(t, k) { assert ColaSana(s, k); }
  }

  lemma CheckKeyReservas(s: Estado, k: string)
    requires Sana(s) && !s.fase.Arranque?
    ensures Unicas(CheckKey(s, k).reservas)
    ensures forall r | r in CheckKey(s, k).reservas :: r.clave in CheckKey(s, k).colas && r.esi != Consola
  {
    if Concede(s, k) && k in s.colas {
      forall r | r in s.reservas ensures r.clave != k { assert Tomada(s, r.clave); }
    }
  }

  lemma CheckKeySana(s: Estado, k: string)
    requires Sana(s) && !s.fase.Arranque?
    ensures Sana(CheckKey(s, k))
  {
    CheckKeyReservas(s, k);
    forall x | x in CheckKey(s, k).colas
      ensures ColaSana(CheckKey(s, k), x)
    {
      CheckKeyCola(s, k, x);
    }
  }

  lemma ConcedeCola(s: Estado, k: string, x: string)
    requires Sana(s) && !s.fase.Arranque? && Concede(s, k) && (x in s.colas || x == k)
    ensures x in CheckKey(s, k).colas && ColaSana(CheckKey(s, k), x)
  {
    var t := CheckKey(s, k);
    if x in s.colas { assert ColaSana(s, x); }
    if Tomada(t, x) && x != k { assert Tomada(s, x); }
  }

  lemma EncolaCola(s: Estado, k: string, x: string)
    requires Sana(s) && !s.fase.Arranque? && !Concede(s, k) && x in s.colas
    ensures x in CheckKey(s, k).colas && ColaSana(CheckKey(s, k), x)
  {
    assert ColaSana(s, x);
    assert CheckKey(s, k).reservas == s.reservas;
  }

  lemma CheckKeyCola(s: Estado, k: string, x: string)
    requires Sana(s) && !s.fase.Arranque? && (x in s.colas || x == k)
    ensures x in CheckKey(s, k).colas && ColaSana(CheckKey(s, k), x)
  {
    if Concede(s, k) { ConcedeCola(s, k, x); } else { EncolaCola(s, k, x); }
  }

  /** Nobody owns the key whose reservation just left; its queue is not the console's. */
  lemma PopSana(s: Estado, k: string)
    requires Sana(s) && k in s.colas && s.colas[k] != [] && s.colas[k][0] != Consola
    ensures Sana(Pop(s, k)) && !s.fase.Arranque?
  {
    var t := Pop(s, k);
    assert ColaSana(s, k);
    assert s.colas[k][0] in s.colas[k];
    forall x | x in t.colas
      ensures ColaSana(t, x)
    {
      assert ColaSana(s, x);
      assert Tomada(t, x) ==> Tomada(s, x);
    }
  }

  lemma ListarSana(c: Config, s: Estado, q: Quien)
    requires Sana(s) && q != Consola
    ensures Sana(Listar(c, s, q))
  {
    var t := Listar(c, s, q);
    forall x | x in t.colas ensures ColaSana(t, x) { assert ColaSana(s, x); assert Tomada(t, x) ==> Tomada(s, x); }
  }

  lemma DespertarSana(c: Config, s: Estado, q: Quien)
    requires Sana(s) && q != Consola && !s.fase.Arranque?
    ensures Sana(Despertar(c, s, q))
  {
    var t := Despertar(c, s, q);
    ListarSana(c, s, q);
    forall x | x in t.colas ensures ColaSana(t, x) { assert ColaSana(s, x); assert Tomada(t, x) ==> Tomada(s, x); }
  }

  /** Dropping a reservation. */
  lemma SoltarSana(s: Estado, i: nat)
    requires Sana(s) && i < |s.reservas|
    ensures var t := s.(reservas := Quitar(s.reservas, i));
            var k := s.reservas[i].clave;
            && Sana(t) && !Tomada(t, k) && k in t.colas
            && (t.colas[k] != [] ==> t.colas[k][0] != Consola)
  {
    var t, k := s.(reservas := Quitar(s.reservas, i)), s.reservas[i].clave;
    SacarQuita(s.reservas, i);
    assert s.reservas[i] in s.reservas && Tomada(s, k);
    assert ColaSana(s, k);
    forall x | x in t.colas
      ensures ColaSana(t, x)
    {
      assert ColaSana(s, x);
      assert Tomada(t, x) ==> Tomada(s, x);
    }
  }

  lemma OrdenarMiembros(c: Config, s: Estado, l: seq<Quien>, q: Quien)
    ensures q in Ordenar(c, s, l) <==> q in l
  {
    assert q in multiset(Ordenar(c, s, l)) <==> q in multiset(l);
  }

  lemma AvisarSana(c: Config, s: Estado, q: Quien)
    requires Sana(s) && q != Consola && !s.fase.Arranque?
    ensures Sana(Avisar(c, s, q))
  {
    DespertarSana(c, s, q);
    SanaEnmarcada(Despertar(c, s, q), Avisar(c, s, q));
  }

  lemma OrdenadoSana(c: Config, s: Estado)
    requires Sana(s)
    ensures Sana(Ordenado(c, s))
  {
    forall q | q in Ordenar(c, s, s.ready) ensures q in s.ready { OrdenarMiembros(c, s, s.ready, q); }
    SanaEnmarcada(s, Ordenado(c, s));
  }

  /** The head of a queue of a key nobody owns, and that the console does not hold, wakes up. */
  lemma RelevarSana(c: Config, s: Estado, k: string)
    requires Sana(s) && k in s.colas && s.colas[k] != [] && s.colas[k][0] != Consola
    ensures Sana(Avisar(c, Pop(s, k), s.colas[k][0]))
  {
    PopSana(s, k);
    AvisarSana(c, Pop(s, k), s.colas[k][0]);
  }

  lemma UnlockKeySana(c: Config, s: Estado, k: string)
    requires Sana(s)
    ensures Sana(UnlockKey(c, s, k))
  {
    if EsDuenio(s, k) {
      var i := Primera(s.reservas, Exacta(s.unEsi, k));
      SoltarSana(s, i);
      var r := s.(reservas := Sacar(s.reservas, Exacta(s.unEsi, k)));
      if r.colas[k] != [] {
        RelevarSana(c, r, k);
        OrdenadoSana(c, Avisar(c, Pop(r, k), r.colas[k][0]));
      }
    }
  }

  lemma UnlockEsiSana(c: Config, s: Estado, k: string)
    requires Sana(s) && (k in s.colas && s.colas[k] != [] ==> s.colas[k][0] != Consola)
    ensures Sana(UnlockEsi(c, s, k))
  {
    if k in s.colas && s.colas[k] != [] {
      PopSana(s, k);
      var l := Listar(c, Pop(s, k), s.colas[k][0]);
      ListarSana(c, Pop(s, k), s.colas[k][0]);
      SanaEnmarcada(l, UnlockEsi(c, s, k));
    }
  }

  lemma {:induction false} ReleaseKeysSana(c: Config, s: Estado, e: Quien)
    requires Sana(s)
    ensures Sana(ReleaseKeys(c, s, e))
    decreases |s.reservas|
  {
    var i := Primera(s.reservas, DeEsi(e));
    if i != -1 {
      var t, k := s.(reservas := Quitar(s.reservas, i)), s.reservas[i].clave;
      SoltarSana(s, i);
      UnlockEsiSana(c, t, k);
      ReleaseKeysSana(c, UnlockEsi(c, t, k), e);
    }
  }

  lemma FinishEsiSana(c: Config, s: Estado)
    requires Sana(s) && !s.fase.Arranque?
    ensures Sana(FinishEsi(c, s)) && !FinishEsi(c, s).fase.Arranque?
  {
    if !s.block {
      var f := s.(finalizados := s.finalizados + [s.unEsi]);
      SanaEnmarcada(s, f);
      if !f.abortar {
        ReleaseKeysSana(c, f, f.unEsi);
        ReleaseKeysFase(c, f, f.unEsi);
      }
      var g := if f.abortar then f else ReleaseKeys(c, f, f.unEsi);
      SanaEnmarcada(g, FinishEsi(c, s));
    }
  }

  lemma {:induction false} ReleaseKeysFase(c: Config, s: Estado, e: Quien)
    ensures var r := ReleaseKeys(c, s, e);
            r.fase == s.fase && r.unEsi == s.unEsi && r.finalizados == s.finalizados
            && r.block == s.block && r.abortar == s.abortar && r.fin == s.fin && r.recien == s.recien
            && r.numEsi == s.numEsi && r.hayEsis == s.hayEsis
    decreases |s.reservas|
  {
    var i := Primera(s.reservas, DeEsi(e));
    if i != -1 {
      ReleaseKeysFase(c, UnlockEsi(c, s.(reservas := Quitar(s.reservas, i)), s.reservas[i].clave), e);
    }
  }

  lemma PopConsola(s: Estado, k: string)
    requires Sana(s) && k in s.colas && s.colas[k] != [] && !Tomada(s, k)
    ensures Sana(Pop(s, k)) && (Pop(s, k).colas[k] != [] ==> Pop(s, k).colas[k][0] != Consola)
  {
    var t := Pop(s, k);
    assert ColaSana(s, k);
    assert forall q | q in t.colas[k] :: q in s.colas[k];
    forall x | x in t.colas
      ensures ColaSana(t, x)
    {
      assert ColaSana(s, x);
      assert Tomada(t, x) ==> Tomada(s, x);
    }
  }

  /** Dropping whatever reservation a key has. */
  lemma SoltarClave(s: Estado, k: string)
    requires Sana(s)
    ensures var r := s.(reservas := Sacar(s.reservas, DeClave(k)));
            Sana(r) && !Tomada(r, k)
  {
    var i := Primera(s.reservas, DeClave(k));
    if i != -1 { SoltarSana(s, i); }
  }

  /** What a wake-up leaves alone. */
  ghost predicate MismasMarcas(s: Estado, r: Estado) {
    && r.fase == s.fase && r.finalizados == s.finalizados && r.block == s.block
    && r.abortar == s.abortar && r.fin == s.fin && r.numEsi == s.numEsi && r.mudos == s.mudos
  }

  lemma ListarMarcas(c: Config, s: Estado, q: Quien)
    ensures MismasMarcas(s, Listar(c, s, q)) && Listar(c, s, q).hayEsis == s.hayEsis
  {}

  lemma AvisarMarcas(c: Config, s: Estado, q: Quien)
    ensures MismasMarcas(s, Avisar(c, s, q)) && Avisar(c, s, q).hayEsis == s.hayEsis + 1
  {
    ListarMarcas(c, s, q);
    var d := Despertar(c, s, q);
    assert MismasMarcas(s, d);
  }

  lemma UnlockKeyFase(c: Config, s: Estado, k: string)
    ensures MismasMarcas(s, UnlockKey(c, s, k))
  {
    var r := s.(reservas := Sacar(s.reservas, Exacta(s.unEsi, k)));
    if EsDuenio(s, k) && k in r.colas && r.colas[k] != [] {
      AvisarMarcas(c, Pop(r, k), r.colas[k][0]);
    }
  }

  lemma UnlockKeyByConsoleSana(c: Config, s: Estado, k: string)
    requires Sana(s)
    ensures Sana(UnlockKeyByConsole(c, s, k))
  {
    if k in s.colas {
      SoltarClave(s, k);
      var r := s.(reservas := Sacar(s.reservas, DeClave(k)));
      if r.colas[k] != [] {
        if r.colas[k][0] != Consola {
          RelevarSana(c, r, k);
        } else {
          PopConsola(r, k);
          var p := Pop(r, k);
          if p.colas[k] != [] { RelevarSana(c, p, k); }
        }
      }
    }
  }

  lemma WaitQuestionSana(c: Config, s: Estado, p: Pregunta)
    requires Sana(s) && s.fase.Corriendo?
    ensures Sana(WaitQuestion(c, s, p)) && WaitQuestion(c, s, p).fase.Corriendo?
  {
    match p {
      case Chequear(k) => CheckKeySana(s, k);
      case Guardar(k) => UnlockKeySana(c, s, k);
      case Poner(_) =>
      case Abortar => SanaEnmarcada(s, WaitQuestion(c, s, p));
    }
  }

  lemma PreguntadoSana(c: Config, s: Estado, p: Pregunta)
    requires Sana(s) && s.fase.Corriendo?
    ensures Sana(Preguntado(c, s, p)) && Preguntado(c, s, p).fase.Corriendo?
  {
    WaitQuestionSana(c, s, p);
    SanaEnmarcada(WaitQuestion(c, s, p), Preguntado(c, s, p));
  }

  lemma UpdateValuesSana(c: Config, s: Estado, r: Respuesta)
    requires Sana(s) && s.fase.Corriendo?
    ensures Sana(UpdateValues(c, Reportar(s, r))) && UpdateValues(c, Reportar(s, r)).fase.Corriendo?
  {
    SanaEnmarcada(s, Reportar(s, r));
    SanaEnmarcada(Reportar(s, r), UpdateValues(c, Reportar(s, r)));
  }

  lemma CerrarSana(c: Config, s: Estado, bloqueado: bool)
    requires Sana(s) && !s.fase.Arranque?
    ensures Sana(Cerrar(c, s, bloqueado))
  {
    var v := if !bloqueado then s else if s.abortar then FinishEsi(c, s) else s.(fin := true);
    if bloqueado {
      if s.abortar { FinishEsiSana(c, s); } else { SanaEnmarcada(s, v); }
    }
    if v.fin {
      FinishEsiSana(c, v);
      SanaEnmarcada(FinishEsi(c, v), FinishEsi(c, v).(fase := Esperando));
    }
  }

  lemma InstruccionSana(c: Config, s: Estado, p: Pregunta, r: Respuesta)
    requires Sana(s) && s.fase.Corriendo?
    ensures Sana(Instruccion(c, s, p, r))
  {
    PreguntadoSana(c, s, p);
    UpdateValuesSana(c, Preguntado(c, s, p), r);
    CerrarSana(c, UpdateValues(c, Reportar(Preguntado(c, s, p), r)), r.Bloqueo?);
  }

  /** Every event keeps mutual exclusion, under the three algorithms and whatever the flags. */
  lemma PasoSano(c: Config, s: Estado, ev: Evento)
    requires Sana(s) && Habilitado(s, ev)
    ensures Sana(Paso(c, s, ev))
  {
    match ev
    case Llega => NuevoSano(c, s);
    case Despacha => DespacharSano(c, s);
    case Instruye(p, r) => InstruccionSana(c, s, p, r);
    case Desbloquea(k) => UnlockKeyByConsoleSana(c, s, k);
  }

  lemma NuevoSano(c: Config, s: Estado)
    requires Sana(s)
    ensures Sana(NuevoEsi(c, s))
  {
    var t := NuevoEsi(c, s);
    forall k | k in t.colas ensures ColaSana(t, k) { assert ColaSana(s, k); assert Tomada(t, k) ==> Tomada(s, k); }
  }

  lemma DespacharSano(c: Config, s: Estado)
    requires Sana(s) && s.ready != []
    ensures Sana(Despachar(c, s))
  {
    var t := Despachar(c, s);
    var l := if s.fase.Arranque? then s.ready else Ordenar(c, s, s.ready);
    forall q | q in l ensures q in s.ready { OrdenarMiembros(c, s, s.ready, q); }
    forall k | k in t.colas ensures ColaSana(t, k) { assert ColaSana(s, k); assert Tomada(t, k) ==> Tomada(s, k); }
  }
}
