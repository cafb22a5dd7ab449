/** hay_esis against the ready list, and which ESI a dispatch takes. */
module Despacho {
  import opened Planificacion
  import opened Exclusion
  import opened Lugares
  import opened SinPerdida

  /** Ready ESIs that no post of hay_esis announced. */
  function Callados(s: Estado): int { |s.ready| - s.hayEsis }

  /** Before the first dispatch the ready list holds the ESIs in the order they came. */
  ghost predicate EnOrden(s: Estado) {
    s.fase.Arranque? ==> |s.ready| == s.numEsi && forall i | 0 <= i < s.numEsi :: s.ready[i] == Esi(i + 1)
  }

  ghost predicate Contado(s: Estado) { s.hayEsis >= 0 && Callados(s) == s.mudos && EnOrden(s) }

  /** The same number of unannounced ESIs, and of wake-ups without a post. */
  ghost predicate Parejo(s: Estado, t: Estado) {
    Callados(t) - t.mudos == Callados(s) - s.mudos && t.hayEsis >= s.hayEsis && t.mudos >= s.mudos
  }

  lemma AvisarParejo(c: Config, s: Estado, q: Quien)
    ensures Parejo(s, Avisar(c, s, q)) && Avisar(c, s, q).mudos == s.mudos
  {
    AvisarMarcas(c, s, q);
    assert |Avisar(c, s, q).ready| == |s.ready| + 1;
  }

  lemma OrdenarLargo(c: Config, s: Estado, l: seq<Quien>)
    ensures |Ordenar(c, s, l)| == |l|
  {
    assert |multiset(l)| == |l| && |multiset(Ordenar(c, s, l))| == |Ordenar(c, s, l)|;
  }

  lemma UnlockKeyParejo(c: Config, s: Estado, k: string)
    ensures Parejo(s, UnlockKey(c, s, k)) && UnlockKey(c, s, k).mudos == s.mudos
  {
    var r := s.(reservas := Sacar(s.reservas, Exacta(s.unEsi, k)));
    if EsDuenio(s, k) && k in r.colas && r.colas[k] != [] {
      var a := Avisar(c, Pop(r, k), r.colas[k][0]);
      AvisarParejo(c, Pop(r, k), r.colas[k][0]);
      OrdenarLargo(c, a, a.ready);
    }
  }

  lemma {:induction false} ReleaseKeysParejo(c: Config, s: Estado, e: Quien)
    ensures Parejo(s, ReleaseKeys(c, s, e))
    decreases |s.reservas|
  {
    var i := Primera(s.reservas, DeEsi(e));
    if i != -1 {
      var t := s.(reservas := Quitar(s.reservas, i));
      ReleaseKeysParejo(c, UnlockEsi(c, t, s.reservas[i].clave), e);
    }
  }

  lemma FinishEsiParejo(c: Config, s: Estado)
    ensures Parejo(s, FinishEsi(c, s))
  {
    ReleaseKeysParejo(c, s.(finalizados := s.finalizados + [s.unEsi]), s.unEsi);
  }

  lemma WaitQuestionParejo(c: Config, s: Estado, p: Pregunta)
    ensures Parejo(s, WaitQuestion(c, s, p)) && WaitQuestion(c, s, p).mudos == s.mudos
  {
    if p.Guardar? { UnlockKeyParejo(c, s, p.clave); }
  }

  lemma CerrarParejo(c: Config, s: Estado, bloqueado: bool)
    ensures Parejo(s, Cerrar(c, s, bloqueado))
  {
    var v := if !bloqueado then s else if s.abortar then FinishEsi(c, s) else s.(fin := true);
    FinishEsiParejo(c, s);
    FinishEsiParejo(c, v);
  }

  lemma MarcasParejo(c: Config, s: Estado, q: Estado, r: Respuesta)
    ensures Parejo(q, UpdateValues(c, Reportar(Estrenar(s, q), r)))
  {
    CuentaListas(c, s, q, r);
  }

  lemma InstruccionParejo(c: Config, s: Estado, p: Pregunta, r: Respuesta)
    ensures Parejo(s, Instruccion(c, s, p, r))
  {
    var w := WaitQuestion(c, s, p);
    WaitQuestionParejo(c, s, p);
    MarcasParejo(c, s, w, r);
    CerrarParejo(c, UpdateValues(c, Reportar(Estrenar(s, w), r)), r.Bloqueo?);
  }

  lemma ConsolaParejo(c: Config, s: Estado, k: string)
    ensures Parejo(s, UnlockKeyByConsole(c, s, k)) && UnlockKeyByConsole(c, s, k).mudos == s.mudos
  {
    if k in s.colas {
      var a := Liberada(s, k);
      if Despierta(s, k) { AvisarParejo(c, Pop(a, k), a.colas[k][0]); }
      var r := s.(reservas := Sacar(s.reservas, DeClave(k)));
      if r.colas[k] != [] && r.colas[k][0] != Consola { AvisarParejo(c, Pop(r, k), r.colas[k][0]); }
    }
  }

  lemma ConsolaFase(c: Config, s: Estado, k: string)
    requires Sana(s)
    ensures UnlockKeyByConsole(c, s, k).fase == s.fase && UnlockKeyByConsole(c, s, k).numEsi == s.numEsi
  {
    if k in s.colas {
      ConsolaEs(c, s, k);
      var a := Liberada(s, k);
      if Despierta(s, k) { AvisarMarcas(c, Pop(a, k), a.colas[k][0]); }
    }
  }

  lemma ConsolaNoDespierta(c: Config, s: Estado, k: string)
    requires Sana(s) && s.fase.Arranque?
    ensures UnlockKeyByConsole(c, s, k).ready == s.ready
  {
    if k in s.colas { ConsolaEs(c, s, k); }
  }

  /** Before the first dispatch the console wakes nobody, so the order of arrival stands. */
  lemma ConsolaEnOrden(c: Config, s: Estado, k: string)
    requires Sana(s) && EnOrden(s)
    ensures EnOrden(UnlockKeyByConsole(c, s, k))
  {
    ConsolaFase(c, s, k);
    if s.fase.Arranque? { ConsolaNoDespierta(c, s, k); }
  }

  lemma InstruccionArranca(c: Config, s: Estado, p: Pregunta, r: Respuesta)
    requires Sana(s) && s.fase.Corriendo?
    ensures !Instruccion(c, s, p, r).fase.Arranque?
  {
    PreguntadoSana(c, s, p);
    UpdateValuesSana(c, Preguntado(c, s, p), r);
    var u := UpdateValues(c, Reportar(Preguntado(c, s, p), r));
    if r.Bloqueo? && u.abortar { FinishEsiSana(c, u); }
  }

  /** In every step the list and the semaphore drift apart by the silent wake-ups alone. */
  lemma PasoContado(c: Config, s: Estado, ev: Evento)
    requires Sana(s) && Contado(s) && Habilitado(s, ev)
    ensures Contado(Paso(c, s, ev)) && Paso(c, s, ev).mudos >= s.mudos
  {
    match ev
    case Llega =>
    case Despacha =>
      OrdenarLargo(c, s, s.ready);
    case Instruye(p, r) =>
      InstruccionParejo(c, s, p, r);
      InstruccionArranca(c, s, p, r);
    case Desbloquea(k) =>
      ConsolaParejo(c, s, k);
      ConsolaEnOrden(c, s, k);
  }

  /** In every reachable state hay_esis is the ready list less the silent wake-ups, so a
      dispatch that the semaphore lets through finds the list non-empty. */
  lemma {:induction false} ContadoSiempre(c: Config, s: Estado, evs: seq<Evento>)
    requires Sana(s) && Contado(s) && Corrida(c, s, evs)
    ensures var f := Final(c, s, evs);
            && 0 <= f.hayEsis <= |f.ready| && |f.ready| - f.hayEsis == f.mudos
            && (Habilitado(f, Despacha) <==> !f.fase.Corriendo? && f.hayEsis > 0)
            && Contado(f)
    decreases |evs|
  {
    if evs != [] {
      PasoSano(c, s, evs[0]);
      PasoContado(c, s, evs[0]);
      ContadoSiempre(c, Paso(c, s, evs[0]), evs[1..]);
    }
  }

  /** What holds after any run of any events from a start with any keys blocked by
      configuration, whatever the algorithm and the flags: a key has at most one owner; an owned
      key has its queue, so that unlock_key and unlock_esi find it; the console is only at the
      head of the queue of a key nobody owns, and is never ready nor running; and hay_esis
      never promises more ready ESIs than there are. */
  lemma PlanificadorSiempre(c: Config, bloqueadas: set<string>, evs: seq<Evento>)
    requires Corrida(c, Inicial(bloqueadas), evs)
    ensures var f := Final(c, Inicial(bloqueadas), evs);
            && (forall i, j | 0 <= i < j < |f.reservas| :: f.reservas[i].clave != f.reservas[j].clave)
            && (forall r | r in f.reservas :: r.clave in f.colas && r.esi != Consola)
            && (forall k, i | k in f.colas && 0 <= i < |f.colas[k]| && f.colas[k][i] == Consola ::
                  i == 0 && !Tomada(f, k))
            && Consola !in f.ready && (f.fase.Corriendo? ==> f.unEsi != Consola)
            && 0 <= f.hayEsis <= |f.ready| && |f.ready| - f.hayEsis == f.mudos
  {
    InicialPartido(bloqueadas);
    SanaSiempre(c, Inicial(bloqueadas), evs);
    ContadoSiempre(c, Inicial(bloqueadas), evs);
    var f := Final(c, Inicial(bloqueadas), evs);
    forall k, i | k in f.colas && 0 <= i < |f.colas[k]| && f.colas[k][i] == Consola
      ensures i == 0 && !Tomada(f, k)
    {
      assert ColaSana(f, k);
    }
  }

  // ---- the sort ----

  ghost predicate Ascendente(c: Config, s: Estado, l: seq<Quien>) {
    forall i, j | 0 <= i < j < |l| :: Antes(c, Dato(s, l[i]), Dato(s, l[j]))
  }

  lemma {:induction false} InsertarAscendente(c: Config, s: Estado, x: Quien, l: seq<Quien>)
    requires Ascendente(c, s, l)
    ensures Ascendente(c, s, Insertar(c, s, x, l))
  {
    var r := Insertar(c, s, x, l);
    if |l| == 0 {
    } else if Antes(c, Dato(s, x), Dato(s, l[0])) {
      assert r == [x] + l;
    } else {
      InsertarAscendente(c, s, x, l[1..]);
      var m := Insertar(c, s, x, l[1..]);
      assert r == [l[0]] + m;
      forall j | 0 <= j < |m|
        ensures Antes(c, Dato(s, l[0]), Dato(s, m[j]))
      {
        assert m[j] in multiset(m);
        assert m[j] == x || m[j] in l[1..];
      }
    }
  }

  lemma {:induction false} OrdenarAscendente(c: Config, s: Estado, l: seq<Quien>)
    ensures Ascendente(c, s, Ordenar(c, s, l))
  {
    if |l| > 0 {
      OrdenarAscendente(c, s, l[1..]);
      InsertarAscendente(c, s, l[0], Ordenar(c, s, l[1..]));
    }
  }

  /** What sort_list_by_algorithm compares. */
  function Criterio(c: Config, d: Datos): real { if c.algoritmo.HRRN? then -ResponseRatio(d) else d.estimada }

  /** Those of the list that stand level at `x`, in order. */
  function Parejos(c: Config, s: Estado, l: seq<Quien>, x: real): seq<Quien> {
    if l == [] then [] else (if Criterio(c, Dato(s, l[0])) == x then [l[0]] else []) + Parejos(c, s, l[1..], x)
  }

  lemma AntesEs(c: Config, p: Datos, q: Datos)
    ensures Antes(c, p, q) <==> Criterio(c, p) <= Criterio(c, q)
  {}

  lemma UnParejo(c: Config, s: Estado, q: Quien, l: seq<Quien>, x: real)
    ensures Parejos(c, s, [q] + l, x) == (if Criterio(c, Dato(s, q)) == x then [q] else []) + Parejos(c, s, l, x)
  {
    assert ([q] + l)[1..] == l;
  }

  lemma {:induction false} InsertarEstable(c: Config, s: Estado, q: Quien, l: seq<Quien>, x: real)
    ensures Parejos(c, s, Insertar(c, s, q, l), x) == Parejos(c, s, [q] + l, x)
  {
    if |l| > 0 && !Antes(c, Dato(s, q), Dato(s, l[0])) {
      var r := Insertar(c, s, q, l[1..]);
      AntesEs(c, Dato(s, q), Dato(s, l[0]));
      InsertarEstable(c, s, q, l[1..], x);
      UnParejo(c, s, l[0], r, x);
      UnParejo(c, s, q, l, x);
      UnParejo(c, s, q, l[1..], x);
      SaltaOtro(Criterio(c, Dato(s, q)), Criterio(c, Dato(s, l[0])), q, l[0], x, Parejos(c, s, l[1..], x));
      assert l == [l[0]] + l[1..];
      UnParejo(c, s, l[0], l[1..], x);
    }
  }

  /** At most one of two that differ is counted. */
  lemma SaltaOtro(a: real, b: real, p: Quien, q: Quien, x: real, r: seq<Quien>)
    requires a != b
    ensures var f, g := if a == x then [p] else [], if b == x then [q] else [];
            g + (f + r) == f + (g + r)
  {}

  /** The sort is stable: those that stand level keep the order they had. */
  lemma {:induction false} OrdenarEstable(c: Config, s: Estado, l: seq<Quien>, x: real)
    ensures Parejos(c, s, Ordenar(c, s, l), x) == Parejos(c, s, l, x)
  {
    if |l| > 0 {
      var r := Ordenar(c, s, l[1..]);
      OrdenarEstable(c, s, l[1..], x);
      InsertarEstable(c, s, l[0], r, x);
      UnParejo(c, s, l[0], r, x);
    }
  }

  lemma OrdenarMejor(c: Config, s: Estado)
    requires s.ready != []
    ensures var l := Ordenar(c, s, s.ready);
            |l| > 0 && Ascendente(c, s, l) && forall q | q in s.ready :: Antes(c, Dato(s, l[0]), Dato(s, q))
  {
    var l := Ordenar(c, s, s.ready);
    OrdenarLargo(c, s, s.ready);
    OrdenarAscendente(c, s, s.ready);
    forall q | q in s.ready
      ensures Antes(c, Dato(s, l[0]), Dato(s, q))
    {
      OrdenarMiembros(c, s, s.ready, q);
      var j :| 0 <= j < |l| && l[j] == q;
      assert j > 0 ==> Antes(c, Dato(s, l[0]), Dato(s, l[j]));
    }
  }

  /** A dispatch takes an ESI that none of the ready ones beats under the algorithm, and keeps
      the others; only the first takes them as they came, and so runs the ESI that came first. */
  lemma DespachoMejor(c: Config, s: Estado)
    requires Contado(s) && !s.fase.Corriendo? && s.hayEsis > 0
    ensures s.ready != []
    ensures var t := Despachar(c, s);
            && multiset(t.ready) + multiset{t.unEsi} == multiset(s.ready)
            && t.datos == s.datos && t.colas == s.colas && t.reservas == s.reservas && t.fase.Corriendo?
            && (s.fase.Arranque? ==> t.unEsi == Esi(1))
            && (!s.fase.Arranque? ==>
                  Ascendente(c, s, [t.unEsi] + t.ready)
                  && forall q | q in s.ready ::
                       if c.algoritmo.HRRN? then ResponseRatio(Dato(s, t.unEsi)) >= ResponseRatio(Dato(s, q))
                       else Dato(s, t.unEsi).estimada <= Dato(s, q).estimada)
  {
    OrdenarLargo(c, s, s.ready);
    if !s.fase.Arranque? { OrdenarMejor(c, s); }
    var l := if s.fase.Arranque? then s.ready else Ordenar(c, s, s.ready);
    assert l == [l[0]] + l[1..];
  }
}
