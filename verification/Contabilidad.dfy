/** What the fields of an ESI count: the instructions it has run, and how long it has waited. */
module Contabilidad {
  import opened Planificacion
  import opened Exclusion
  import opened Lugares
  import opened SinPerdida

  function Corridas(s: Estado, q: Quien): nat { Dato(s, q).instrucciones }

  lemma ListarCuenta(c: Config, s: Estado, x: Quien, q: Quien)
    ensures Corridas(Listar(c, s, x), q) == Corridas(s, q)
  {}

  lemma AvisarCuenta(c: Config, s: Estado, x: Quien, q: Quien)
    ensures Corridas(Avisar(c, s, x), q) == Corridas(s, q)
  {
    ListarCuenta(c, s, x, q);
  }

  lemma UnlockKeyCuenta(c: Config, s: Estado, k: string, q: Quien)
    ensures Corridas(UnlockKey(c, s, k), q) == Corridas(s, q)
  {
    var r := s.(reservas := Sacar(s.reservas, Exacta(s.unEsi, k)));
    if EsDuenio(s, k) && k in r.colas && r.colas[k] != [] { AvisarOrdenadoCuenta(c, Pop(r, k), r.colas[k][0], q); }
  }

  lemma AvisarOrdenadoCuenta(c: Config, s: Estado, x: Quien, q: Quien)
    ensures Corridas(Ordenado(c, Avisar(c, s, x)), q) == Corridas(s, q)
  {
    AvisarCuenta(c, s, x, q);
    OrdenadoCuenta(c, Avisar(c, s, x), q);
  }

  lemma OrdenadoCuenta(c: Config, s: Estado, q: Quien)
    ensures Corridas(Ordenado(c, s), q) == Corridas(s, q)
  {}

  lemma UnlockEsiCuenta(c: Config, s: Estado, k: string, q: Quien)
    ensures Corridas(UnlockEsi(c, s, k), q) == Corridas(s, q)
  {
    if k in s.colas && s.colas[k] != [] { ListarCuenta(c, Pop(s, k), s.colas[k][0], q); }
  }

  lemma {:induction false} ReleaseKeysCuenta(c: Config, s: Estado, e: Quien, q: Quien)
    ensures Corridas(ReleaseKeys(c, s, e), q) == Corridas(s, q)
    decreases |s.reservas|
  {
    var i := Primera(s.reservas, DeEsi(e));
    if i != -1 {
      var t, k := s.(reservas := Quitar(s.reservas, i)), s.reservas[i].clave;
      UnlockEsiCuenta(c, t, k, q);
      ReleaseKeysCuenta(c, UnlockEsi(c, t, k), e, q);
    }
  }

  lemma FinishEsiCuenta(c: Config, s: Estado, q: Quien)
    ensures Corridas(FinishEsi(c, s), q) == Corridas(s, q)
  {
    ReleaseKeysCuenta(c, s.(finalizados := s.finalizados + [s.unEsi]), s.unEsi, q);
  }

  lemma CerrarCuenta(c: Config, s: Estado, bloqueado: bool, q: Quien)
    ensures Corridas(Cerrar(c, s, bloqueado), q) == Corridas(s, q)
  {
    var v := if !bloqueado then s else if s.abortar then FinishEsi(c, s) else s.(fin := true);
    FinishEsiCuenta(c, s, q);
    FinishEsiCuenta(c, v, q);
  }

  lemma ConsolaCuenta(c: Config, s: Estado, k: string, q: Quien)
    requires Sana(s)
    ensures Corridas(UnlockKeyByConsole(c, s, k), q) == Corridas(s, q)
  {
    if k in s.colas {
      ConsolaEs(c, s, k);
      var a := Liberada(s, k);
      if Despierta(s, k) { AvisarCuenta(c, Pop(a, k), a.colas[k][0], q); }
    }
  }

  lemma UpdateValuesUno(c: Config, s: Estado, q: Quien)
    ensures Corridas(UpdateValues(c, s), q) == Corridas(s, q) + if q == s.unEsi then 1 else 0
  {}

  lemma ReportaDatos(s: Estado, w: Estado, r: Respuesta)
    ensures var e := Reportar(Estrenar(s, w), r);
            e.datos == w.datos && e.unEsi == w.unEsi && e.ready == w.ready && e.colas == w.colas
  {}

  lemma UpdateValuesCuenta(c: Config, s: Estado, w: Estado, r: Respuesta, q: Quien)
    ensures Corridas(UpdateValues(c, Reportar(Estrenar(s, w), r)), q)
            == Corridas(w, q) + if q == w.unEsi then 1 else 0
  {
    ReportaDatos(s, w, r);
    UpdateValuesUno(c, Reportar(Estrenar(s, w), r), q);
  }

  /** The instruction is charged to the ESI that has the CPU when the question is answered. */
  predicate Cargada(c: Config, s: Estado, ev: Evento, q: Quien) {
    ev.Instruye? && q == WaitQuestion(c, s, ev.p).unEsi
  }

  lemma InstruccionCuenta(c: Config, s: Estado, p: Pregunta, r: Respuesta, q: Quien)
    ensures Corridas(Instruccion(c, s, p, r), q)
            == Corridas(s, q) + if q == WaitQuestion(c, s, p).unEsi then 1 else 0
  {
    WaitQuestionCuenta(c, s, p, q);
    UpdateValuesCuenta(c, s, WaitQuestion(c, s, p), r, q);
    CerrarCuenta(c, Contada(c, s, p, r), r.Bloqueo?, q);
  }

  lemma WaitQuestionCuenta(c: Config, s: Estado, p: Pregunta, q: Quien)
    ensures Corridas(WaitQuestion(c, s, p), q) == Corridas(s, q)
  {
    if p.Guardar? { UnlockKeyCuenta(c, s, p.clave, q); }
  }

  lemma PasoCuenta(c: Config, s: Estado, ev: Evento, q: Quien)
    requires Sana(s) && Habilitado(s, ev) && q != Esi(s.numEsi + 1)
    ensures Corridas(Paso(c, s, ev), q) == Corridas(s, q) + if Cargada(c, s, ev, q) then 1 else 0
  {
    match ev
    case Llega =>
    case Despacha =>
    case Instruye(p, r) => InstruccionCuenta(c, s, p, r, q);
    case Desbloquea(k) => ConsolaCuenta(c, s, k, q);
  }

  /** The instructions of a run that are charged to `q`. */
  ghost function Cargos(c: Config, s: Estado, evs: seq<Evento>, q: Quien): nat
    requires Corrida(c, s, evs)
    decreases |evs|
  {
    if evs == [] then 0
    else (if Cargada(c, s, evs[0], q) then 1 else 0) + Cargos(c, Paso(c, s, evs[0]), evs[1..], q)
  }

  lemma NumeroPaso(c: Config, s: Estado, ev: Evento)
    requires Sana(s) && Habilitado(s, ev)
    ensures Paso(c, s, ev).numEsi == s.numEsi + if ev.Llega? then 1 else 0
  {
    match ev
    case Llega =>
    case Despacha =>
    case Instruye(p, r) =>
      InstruccionNumEsi(c, s, p, r);
    case Desbloquea(k) =>
      if k in s.colas {
        ConsolaEs(c, s, k);
        var a := Liberada(s, k);
        if Despierta(s, k) { AvisarMarcas(c, Pop(a, k), a.colas[k][0]); }
      }
  }

  /** Over every run instructions_counter grows by the instructions charged to the ESI, under
      the three algorithms. */
  lemma {:induction false} CuentaSiempre(c: Config, s: Estado, evs: seq<Evento>, q: Quien)
    requires Sana(s) && Corrida(c, s, evs) && q.Esi? && q.id <= s.numEsi
    ensures Corridas(Final(c, s, evs), q) == Corridas(s, q) + Cargos(c, s, evs, q)
    decreases |evs|
  {
    if evs != [] {
      PasoSano(c, s, evs[0]);
      PasoCuenta(c, s, evs[0], q);
      NumeroPaso(c, s, evs[0]);
      CuentaSiempre(c, Paso(c, s, evs[0]), evs[1..], q);
    }
  }

  // ---- waiting ----

  /** `q` is in no queue, so no wake-up touches it. */
  ghost predicate FueraDeColas(s: Estado, q: Quien) { forall k | k in s.colas :: q !in s.colas[k] }

  ghost predicate MismoDato(s: Estado, t: Estado, q: Quien) {
    Dato(t, q) == Dato(s, q) && (q in s.datos ==> q in t.datos)
  }

  lemma ListarAjeno(c: Config, s: Estado, k: string, q: Quien)
    requires FueraDeColas(s, q) && k in s.colas && s.colas[k] != []
    ensures var t := Listar(c, Pop(s, k), s.colas[k][0]);
            MismoDato(s, t, q) && FueraDeColas(t, q) && (q in t.ready <==> q in s.ready)
  {
    assert s.colas[k][0] in s.colas[k];
    forall x | x in Pop(s, k).colas ensures q !in Pop(s, k).colas[x] { assert q !in s.colas[x]; }
  }

  lemma AvisarAjeno(c: Config, s: Estado, k: string, q: Quien)
    requires FueraDeColas(s, q) && k in s.colas && s.colas[k] != []
    ensures var t := Avisar(c, Pop(s, k), s.colas[k][0]);
            MismoDato(s, t, q) && FueraDeColas(t, q) && (c.algoritmo.HRRN? ==> (q in t.ready <==> q in s.ready))
  {
    ListarAjeno(c, s, k, q);
  }

  lemma OrdenadoAjeno(c: Config, s: Estado, q: Quien)
    ensures var t := Ordenado(c, s);
            t.datos == s.datos && t.colas == s.colas && t.unEsi == s.unEsi && (q in t.ready <==> q in s.ready)
  {
    OrdenarMiembros(c, s, s.ready, q);
  }

  lemma AvisarOrdenadoAjeno(c: Config, s: Estado, k: string, q: Quien)
    requires FueraDeColas(s, q) && k in s.colas && s.colas[k] != []
    ensures var t := Ordenado(c, Avisar(c, Pop(s, k), s.colas[k][0]));
            && MismoDato(s, t, q) && FueraDeColas(t, q)
            && (c.algoritmo.HRRN? ==> (q in t.ready <==> q in s.ready) && t.unEsi == s.unEsi)
  {
    AvisarAjeno(c, s, k, q);
    OrdenadoAjeno(c, Avisar(c, Pop(s, k), s.colas[k][0]), q);
  }

  lemma UnlockKeyAjeno(c: Config, s: Estado, k: string, q: Quien)
    requires FueraDeColas(s, q)
    ensures var t := UnlockKey(c, s, k);
            && MismoDato(s, t, q) && FueraDeColas(t, q)
            && (c.algoritmo.HRRN? ==> (q in t.ready <==> q in s.ready) && t.unEsi == s.unEsi)
  {
    var r := s.(reservas := Sacar(s.reservas, Exacta(s.unEsi, k)));
    if EsDuenio(s, k) && k in r.colas && r.colas[k] != [] { AvisarOrdenadoAjeno(c, r, k, q); }
  }

  lemma {:induction false} ReleaseKeysAjeno(c: Config, s: Estado, e: Quien, q: Quien)
    requires FueraDeColas(s, q)
    ensures var t := ReleaseKeys(c, s, e);
            MismoDato(s, t, q) && FueraDeColas(t, q) && (q in t.ready <==> q in s.ready)
    decreases |s.reservas|
  {
    var i := Primera(s.reservas, DeEsi(e));
    if i != -1 {
      var t, k := s.(reservas := Quitar(s.reservas, i)), s.reservas[i].clave;
      if k in t.colas && t.colas[k] != [] { ListarAjeno(c, t, k, q); }
      ReleaseKeysAjeno(c, UnlockEsi(c, t, k), e, q);
    }
  }

  lemma CerrarAjeno(c: Config, s: Estado, bloqueado: bool, q: Quien)
    requires FueraDeColas(s, q)
    ensures MismoDato(s, Cerrar(c, s, bloqueado), q)
  {
    var f := s.(finalizados := s.finalizados + [s.unEsi]);
    ReleaseKeysAjeno(c, f, s.unEsi, q);
    var v := if !bloqueado then s else if s.abortar then FinishEsi(c, s) else s.(fin := true);
    assert FueraDeColas(v, q) && MismoDato(s, v, q);
    ReleaseKeysAjeno(c, v.(finalizados := v.finalizados + [v.unEsi]), v.unEsi, q);
  }

  lemma WaitQuestionAjeno(c: Config, s: Estado, p: Pregunta, q: Quien)
    requires FueraDeColas(s, q) && c.algoritmo.HRRN? && q != s.unEsi
    ensures var w := WaitQuestion(c, s, p);
            MismoDato(s, w, q) && FueraDeColas(w, q) && (q in w.ready <==> q in s.ready) && w.unEsi == s.unEsi
  {
    match p {
      case Chequear(k) =>
        var w := CheckKey(s, k);
        forall x | x in w.colas ensures q !in w.colas[x] { assert x in s.colas ==> q !in s.colas[x]; }
      case Guardar(k) => UnlockKeyAjeno(c, s, k, q);
      case _ =>
    }
  }

  lemma UpdateValuesAjeno(c: Config, s: Estado, w: Estado, r: Respuesta, q: Quien)
    requires c.algoritmo.HRRN? && q != w.unEsi && q in w.ready && q in w.datos && FueraDeColas(w, q)
    ensures var u := UpdateValues(c, Reportar(Estrenar(s, w), r));
            Dato(u, q) == Dato(w, q).(espera := Dato(w, q).espera + 1.0) && FueraDeColas(u, q) && q in u.datos
  {
    ReportaDatos(s, w, r);
  }

  lemma LiberadaFuera(s: Estado, k: string, q: Quien)
    requires FueraDeColas(s, q) && k in s.colas
    ensures FueraDeColas(Liberada(s, k), q)
  {
    var a := Liberada(s, k);
    forall x | x in a.colas ensures q !in a.colas[x] { assert q !in s.colas[x]; }
  }

  lemma ConsolaAjena(c: Config, s: Estado, k: string, q: Quien)
    requires Sana(s) && FueraDeColas(s, q) && c.algoritmo.HRRN?
    ensures MismoDato(s, UnlockKeyByConsole(c, s, k), q)
  {
    if k in s.colas {
      ConsolaEs(c, s, k);
      LiberadaFuera(s, k, q);
      if Despierta(s, k) { AvisarAjeno(c, Liberada(s, k), k, q); }
    }
  }

  lemma ListoFuera(s: Estado, q: Quien)
    requires Partido(s) && q in s.ready
    ensures FueraDeColas(s, q) && (s.fase.Corriendo? ==> q != s.unEsi)
  {
    var l :| Ubicado(s, l, CpuDe(s));
    assert q in l && l[q] == Listo;
    forall k | k in s.colas ensures q !in s.colas[k] { assert ColaUbicada(s.colas[k], k, l); }
    assert s.fase.Corriendo? ==> CpuDe(s) != De(q);
  }

  lemma InstruccionEspera(c: Config, s: Estado, p: Pregunta, r: Respuesta, q: Quien)
    requires FueraDeColas(s, q) && q != s.unEsi && c.algoritmo.HRRN? && q in s.ready && q in s.datos
    ensures var t := Instruccion(c, s, p, r);
            q in t.datos && Dato(t, q) == Dato(s, q).(espera := Dato(s, q).espera + 1.0)
  {
    WaitQuestionAjeno(c, s, p, q);
    UpdateValuesAjeno(c, s, WaitQuestion(c, s, p), r, q);
    CerrarAjeno(c, Contada(c, s, p, r), r.Bloqueo?, q);
  }

  /** HRRN: an ESI that is ready waits one more for each instruction that another runs, and for
      nothing else; its estimates stand. */
  lemma EsperaPaso(c: Config, s: Estado, ev: Evento, q: Quien)
    requires Sana(s) && Partido(s) && Habilitado(s, ev) && c.algoritmo.HRRN?
    requires q in s.ready && q in s.datos
    ensures q in Paso(c, s, ev).datos
    ensures Dato(Paso(c, s, ev), q)
            == if ev.Instruye? then Dato(s, q).(espera := Dato(s, q).espera + 1.0) else Dato(s, q)
  {
    ListoFuera(s, q);
    match ev
    case Llega => assert q != Esi(s.numEsi + 1) by { ListoConocido(s, q); }
    case Despacha =>
    case Instruye(p, r) => InstruccionEspera(c, s, p, r, q);
    case Desbloquea(k) => ConsolaAjena(c, s, k, q);
  }

  lemma ListoConocido(s: Estado, q: Quien)
    requires Partido(s) && q in s.ready
    ensures q.Esi? && q.id <= s.numEsi
  {
    var l :| Ubicado(s, l, CpuDe(s));
    assert q in l;
  }

  /** `q` stays in the ready list all through the run. */
  ghost predicate SigueLista(c: Config, s: Estado, evs: seq<Evento>, q: Quien)
    requires Corrida(c, s, evs)
    decreases |evs|
  {
    q in s.ready && (evs == [] || SigueLista(c, Paso(c, s, evs[0]), evs[1..], q))
  }

  function Instrucciones(evs: seq<Evento>): nat {
    if evs == [] then 0 else (if evs[0].Instruye? then 1 else 0) + Instrucciones(evs[1..])
  }

  /** HRRN, over any run in which no ESI is lost: while an ESI is ready its wait grows by the
      instructions that the others run, and its estimate stands. */
  lemma {:induction false} EsperaSiempre(c: Config, s: Estado, evs: seq<Evento>, q: Quien)
    requires Sana(s) && Partido(s) && Reposo(s) && Corrida(c, s, evs) && TodasTersas(c, s, evs)
    requires c.algoritmo.HRRN? && SigueLista(c, s, evs, q) && q in s.datos
    ensures var d, f := Dato(s, q), Dato(Final(c, s, evs), q);
            f == d.(espera := d.espera + Instrucciones(evs) as real)
    decreases |evs|
  {
    if evs != [] {
      PasoSano(c, s, evs[0]);
      PasoPartido(c, s, evs[0]);
      EsperaPaso(c, s, evs[0], q);
      EsperaSiempre(c, Paso(c, s, evs[0]), evs[1..], q);
    }
  }

  // ---- the ESI on the CPU ----

  lemma ContadaBloqueo(c: Config, s: Estado, p: Pregunta, r: Respuesta)
    requires Compatible(s, p, r) && r.Bloqueo?
    ensures Contada(c, s, p, r).block && Cerrar(c, Contada(c, s, p, r), true).datos == Contada(c, s, p, r).datos
  {
    WaitQuestionMarcas(c, s, p);
  }

  lemma EnCpuFuera(s: Estado)
    requires Partido(s) && s.fase.Corriendo?
    ensures FueraDeColas(s, s.unEsi) && s.unEsi !in s.ready
  {
    var l :| Ubicado(s, l, CpuDe(s));
    var q := s.unEsi;
    assert q in l && l[q] == Corre;
    forall k | k in s.colas ensures q !in s.colas[k] { assert q != Consola && ColaUbicada(s.colas[k], k, l); }
  }

  /** What the question leaves of the ESI that asks: all but, when it blocks, its place. */
  lemma WaitQuestionPropio(c: Config, s: Estado, p: Pregunta, q: Quien)
    requires FueraDeColas(s, q) && q !in s.ready
    ensures var w := WaitQuestion(c, s, p);
            && Dato(w, q) == Dato(s, q)
            && (c.algoritmo.HRRN? ==> q !in w.ready)
            && (!p.Chequear? || Concede(s, p.clave) ==> FueraDeColas(w, q))
  {
    match p {
      case Chequear(k) =>
        var w := CheckKey(s, k);
        if Concede(s, k) {
          forall x | x in w.colas ensures q !in w.colas[x] { assert x in s.colas ==> q !in s.colas[x]; }
        }
      case Guardar(k) => UnlockKeyAjeno(c, s, k, q);
      case _ =>
    }
  }

  function Corrido(c: Config, d: Datos): Datos {
    d.(instrucciones := d.instrucciones + 1, estimada := if c.algoritmo.HRRN? then d.estimada else d.estimada - 1.0)
  }

  lemma UpdateValuesSuyo(c: Config, s: Estado)
    requires c.algoritmo.HRRN? ==> s.unEsi !in s.ready
    ensures UpdateValues(c, s).colas == s.colas && Dato(UpdateValues(c, s), s.unEsi) == Corrido(c, Dato(s, s.unEsi))
  {}

  lemma UpdateValuesPropio(c: Config, s: Estado, w: Estado, r: Respuesta)
    requires c.algoritmo.HRRN? ==> w.unEsi !in w.ready
    ensures var u := UpdateValues(c, Reportar(Estrenar(s, w), r));
            u.colas == w.colas && Dato(u, w.unEsi) == Corrido(c, Dato(w, w.unEsi))
  {
    ReportaDatos(s, w, r);
    UpdateValuesSuyo(c, Reportar(Estrenar(s, w), r));
  }

  /** An ESI that runs an instruction and is not preempted in it has run one more and, under SJF,
      is expected to need one less; whatever it asks, whether it blocks, goes on or ends. */
  lemma CorredorPaso(c: Config, s: Estado, p: Pregunta, r: Respuesta)
    requires Partido(s) && s.fase.Corriendo? && Compatible(s, p, r)
    requires WaitQuestion(c, s, p).unEsi == s.unEsi
    ensures var d, f := Dato(s, s.unEsi), Dato(Instruccion(c, s, p, r), s.unEsi);
            && f.instrucciones == d.instrucciones + 1 && f.previa == d.previa && f.espera == d.espera
            && f.estimada == if c.algoritmo.HRRN? then d.estimada else d.estimada - 1.0
  {
    var w, u := WaitQuestion(c, s, p), Contada(c, s, p, r);
    EnCpuFuera(s);
    WaitQuestionPropio(c, s, p, s.unEsi);
    UpdateValuesPropio(c, s, w, r);
    if r.Bloqueo? {
      ContadaBloqueo(c, s, p, r);
    } else {
      assert FueraDeColas(u, s.unEsi);
      CerrarAjeno(c, u, false, s.unEsi);
    }
  }

  // ---- waking ----

  /** If `q` is ready it has waited nothing. */
  ghost predicate Fresco(s: Estado, q: Quien) { q in s.ready ==> Dato(s, q).espera == 0.0 }

  lemma ListarFresco(c: Config, s: Estado, x: Quien, q: Quien)
    requires c.algoritmo.HRRN? && Fresco(s, q)
    ensures Fresco(Listar(c, s, x), q)
  {}

  lemma AvisarFresco(c: Config, s: Estado, x: Quien, q: Quien)
    requires c.algoritmo.HRRN? && Fresco(s, q)
    ensures Fresco(Avisar(c, s, x), q)
  {
    ListarFresco(c, s, x, q);
  }

  lemma UnlockKeyFresco(c: Config, s: Estado, k: string, q: Quien)
    requires c.algoritmo.HRRN? && Fresco(s, q)
    ensures Fresco(UnlockKey(c, s, k), q)
  {
    var r := s.(reservas := Sacar(s.reservas, Exacta(s.unEsi, k)));
    if EsDuenio(s, k) && k in r.colas && r.colas[k] != [] {
      var a := Avisar(c, Pop(r, k), r.colas[k][0]);
      AvisarFresco(c, Pop(r, k), r.colas[k][0], q);
      OrdenadoFresco(c, a, q);
    }
  }

  lemma OrdenadoFresco(c: Config, s: Estado, q: Quien)
    requires Fresco(s, q)
    ensures Fresco(Ordenado(c, s), q)
  {
    OrdenadoAjeno(c, s, q);
  }

  lemma UnlockEsiFresco(c: Config, s: Estado, k: string, q: Quien)
    requires c.algoritmo.HRRN? && Fresco(s, q)
    ensures Fresco(UnlockEsi(c, s, k), q)
  {
    if k in s.colas && s.colas[k] != [] { ListarFresco(c, Pop(s, k), s.colas[k][0], q); }
  }

  lemma {:induction false} ReleaseKeysFresco(c: Config, s: Estado, e: Quien, q: Quien)
    requires c.algoritmo.HRRN? && Fresco(s, q)
    ensures Fresco(ReleaseKeys(c, s, e), q)
    decreases |s.reservas|
  {
    var i := Primera(s.reservas, DeEsi(e));
    if i != -1 {
      var t, k := s.(reservas := Quitar(s.reservas, i)), s.reservas[i].clave;
      UnlockEsiFresco(c, t, k, q);
      ReleaseKeysFresco(c, UnlockEsi(c, t, k), e, q);
    }
  }

  lemma FinishEsiFresco(c: Config, s: Estado, q: Quien)
    requires c.algoritmo.HRRN? && Fresco(s, q)
    ensures Fresco(FinishEsi(c, s), q)
  {
    ReleaseKeysFresco(c, s.(finalizados := s.finalizados + [s.unEsi]), s.unEsi, q);
  }

  lemma CerrarFresco(c: Config, s: Estado, bloqueado: bool, q: Quien)
    requires c.algoritmo.HRRN? && Fresco(s, q)
    ensures Fresco(Cerrar(c, s, bloqueado), q)
  {
    FinishEsiFresco(c, s, q);
    var v := if !bloqueado then s else if s.abortar then FinishEsi(c, s) else s.(fin := true);
    FinishEsiFresco(c, v, q);
  }

  /** An ESI that a wake-up makes ready has its data. */
  lemma AvisarEnDatos(c: Config, s: Estado, x: Quien, q: Quien)
    requires c.algoritmo.HRRN? && q !in s.ready
    ensures var t := Ordenado(c, Avisar(c, s, x));
            q in t.ready ==> q in t.datos
  {
    OrdenadoAjeno(c, Avisar(c, s, x), q);
  }

  lemma WaitQuestionFresco(c: Config, s: Estado, p: Pregunta, q: Quien)
    requires c.algoritmo.HRRN? && q !in s.ready
    ensures var w := WaitQuestion(c, s, p);
            Fresco(w, q) && (q in w.ready ==> p.Guardar? && q in w.datos)
  {
    if p.Guardar? {
      UnlockKeyFresco(c, s, p.clave, q);
      var r := s.(reservas := Sacar(s.reservas, Exacta(s.unEsi, p.clave)));
      if EsDuenio(s, p.clave) && p.clave in r.colas && r.colas[p.clave] != [] {
        AvisarEnDatos(c, Pop(r, p.clave), r.colas[p.clave][0], q);
      }
    }
  }

  lemma ConsolaFresca(c: Config, s: Estado, k: string, q: Quien)
    requires Sana(s) && c.algoritmo.HRRN? && q !in s.ready
    ensures Fresco(UnlockKeyByConsole(c, s, k), q)
  {
    if k in s.colas {
      ConsolaEs(c, s, k);
      var a := Liberada(s, k);
      if Despierta(s, k) { AvisarFresco(c, Pop(a, k), a.colas[k][0], q); }
    }
  }

  /** Woken by the question, the ESI is in no queue and not on the CPU. */
  lemma DespertadoFuera(c: Config, s: Estado, p: Pregunta, q: Quien)
    requires Sana(s) && Partido(s) && s.fase.Corriendo?
    ensures var w := WaitQuestion(c, s, p);
            q in w.ready && p.Guardar? ==> FueraDeColas(w, q) && q != w.unEsi
  {
    var w := WaitQuestion(c, s, p);
    var l :| Ubicado(s, l, CpuDe(s));
    if q in w.ready && p.Guardar? {
      var m := WaitQuestionUbicado(c, s, l, p);
      ListoEnMapa(w, m, De(w.unEsi), q);
    }
  }

  lemma ListoEnMapa(s: Estado, l: map<Quien, Lugar>, cpu: Cpu, q: Quien)
    requires Ubicado(s, l, cpu) && q in s.ready
    ensures FueraDeColas(s, q) && cpu != De(q)
  {
    assert q in l && l[q] == Listo;
    forall k | k in s.colas ensures q !in s.colas[k] { assert ColaUbicada(s.colas[k], k, l); }
  }

  /** Woken by the STORE of the instruction. */
  lemma EsperaUna(c: Config, s: Estado, p: Pregunta, r: Respuesta, q: Quien)
    requires Sana(s) && Partido(s) && s.fase.Corriendo? && c.algoritmo.HRRN?
    requires q !in s.ready && q in WaitQuestion(c, s, p).ready
    ensures Dato(Instruccion(c, s, p, r), q).espera == 1.0
  {
    var w := WaitQuestion(c, s, p);
    WaitQuestionFresco(c, s, p, q);
    DespertadoFuera(c, s, p, q);
    UpdateValuesAjeno(c, s, w, r, q);
    CerrarAjeno(c, Contada(c, s, p, r), r.Bloqueo?, q);
  }

  /** Woken by the release of an ESI that ends. */
  lemma EsperaNinguna(c: Config, s: Estado, p: Pregunta, r: Respuesta, q: Quien)
    requires c.algoritmo.HRRN? && q !in WaitQuestion(c, s, p).ready
    ensures Fresco(Instruccion(c, s, p, r), q)
  {
    CuentaListas(c, s, WaitQuestion(c, s, p), r);
    CerrarFresco(c, Contada(c, s, p, r), r.Bloqueo?, q);
  }

  /** HRRN: an ESI that an event makes ready has waited one instruction if the question of that
      event, a STORE, woke it, and nothing if it came, a release woke it, or the console did. */
  lemma DespiertaFresco(c: Config, s: Estado, ev: Evento, q: Quien)
    requires Sana(s) && Partido(s) && Habilitado(s, ev) && c.algoritmo.HRRN?
    requires q !in s.ready && q in Paso(c, s, ev).ready
    ensures Dato(Paso(c, s, ev), q).espera
            == if ev.Instruye? && q in WaitQuestion(c, s, ev.p).ready then 1.0 else 0.0
  {
    match ev
    case Llega =>
    case Despacha => OrdenarMiembros(c, s, s.ready, q);
    case Instruye(p, r) =>
      if q in WaitQuestion(c, s, p).ready { EsperaUna(c, s, p, r, q); } else { EsperaNinguna(c, s, p, r, q); }
    case Desbloquea(k) => ConsolaFresca(c, s, k, q);
  }
}
