/** No ESI is lost or duplicated, over every run of the Planificador. */
module SinPerdida {
  import opened Planificacion
  import opened Exclusion
  import opened Lugares

  lemma NuevoUbicado(c: Config, s: Estado, l: map<Quien, Lugar>, cpu: Cpu)
    requires Ubicado(s, l, cpu)
    ensures Ubicado(NuevoEsi(c, s), l[Esi(s.numEsi + 1) := Listo], cpu)
  {
    var q, t := Esi(s.numEsi + 1), NuevoEsi(c, s);
    assert q !in l;
    forall k | k in t.colas
      ensures ColaUbicada(t.colas[k], k, l[q := Listo])
    {
      assert ColaUbicada(s.colas[k], k, l);
    }
  }

  /** The free CPU is taken. */
  lemma CorreSola(l: map<Quien, Lugar>, e: Quien)
    requires e in l && forall q :: Cpu.Libre == De(q) <==> q in l && l[q] == Corre
    ensures forall q :: De(e) == De(q) <==> q in l[e := Corre] && l[e := Corre][q] == Corre
  {
    forall q ensures De(e) == De(q) <==> q in l[e := Corre] && l[e := Corre][q] == Corre {
      assert Cpu.Libre != De(q);
    }
  }

  /** The first of the list leaves it. */
  lemma SinElPrimero(s: Estado, l: map<Quien, Lugar>, r: seq<Quien>, d: Lugar)
    requires |r| > 0 && Unico(r) && Unico(s.ready) && (forall q :: q in r <==> q in s.ready)
    requires d != Listo && forall q :: q in s.ready <==> q in l && l[q] == Listo
    ensures Unico(r[1..]) && forall q :: q in r[1..] <==> q in l[r[0] := d] && l[r[0] := d][q] == Listo
  {
    assert r == [r[0]] + r[1..];
    assert r[0] in r;
  }

  /** The first of the ready list takes the free CPU. */
  lemma TomaCpu(s: Estado, t: Estado, l: map<Quien, Lugar>, r: seq<Quien>)
    requires Ubicado(s, l, Cpu.Libre) && |r| > 0 && Unico(r) && forall q :: q in r <==> q in s.ready
    requires t.ready == r[1..] && t.finalizados == s.finalizados && t.numEsi == s.numEsi && t.colas == s.colas
    ensures Ubicado(t, l[r[0] := Corre], De(r[0]))
  {
    assert r[0] in r && r[0] in l && l[r[0]] == Listo;
    SinElPrimero(s, l, r, Corre);
    ColasAjenas(s, l, r[0], Corre);
    CorreSola(l, r[0]);
  }

  lemma DespacharUbicado(c: Config, s: Estado, l: map<Quien, Lugar>)
    requires Ubicado(s, l, Cpu.Libre) && s.ready != []
    ensures exists m :: Ubicado(Despachar(c, s), m, CpuDe(Despachar(c, s)))
  {
    var t := Despachar(c, s);
    var r := if s.fase.Arranque? then s.ready else Ordenar(c, s, s.ready);
    UnicoPermutado(s.ready, r);
    forall q ensures q in r <==> q in s.ready { OrdenarMiembros(c, s, s.ready, q); }
    TomaCpu(s, t, l, r);
    assert Ubicado(t, l[r[0] := Corre], CpuDe(t));
  }

  // ---- the console ----

  /** The state in which the console finds, and may wake, the head of the queue of `k`. */
  function Liberada(s: Estado, k: string): Estado
    requires k in s.colas
  {
    var r := s.(reservas := Sacar(s.reservas, DeClave(k)));
    if r.colas[k] != [] && r.colas[k][0] == Consola then Pop(r, k) else r
  }

  predicate Despierta(s: Estado, k: string) { k in s.colas && Liberada(s, k).colas[k] != [] }

  /** SJF-CD lets the woken ESI take a CPU that un_esi has already left. */
  predicate Intruso(c: Config, s: Estado, k: string) {
    && c.algoritmo.SJFCD? && !s.fase.Corriendo? && Despierta(s, k)
    && var q := Liberada(s, k).colas[k][0];
       q != s.unEsi && Estimar(Dato(s, q), c.alfa).estimada < Dato(s, s.unEsi).estimada
  }

  lemma ConsolaEs(c: Config, s: Estado, k: string)
    requires Sana(s) && k in s.colas
    ensures var a := Liberada(s, k);
            && Sana(a) && a.fase == s.fase && a.unEsi == s.unEsi && a.datos == s.datos
            && UnlockKeyByConsole(c, s, k)
               == (if Despierta(s, k) then Avisar(c, Pop(a, k), a.colas[k][0]) else a)
            && (Despierta(s, k) ==> a.colas[k][0] != Consola && !s.fase.Arranque?)
  {
    SoltarClave(s, k);
    var r := s.(reservas := Sacar(s.reservas, DeClave(k)));
    if r.colas[k] != [] && r.colas[k][0] == Consola { PopConsola(r, k); }
    var a := Liberada(s, k);
    if a.colas[k] != [] {
      assert ColaSana(r, k) && ColaSana(a, k);
      assert a.colas[k][0] in a.colas[k];
    }
  }

  lemma LiberadaUbicada(s: Estado, l: map<Quien, Lugar>, cpu: Cpu, k: string)
    requires Sana(s) && Ubicado(s, l, cpu) && k in s.colas
    ensures Ubicado(Liberada(s, k), l, cpu)
  {
    var r := s.(reservas := Sacar(s.reservas, DeClave(k)));
    UbicadoEnmarcado(s, r, l, cpu);
    if r.colas[k] != [] && r.colas[k][0] == Consola { SinConsola(r, l, cpu, k); }
  }

  /** The console leaves a queue; it was in no place of the partition. */
  lemma SinConsola(s: Estado, l: map<Quien, Lugar>, cpu: Cpu, k: string)
    requires Ubicado(s, l, cpu) && k in s.colas && s.colas[k] != [] && s.colas[k][0] == Consola
    ensures Ubicado(Pop(s, k), l, cpu)
  {
    var t := Pop(s, k);
    forall x | x in t.colas ensures ColaUbicada(t.colas[x], x, l) {
      assert ColaUbicada(s.colas[x], x, l);
      if x == k { ColaSinConsola(s.colas[k], k, l); }
    }
  }

  lemma ColaSinConsola(q: seq<Quien>, k: string, l: map<Quien, Lugar>)
    requires q != [] && q[0] == Consola && ColaUbicada(q, k, l)
    ensures ColaUbicada(q[1..], k, l)
  {
    assert q == [Consola] + q[1..];
  }

  /** With the CPU free, the woken ESI goes to the ready list unless it is an intruder. */
  lemma AvisarLibre(c: Config, s: Estado, l: map<Quien, Lugar>, k: string)
    requires Ubicado(s, l, Cpu.Libre) && k in s.colas && s.colas[k] != [] && s.colas[k][0] != Consola
    requires var q := s.colas[k][0];
             c.algoritmo.SJFCD? && Estimar(Dato(s, q), c.alfa).estimada < Dato(s, s.unEsi).estimada
             ==> q == s.unEsi
    ensures Ubicado(Avisar(c, Pop(s, k), s.colas[k][0]), l[s.colas[k][0] := Listo], Cpu.Libre)
  {
    PasaAListo(s, Avisar(c, Pop(s, k), s.colas[k][0]), l, Cpu.Libre, k, s.colas[k][0]);
  }

  /** An intruder ends up in no list while the CPU counts as free. */
  lemma IntrusoSeQueda(s: Estado, t: Estado, l: map<Quien, Lugar>, m: map<Quien, Lugar>, k: string)
    requires Ubicado(s, l, Cpu.Libre) && k in s.colas && s.colas[k] != [] && s.colas[k][0] != Consola
    requires s.colas[k][0] != s.unEsi
    requires t.ready == s.ready + [s.unEsi] && t.colas == s.colas[k := s.colas[k][1..]]
    requires t.finalizados == s.finalizados && t.numEsi == s.numEsi
    ensures !Ubicado(t, m, Cpu.Libre)
  {
    var q := s.colas[k][0];
    assert ColaUbicada(s.colas[k], k, l) && q in s.colas[k];
    assert q in l && l[q] == Espera(k);
    assert q !in t.colas[k];
    if q in m && m[q].Espera? && m[q].clave in t.colas {
      var x := m[q].clave;
      assert ColaUbicada(s.colas[x], x, l);
      assert q !in t.colas[x];
      assert !ColaUbicada(t.colas[x], x, m);
    }
  }

  lemma AvisarParte(c: Config, a: Estado, l: map<Quien, Lugar>, k: string)
    requires Ubicado(a, l, CpuDe(a)) && k in a.colas && a.colas[k] != [] && a.colas[k][0] != Consola
    requires var q := a.colas[k][0];
             (&& c.algoritmo.SJFCD? && !a.fase.Corriendo?
              && Estimar(Dato(a, q), c.alfa).estimada < Dato(a, a.unEsi).estimada)
             ==> q == a.unEsi
    ensures Partido(Avisar(c, Pop(a, k), a.colas[k][0]))
  {
    var q := a.colas[k][0];
    var t := Avisar(c, Pop(a, k), q);
    AvisarMarcas(c, Pop(a, k), q);
    if a.fase.Corriendo? {
      var m := AvisarUbicado(c, a, l, k);
      assert Ubicado(t, m, CpuDe(t));
    } else {
      AvisarLibre(c, a, l, k);
      assert Ubicado(t, l[q := Listo], CpuDe(t));
    }
  }

  lemma ConsolaParte(c: Config, s: Estado, k: string)
    requires Sana(s) && Partido(s) && k in s.colas && !Intruso(c, s, k)
    ensures Partido(UnlockKeyByConsole(c, s, k))
  {
    var l := LiberadaPartida(s, k);
    ConsolaEs(c, s, k);
    if Despierta(s, k) {
      AvisarParte(c, Liberada(s, k), l, k);
    } else {
      EstaPartido(Liberada(s, k), l);
    }
  }

  lemma LiberadaPartida(s: Estado, k: string) returns (l: map<Quien, Lugar>)
    requires Sana(s) && Partido(s) && k in s.colas
    ensures Ubicado(Liberada(s, k), l, CpuDe(Liberada(s, k)))
  {
    l :| Ubicado(s, l, CpuDe(s));
    LiberadaUbicada(s, l, CpuDe(s), k);
    MismaCpu(s, k);
  }

  lemma MismaCpu(s: Estado, k: string)
    requires Sana(s) && k in s.colas
    ensures CpuDe(Liberada(s, k)) == CpuDe(s)
  {}

  lemma EstaPartido(s: Estado, l: map<Quien, Lugar>)
    requires Ubicado(s, l, CpuDe(s))
    ensures Partido(s)
  {}

  lemma ConsolaRompe(c: Config, s: Estado, k: string)
    requires Sana(s) && Partido(s) && Intruso(c, s, k)
    ensures !Partido(UnlockKeyByConsole(c, s, k))
  {
    var l :| Ubicado(s, l, CpuDe(s));
    var a, t := Liberada(s, k), UnlockKeyByConsole(c, s, k);
    ConsolaEs(c, s, k);
    LiberadaUbicada(s, l, Cpu.Libre, k);
    AvisarMarcas(c, Pop(a, k), a.colas[k][0]);
    forall m ensures !Ubicado(t, m, CpuDe(t)) { IntrusoSeQueda(a, t, l, m, k); }
  }

  lemma ConsolaMarcas(c: Config, s: Estado, k: string)
    requires Sana(s)
    ensures s.fase.Arranque? ==> !Despierta(s, k)
    ensures var t := UnlockKeyByConsole(c, s, k);
            t.abortar == s.abortar && t.fin == s.fin && t.fase == s.fase && t.block == s.block
  {
    if k in s.colas {
      ConsolaEs(c, s, k);
      var a := Liberada(s, k);
      if Despierta(s, k) { AvisarMarcas(c, Pop(a, k), a.colas[k][0]); }
    }
  }

  /** The console's unlock keeps every ESI in one place exactly when it lets no intruder onto
      a CPU that is free; and it never reads un_esi before the first dispatch. */
  lemma ConsolaPartida(c: Config, s: Estado, k: string)
    requires Sana(s) && Partido(s)
    ensures Partido(UnlockKeyByConsole(c, s, k)) <==> !Intruso(c, s, k)
    ensures s.fase.Arranque? ==> !Despierta(s, k)
    ensures var t := UnlockKeyByConsole(c, s, k);
            t.abortar == s.abortar && t.fin == s.fin && t.fase == s.fase && t.block == s.block
  {
    ConsolaMarcas(c, s, k);
    if k in s.colas {
      if Intruso(c, s, k) { ConsolaRompe(c, s, k); } else { ConsolaParte(c, s, k); }
    }
  }

  // ---- runs ----

  /** The events `evs` can happen, one after the other, from `s`. */
  ghost predicate Corrida(c: Config, s: Estado, evs: seq<Evento>)
    decreases |evs|
  {
    evs == [] || (Habilitado(s, evs[0]) && Corrida(c, Paso(c, s, evs[0]), evs[1..]))
  }

  ghost function Final(c: Config, s: Estado, evs: seq<Evento>): Estado
    requires Corrida(c, s, evs)
    decreases |evs|
  {
    if evs == [] then s else Final(c, Paso(c, s, evs[0]), evs[1..])
  }

  /** The event loses nobody. */
  ghost predicate Tersa(c: Config, s: Estado, ev: Evento) {
    match ev
    case Llega => true
    case Despacha => true
    case Instruye(p, r) => !Perdida(s, p, r)
    case Desbloquea(k) => !Intruso(c, s, k)
  }

  lemma NuevoPartido(c: Config, s: Estado)
    requires Partido(s)
    ensures Partido(NuevoEsi(c, s))
  {
    var l :| Ubicado(s, l, CpuDe(s));
    NuevoUbicado(c, s, l, CpuDe(s));
    assert CpuDe(NuevoEsi(c, s)) == CpuDe(s);
  }

  lemma DespacharPartido(c: Config, s: Estado)
    requires Partido(s) && !s.fase.Corriendo? && s.ready != []
    ensures Partido(Despachar(c, s))
  {
    var l :| Ubicado(s, l, CpuDe(s));
    DespacharUbicado(c, s, l);
  }

  lemma PasoPartido(c: Config, s: Estado, ev: Evento)
    requires Sana(s) && Partido(s) && Reposo(s) && Habilitado(s, ev)
    ensures Partido(Paso(c, s, ev)) <==> Tersa(c, s, ev)
    ensures Tersa(c, s, ev) ==> Reposo(Paso(c, s, ev))
  {
    match ev
    case Llega => NuevoPartido(c, s);
    case Despacha => DespacharPartido(c, s);
    case Instruye(p, r) => InstruccionPartida(c, s, p, r);
    case Desbloquea(k) => ConsolaPartida(c, s, k);
  }

  ghost predicate TodasTersas(c: Config, s: Estado, evs: seq<Evento>)
    requires Corrida(c, s, evs)
    decreases |evs|
  {
    evs == [] || (Tersa(c, s, evs[0]) && TodasTersas(c, Paso(c, s, evs[0]), evs[1..]))
  }

  /** Mutual exclusion in every reachable state. */
  lemma {:induction false} SanaSiempre(c: Config, s: Estado, evs: seq<Evento>)
    requires Sana(s) && Corrida(c, s, evs)
    ensures Sana(Final(c, s, evs))
    decreases |evs|
  {
    if evs != [] {
      PasoSano(c, s, evs[0]);
      SanaSiempre(c, Paso(c, s, evs[0]), evs[1..]);
    }
  }

  lemma {:induction false} PartidaSiempre(c: Config, s: Estado, evs: seq<Evento>)
    requires Sana(s) && Partido(s) && Reposo(s) && Corrida(c, s, evs) && TodasTersas(c, s, evs)
    ensures Partido(Final(c, s, evs)) && Reposo(Final(c, s, evs))
    decreases |evs|
  {
    if evs != [] {
      PasoSano(c, s, evs[0]);
      PasoPartido(c, s, evs[0]);
      PartidaSiempre(c, Paso(c, s, evs[0]), evs[1..]);
    }
  }

  lemma InicialPartido(bloqueadas: set<string>)
    ensures var s := Inicial(bloqueadas);
            Sana(s) && Partido(s) && Reposo(s)
  {
    var s := Inicial(bloqueadas);
    forall k | k in s.colas ensures ColaSana(s, k) && ColaUbicada(s.colas[k], k, map[]) {}
    assert Ubicado(s, map[], CpuDe(s));
  }

  // ---- a discipline of the ESIs that is enough ----

  /** After a turn on the CPU begins, the flag that an earlier ESI left is still there. */
  ghost predicate Estreno(s: Estado) { s.fase.Corriendo? && s.block ==> s.recien }

  /** Each turn on the CPU begins with a GET. */
  ghost predicate TurnosConGet(c: Config, s: Estado, evs: seq<Evento>)
    requires Corrida(c, s, evs)
    decreases |evs|
  {
    evs == []
    || (&& (evs[0].Instruye? && s.recien ==> evs[0].p.Chequear?)
        && TurnosConGet(c, Paso(c, s, evs[0]), evs[1..]))
  }

  /** No ESI ends while `block` is stale. */
  ghost predicate SinBlockViejo(c: Config, s: Estado, evs: seq<Evento>)
    requires Corrida(c, s, evs)
    decreases |evs|
  {
    evs == []
    || (&& (evs[0].Instruye? ==> !Perdida(s, evs[0].p, evs[0].r))
        && SinBlockViejo(c, Paso(c, s, evs[0]), evs[1..]))
  }

  /** No console unlock hands a CPU that is free to an ESI. */
  ghost predicate SinIntrusos(c: Config, s: Estado, evs: seq<Evento>)
    requires Corrida(c, s, evs)
    decreases |evs|
  {
    evs == []
    || (&& (evs[0].Desbloquea? ==> !Intruso(c, s, evs[0].clave))
        && SinIntrusos(c, Paso(c, s, evs[0]), evs[1..]))
  }

  lemma InstruccionEstrena(c: Config, s: Estado, p: Pregunta, r: Respuesta)
    requires Sana(s) && Reposo(s) && s.fase.Corriendo? && Compatible(s, p, r) && Estreno(s)
    requires s.recien ==> p.Chequear?
    ensures !Perdida(s, p, r) && Estreno(Instruccion(c, s, p, r))
  {
    ContadaMarcas(c, s, p, r);
  }

  lemma ConsolaEstrena(c: Config, s: Estado, k: string)
    requires Sana(s) && Estreno(s)
    ensures Estreno(UnlockKeyByConsole(c, s, k))
  {
    if k in s.colas {
      ConsolaEs(c, s, k);
      var a := Liberada(s, k);
      if Despierta(s, k) { AvisarEstrena(c, Pop(a, k), a.colas[k][0]); }
    }
  }

  lemma AvisarEstrena(c: Config, s: Estado, q: Quien)
    requires Estreno(s)
    ensures Estreno(Avisar(c, s, q))
  {}

  lemma PasoEstrena(c: Config, s: Estado, ev: Evento)
    requires Sana(s) && Reposo(s) && Estreno(s) && Habilitado(s, ev)
    requires ev.Instruye? && s.recien ==> ev.p.Chequear?
    ensures ev.Instruye? ==> !Perdida(s, ev.p, ev.r)
    ensures Estreno(Paso(c, s, ev)) && Reposo(Paso(c, s, ev))
  {
    match ev
    case Llega =>
    case Despacha =>
    case Instruye(p, r) => InstruccionEstrena(c, s, p, r); InstruccionReposo(c, s, p, r);
    case Desbloquea(k) => ConsolaEstrena(c, s, k); ConsolaMarcas(c, s, k);
  }

  /** ESIs whose every turn begins with a GET never end while `block` is stale, whatever the
      console does, and even in a run that has lost ESIs. */
  lemma {:induction false} GetBasta(c: Config, s: Estado, evs: seq<Evento>)
    requires Sana(s) && Reposo(s) && Estreno(s) && Corrida(c, s, evs) && TurnosConGet(c, s, evs)
    ensures SinBlockViejo(c, s, evs)
    decreases |evs|
  {
    if evs != [] {
      PasoSano(c, s, evs[0]);
      PasoEstrena(c, s, evs[0]);
      GetBasta(c, Paso(c, s, evs[0]), evs[1..]);
    }
  }

  /** So they are lost to nothing but a console unlock that hands a free CPU to an ESI, which only
      SJF-CD does. */
  lemma {:induction false} DisciplinaBasta(c: Config, s: Estado, evs: seq<Evento>)
    requires Sana(s) && Partido(s) && Reposo(s) && Estreno(s) && Corrida(c, s, evs) && TurnosConGet(c, s, evs)
    ensures TodasTersas(c, s, evs) <==> SinIntrusos(c, s, evs)
    ensures SinIntrusos(c, s, evs) ==> Partido(Final(c, s, evs))
    ensures !c.algoritmo.SJFCD? ==> SinIntrusos(c, s, evs)
    decreases |evs|
  {
    if evs != [] {
      PasoSano(c, s, evs[0]);
      PasoEstrena(c, s, evs[0]);
      PasoPartido(c, s, evs[0]);
      if Tersa(c, s, evs[0]) {
        DisciplinaBasta(c, Paso(c, s, evs[0]), evs[1..]);
      } else {
        SinSJFCD(c, s, evs);
      }
    }
  }

  lemma {:induction false} SinSJFCD(c: Config, s: Estado, evs: seq<Evento>)
    requires Corrida(c, s, evs)
    ensures !c.algoritmo.SJFCD? ==> SinIntrusos(c, s, evs)
    decreases |evs|
  {
    if evs != [] { SinSJFCD(c, Paso(c, s, evs[0]), evs[1..]); }
  }
}
