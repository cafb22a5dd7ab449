/** Where every ESI is: on the CPU, ready, in one key's queue, or finished, and nowhere else. */
module Lugares {
  import opened Planificacion
  import opened Exclusion

  datatype Lugar = Corre | Listo | Espera(clave: string) | Termino

  datatype Cpu = Libre | De(quien: Quien)

  ghost predicate Unico(l: seq<Quien>) { forall i, j | 0 <= i < j < |l| :: l[i] != l[j] }

  /** The queue of `k` holds, once each, the ESIs that wait for it. */
  ghost predicate ColaUbicada(c: seq<Quien>, k: string, l: map<Quien, Lugar>) {
    && Unico(c)
    && forall q | q != Consola :: q in c <==> q in l && l[q] == Espera(k)
  }

  /** `l` says where each of the ESIs that ever connected is; the lists agree with it. */
  ghost predicate Ubicado(s: Estado, l: map<Quien, Lugar>, cpu: Cpu) {
    && (forall q :: q in l <==> q.Esi? && 1 <= q.id <= s.numEsi)
    && Unico(s.ready) && (forall q :: q in s.ready <==> q in l && l[q] == Listo)
    && Unico(s.finalizados) && (forall q :: q in s.finalizados <==> q in l && l[q] == Termino)
    && (forall k | k in s.colas :: ColaUbicada(s.colas[k], k, l))
    && (forall q | q in l && l[q].Espera? :: l[q].clave in s.colas)
    && (forall q :: cpu == De(q) <==> q in l && l[q] == Corre)
  }

  ghost function CpuDe(s: Estado): Cpu { if s.fase.Corriendo? then De(s.unEsi) else Libre }

  /** Each ESI is in exactly one place. */
  ghost predicate Partido(s: Estado) { exists l :: Ubicado(s, l, CpuDe(s)) }

  /** Between instructions no flag is pending. */
  ghost predicate Reposo(s: Estado) { !s.abortar && FinBajo(s) }

  /** The flag of the end is never pending while an ESI has the CPU. */
  ghost predicate FinBajo(s: Estado) { s.fase.Corriendo? ==> !s.fin }

  lemma UbicadoEnmarcado(s: Estado, t: Estado, l: map<Quien, Lugar>, cpu: Cpu)
    requires Ubicado(s, l, cpu)
    requires t.ready == s.ready && t.colas == s.colas && t.finalizados == s.finalizados && t.numEsi == s.numEsi
    ensures Ubicado(t, l, cpu)
  {}

  lemma ColaAjena(c: seq<Quien>, k: string, l: map<Quien, Lugar>, q: Quien, d: Lugar)
    requires ColaUbicada(c, k, l) && q in l && l[q] != Espera(k) && d != Espera(k)
    ensures ColaUbicada(c, k, l[q := d])
  {}

  lemma ColasAjenas(s: Estado, l: map<Quien, Lugar>, q: Quien, d: Lugar)
    requires forall k | k in s.colas :: ColaUbicada(s.colas[k], k, l)
    requires q in l && !l[q].Espera? && !d.Espera?
    ensures forall k | k in s.colas :: ColaUbicada(s.colas[k], k, l[q := d])
  {
    forall k | k in s.colas ensures ColaUbicada(s.colas[k], k, l[q := d]) { ColaAjena(s.colas[k], k, l, q, d); }
  }

  /** The head of a queue goes to the ready list. */
  lemma PasaAListo(s: Estado, t: Estado, l: map<Quien, Lugar>, cpu: Cpu, k: string, q: Quien)
    requires Ubicado(s, l, cpu) && k in s.colas && s.colas[k] != [] && s.colas[k][0] == q && q != Consola
    requires t.ready == s.ready + [q] && t.finalizados == s.finalizados && t.numEsi == s.numEsi
    requires t.colas == s.colas[k := s.colas[k][1..]]
    ensures Ubicado(t, l[q := Listo], cpu)
  {
    var m := l[q := Listo];
    assert ColaUbicada(s.colas[k], k, l) && q in s.colas[k];
    forall x | x in t.colas
      ensures ColaUbicada(t.colas[x], x, m)
    {
      assert ColaUbicada(s.colas[x], x, l);
      if x == k {
        assert s.colas[k] == [q] + t.colas[k];
      }
    }
  }

  lemma ListarUbicado(c: Config, s: Estado, l: map<Quien, Lugar>, cpu: Cpu, k: string)
    requires Ubicado(s, l, cpu) && k in s.colas && s.colas[k] != [] && s.colas[k][0] != Consola
    ensures Ubicado(Listar(c, Pop(s, k), s.colas[k][0]), l[s.colas[k][0] := Listo], cpu)
  {
    PasaAListo(s, Listar(c, Pop(s, k), s.colas[k][0]), l, cpu, k, s.colas[k][0]);
  }

  /** SJF-CD: the head of a queue takes the CPU and un_esi goes to the ready list. */
  lemma DesalojaCola(s: Estado, l: map<Quien, Lugar>, k: string, q: Quien, x: string)
    requires Ubicado(s, l, De(s.unEsi)) && k in s.colas && s.colas[k] != [] && s.colas[k][0] == q != Consola
    requires x in s.colas
    ensures ColaUbicada(s.colas[k := s.colas[k][1..]][x], x, l[q := Corre][s.unEsi := Listo])
  {
    assert s.unEsi in l && l[s.unEsi] == Corre;
    assert ColaUbicada(s.colas[k], k, l) && q in s.colas[k];
    assert ColaUbicada(s.colas[x], x, l);
    assert s.colas[k] == [q] + s.colas[k][1..];
  }

  lemma DesalojaCpu(s: Estado, t: Estado, l: map<Quien, Lugar>, k: string, q: Quien)
    requires Ubicado(s, l, De(s.unEsi)) && k in s.colas && s.colas[k] != [] && s.colas[k][0] == q && q != Consola
    requires t.ready == s.ready + [s.unEsi] && t.finalizados == s.finalizados && t.numEsi == s.numEsi
    requires t.colas == s.colas[k := s.colas[k][1..]]
    ensures Ubicado(t, l[q := Corre][s.unEsi := Listo], De(q))
  {
    assert s.unEsi in l && l[s.unEsi] == Corre;
    assert ColaUbicada(s.colas[k], k, l) && q in s.colas[k];
    forall x | x in t.colas
      ensures ColaUbicada(t.colas[x], x, l[q := Corre][s.unEsi := Listo])
    {
      DesalojaCola(s, l, k, q, x);
    }
  }

  lemma AvisarUbicado(c: Config, s: Estado, l: map<Quien, Lugar>, k: string) returns (m: map<Quien, Lugar>)
    requires Ubicado(s, l, De(s.unEsi)) && k in s.colas && s.colas[k] != [] && s.colas[k][0] != Consola
    ensures var t := Avisar(c, Pop(s, k), s.colas[k][0]);
            Ubicado(t, m, De(t.unEsi))
  {
    var q, p := s.colas[k][0], Pop(s, k);
    var t := Avisar(c, p, q);
    if c.algoritmo.SJFCD? && q != p.unEsi && Estimar(Dato(p, q), c.alfa).estimada < Dato(p, p.unEsi).estimada {
      m := l[q := Corre][s.unEsi := Listo];
      DesalojaCpu(s, t, l, k, q);
    } else {
      m := l[q := Listo];
      ListarUbicado(c, s, l, De(s.unEsi), k);
      UbicadoEnmarcado(Listar(c, p, q), t, m, De(s.unEsi));
    }
  }

  lemma OrdenadoUbicado(c: Config, s: Estado, l: map<Quien, Lugar>, cpu: Cpu)
    requires Ubicado(s, l, cpu)
    ensures Ubicado(Ordenado(c, s), l, cpu)
  {
    UnicoPermutado(s.ready, Ordenar(c, s, s.ready));
    forall q ensures q in Ordenar(c, s, s.ready) <==> q in s.ready { OrdenarMiembros(c, s, s.ready, q); }
  }

  lemma UnicoMulti(l: seq<Quien>)
    ensures Unico(l) <==> forall q :: multiset(l)[q] <= 1
  {
    if |l| > 0 {
      UnicoMulti(l[1..]);
      assert l == [l[0]] + l[1..];
      if Unico(l) {
        assert Unico(l[1..]) && l[0] !in l[1..];
        forall q ensures multiset(l)[q] <= 1 {
          assert multiset(l[1..])[q] <= 1;
          assert multiset(l[1..])[l[0]] == 0;
        }
      } else if forall q :: multiset(l)[q] <= 1 {
        assert multiset(l)[l[0]] == 1 + multiset(l[1..])[l[0]];
        assert l[0] !in multiset(l[1..]);
        forall q ensures multiset(l[1..])[q] <= 1 { assert multiset(l)[q] <= 1; }
        assert Unico(l[1..]);
        forall i, j | 0 <= i < j < |l| ensures l[i] != l[j] {
          assert l[j] == l[1..][j - 1] && l[j] in multiset(l[1..]);
          if i > 0 { assert l[i] == l[1..][i - 1]; }
        }
      }
    }
  }

  lemma UnicoPermutado(l: seq<Quien>, r: seq<Quien>)
    requires Unico(l) && multiset(l) == multiset(r)
    ensures Unico(r)
  {
    UnicoMulti(l);
    UnicoMulti(r);
  }

  lemma UnlockKeyUbicado(c: Config, s: Estado, l: map<Quien, Lugar>, k: string) returns (m: map<Quien, Lugar>)
    requires Sana(s) && Ubicado(s, l, De(s.unEsi))
    ensures var t := UnlockKey(c, s, k);
            Ubicado(t, m, De(t.unEsi))
  {
    m := l;
    if EsDuenio(s, k) {
      var r := s.(reservas := Sacar(s.reservas, Exacta(s.unEsi, k)));
      SoltarSana(s, Primera(s.reservas, Exacta(s.unEsi, k)));
      UbicadoEnmarcado(s, r, l, De(s.unEsi));
      if r.colas[k] != [] {
        m := AvisarUbicado(c, r, l, k);
        var t := Avisar(c, Pop(r, k), r.colas[k][0]);
        OrdenadoUbicado(c, t, m, De(t.unEsi));
      }
    }
  }

  lemma {:induction false} ReleaseKeysUbicado(c: Config, s: Estado, l: map<Quien, Lugar>, cpu: Cpu, e: Quien)
    returns (m: map<Quien, Lugar>)
    requires Sana(s) && Ubicado(s, l, cpu)
    ensures Ubicado(ReleaseKeys(c, s, e), m, cpu)
    decreases |s.reservas|
  {
    m := l;
    var i := Primera(s.reservas, DeEsi(e));
    if i != -1 {
      var t, k := s.(reservas := Quitar(s.reservas, i)), s.reservas[i].clave;
      SoltarSana(s, i);
      UnlockEsiSana(c, t, k);
      UbicadoEnmarcado(s, t, l, cpu);
      if t.colas[k] != [] {
        m := l[t.colas[k][0] := Listo];
        ListarUbicado(c, t, l, cpu, k);
        UbicadoEnmarcado(Listar(c, Pop(t, k), t.colas[k][0]), UnlockEsi(c, t, k), m, cpu);
      }
      m := ReleaseKeysUbicado(c, UnlockEsi(c, t, k), m, cpu, e);
    }
  }

  lemma ColaCrece(s: Estado, l: map<Quien, Lugar>, k: string, e: Quien, x: string)
    requires Ubicado(s, l, De(e)) && k in s.colas && x in s.colas
    ensures ColaUbicada(if x == k then s.colas[k] + [e] else s.colas[x], x, l[e := Espera(k)])
  {
    assert e in l && l[e] == Corre;
    assert ColaUbicada(s.colas[x], x, l);
  }

  /** check_key leaves the ESI on the CPU or sends it to the queue. */
  lemma ConcedeUbicado(s: Estado, l: map<Quien, Lugar>, k: string)
    requires Ubicado(s, l, De(s.unEsi)) && Concede(s, k)
    ensures Ubicado(CheckKey(s, k), l, De(s.unEsi))
  {
    if k !in s.colas { assert ColaUbicada([], k, l); }
  }

  lemma CheckKeyUbicado(s: Estado, l: map<Quien, Lugar>, k: string) returns (m: map<Quien, Lugar>)
    requires Ubicado(s, l, De(s.unEsi))
    ensures Ubicado(CheckKey(s, k), m, if Concede(s, k) then De(s.unEsi) else Cpu.Libre)
  {
    if Concede(s, k) {
      m := l;
      ConcedeUbicado(s, l, k);
    } else {
      m := l[s.unEsi := Espera(k)];
      SeEncola(s, CheckKey(s, k), l, k);
    }
  }

  /** The ESI on the CPU goes to the end of a queue. */
  lemma SeEncola(s: Estado, t: Estado, l: map<Quien, Lugar>, k: string)
    requires Ubicado(s, l, De(s.unEsi)) && k in s.colas
    requires t.ready == s.ready && t.finalizados == s.finalizados && t.numEsi == s.numEsi
    requires t.colas == s.colas[k := s.colas[k] + [s.unEsi]]
    ensures Ubicado(t, l[s.unEsi := Espera(k)], Cpu.Libre)
  {
    assert s.unEsi in l && l[s.unEsi] == Corre;
    forall x | x in t.colas
      ensures ColaUbicada(t.colas[x], x, l[s.unEsi := Espera(k)])
    {
      ColaCrece(s, l, k, s.unEsi, x);
    }
  }

  /** The ESI on the CPU goes to the finished queue. */
  lemma TerminaUbicado(s: Estado, t: Estado, l: map<Quien, Lugar>)
    requires Ubicado(s, l, De(s.unEsi))
    requires t.ready == s.ready && t.colas == s.colas && t.numEsi == s.numEsi
    requires t.finalizados == s.finalizados + [s.unEsi]
    ensures Ubicado(t, l[s.unEsi := Termino], Cpu.Libre)
  {
    assert s.unEsi in l && l[s.unEsi] == Corre;
    ColasAjenas(s, l, s.unEsi, Termino);
  }

  lemma FinishEsiUbicado(c: Config, s: Estado, l: map<Quien, Lugar>) returns (m: map<Quien, Lugar>)
    requires Sana(s) && !s.fase.Arranque? && Ubicado(s, l, De(s.unEsi)) && !s.block
    ensures Ubicado(FinishEsi(c, s), m, Cpu.Libre)
  {
    var f := s.(finalizados := s.finalizados + [s.unEsi]);
    TerminaUbicado(s, f, l);
    m := l[s.unEsi := Termino];
    if !f.abortar {
      SanaEnmarcada(s, f);
      m := ReleaseKeysUbicado(c, f, m, Cpu.Libre, f.unEsi);
      UbicadoEnmarcado(ReleaseKeys(c, f, f.unEsi), FinishEsi(c, s), m, Cpu.Libre);
    } else {
      UbicadoEnmarcado(f, FinishEsi(c, s), m, Cpu.Libre);
    }
  }

  // ---- the instruction ----

  /** The state when the ESI's report has been taken and counted. */
  function Contada(c: Config, s: Estado, p: Pregunta, r: Respuesta): Estado {
    UpdateValues(c, Reportar(Preguntado(c, s, p), r))
  }

  lemma WaitQuestionMarcas(c: Config, s: Estado, p: Pregunta)
    ensures var w := WaitQuestion(c, s, p);
            && w.fase == s.fase && w.fin == s.fin
            && w.block == (if p.Chequear? then !Concede(s, p.clave) else s.block)
            && w.abortar == (p.Abortar? || s.abortar)
  {
    if p.Guardar? { UnlockKeyFase(c, s, p.clave); }
  }

  /** What the flags say once an answer has been taken; a stale abort flag survives an answer
      that is not an end, and a good end clears it. */
  lemma ContadaBanderas(c: Config, s: Estado, p: Pregunta, r: Respuesta)
    requires s.fase.Corriendo? && FinBajo(s) && Compatible(s, p, r)
    ensures var u := Contada(c, s, p, r);
            && u.block == (if p.Chequear? then r.Bloqueo? else s.block)
            && u.fin == (r.Fin? || r.Aborto?)
            && (r.Fin? ==> !u.abortar) && (r.Aborto? ==> u.abortar)
  {
    WaitQuestionMarcas(c, s, p);
    UpdateValuesMarcas(c, Reportar(Preguntado(c, s, p), r));
  }

  lemma UpdateValuesMarcas(c: Config, s: Estado)
    ensures var u := UpdateValues(c, s);
            u.block == s.block && u.fin == s.fin && u.abortar == s.abortar
  {}

  lemma InstruccionFin(c: Config, s: Estado, p: Pregunta, r: Respuesta)
    ensures FinBajo(Instruccion(c, s, p, r))
  {}

  lemma ContadaMarcas(c: Config, s: Estado, p: Pregunta, r: Respuesta)
    requires s.fase.Corriendo? && Reposo(s) && Compatible(s, p, r)
    ensures var u := Contada(c, s, p, r);
            && u.fase.Corriendo?
            && u.block == (if p.Chequear? then r.Bloqueo? else s.block)
            && u.abortar == r.Aborto? && u.fin == (r.Fin? || r.Aborto?)
  {
    WaitQuestionMarcas(c, s, p);
  }

  lemma WaitQuestionUbicado(c: Config, s: Estado, l: map<Quien, Lugar>, p: Pregunta) returns (m: map<Quien, Lugar>)
    requires Sana(s) && Ubicado(s, l, De(s.unEsi))
    ensures var w := WaitQuestion(c, s, p);
            Ubicado(w, m, if p.Chequear? && !Concede(s, p.clave) then Cpu.Libre else De(w.unEsi))
  {
    m := l;
    match p {
      case Chequear(k) => m := CheckKeyUbicado(s, l, k);
      case Guardar(k) => m := UnlockKeyUbicado(c, s, l, k);
      case Poner(_) =>
      case Abortar => UbicadoEnmarcado(s, WaitQuestion(c, s, p), l, De(s.unEsi));
    }
  }

  /** The lists, the owners and the counter are as the question left them. */
  ghost predicate MismasListas(w: Estado, u: Estado) {
    && u.ready == w.ready && u.colas == w.colas && u.finalizados == w.finalizados
    && u.numEsi == w.numEsi && u.unEsi == w.unEsi && u.reservas == w.reservas
    && u.hayEsis == w.hayEsis && u.mudos == w.mudos
  }

  lemma CuentaListas(c: Config, s: Estado, q: Estado, r: Respuesta)
    ensures MismasListas(q, UpdateValues(c, Reportar(Estrenar(s, q), r)))
  {
    ReportaListas(s, q, r);
    UpdateValuesListas(c, Reportar(Estrenar(s, q), r));
  }

  lemma ReportaListas(s: Estado, q: Estado, r: Respuesta)
    ensures MismasListas(q, Reportar(Estrenar(s, q), r))
  {}

  lemma UpdateValuesListas(c: Config, s: Estado)
    ensures MismasListas(s, UpdateValues(c, s))
  {}

  lemma ContadaUbicada(c: Config, s: Estado, l: map<Quien, Lugar>, p: Pregunta, r: Respuesta)
    returns (m: map<Quien, Lugar>)
    requires Sana(s) && s.fase.Corriendo? && Compatible(s, p, r) && Ubicado(s, l, De(s.unEsi))
    ensures var u := Contada(c, s, p, r);
            Ubicado(u, m, if r.Bloqueo? then Cpu.Libre else De(u.unEsi))
  {
    m := WaitQuestionUbicado(c, s, l, p);
    var w, u := WaitQuestion(c, s, p), Contada(c, s, p, r);
    CuentaListas(c, s, w, r);
    UbicadoEnmarcado(w, u, m, if r.Bloqueo? then Cpu.Libre else De(u.unEsi));
  }

  lemma ContadaSana(c: Config, s: Estado, p: Pregunta, r: Respuesta)
    requires Sana(s) && s.fase.Corriendo?
    ensures Sana(Contada(c, s, p, r))
  {
    PreguntadoSana(c, s, p);
    UpdateValuesSana(c, Preguntado(c, s, p), r);
  }

  lemma CerrarNumEsi(c: Config, u: Estado, bloqueado: bool)
    ensures Cerrar(c, u, bloqueado).numEsi == u.numEsi
  {
    var v := if !bloqueado then u else if u.abortar then FinishEsi(c, u) else u.(fin := true);
    ReleaseKeysFase(c, u.(finalizados := u.finalizados + [u.unEsi]), u.unEsi);
    ReleaseKeysFase(c, v.(finalizados := v.finalizados + [v.unEsi]), v.unEsi);
  }

  lemma InstruccionNumEsi(c: Config, s: Estado, p: Pregunta, r: Respuesta)
    ensures Instruccion(c, s, p, r).numEsi == s.numEsi
  {
    WaitQuestionMarcas(c, s, p);
    if p.Guardar? { UnlockKeyFase(c, s, p.clave); }
    CuentaListas(c, s, WaitQuestion(c, s, p), r);
    CerrarNumEsi(c, Contada(c, s, p, r), r.Bloqueo?);
  }

  /** finish_esi finds `block` left set by an earlier instruction. */
  ghost predicate Perdida(s: Estado, p: Pregunta, r: Respuesta) {
    s.block && !p.Chequear? && (r.Fin? || r.Aborto?)
  }

  /** Whatever the lists hold, an instruction that loses nobody leaves no flag pending. */
  lemma InstruccionReposo(c: Config, s: Estado, p: Pregunta, r: Respuesta)
    requires Reposo(s) && s.fase.Corriendo? && Compatible(s, p, r) && !Perdida(s, p, r)
    ensures Reposo(Instruccion(c, s, p, r))
  {
    ContadaMarcas(c, s, p, r);
    if r.Fin? || r.Aborto? { FinishEsiReposo(c, Contada(c, s, p, r)); }
  }

  /** An ESI that blocks leaves the CPU exactly when `abort_esi` is clear; set, as an ESI lost with an
      abort leaves it, the blocked one stays on the CPU and waits in the queue. */
  lemma BloqueaDeja(c: Config, s: Estado, p: Pregunta, r: Respuesta)
    requires s.fase.Corriendo? && FinBajo(s) && Compatible(s, p, r) && r.Bloqueo?
    ensures var t := Instruccion(c, s, p, r);
            && (t.fase.Corriendo? <==> s.abortar)
            && t.unEsi == s.unEsi && p.clave in t.colas && s.unEsi in t.colas[p.clave]
  {}

  lemma InstruccionParte(c: Config, s: Estado, p: Pregunta, r: Respuesta)
    requires Sana(s) && Partido(s) && Reposo(s) && s.fase.Corriendo? && Compatible(s, p, r)
    requires !Perdida(s, p, r)
    ensures Partido(Instruccion(c, s, p, r)) && Reposo(Instruccion(c, s, p, r))
  {
    var l :| Ubicado(s, l, CpuDe(s));
    var u, t := Contada(c, s, p, r), Instruccion(c, s, p, r);
    var m := ContadaUbicada(c, s, l, p, r);
    InstruccionReposo(c, s, p, r);
    ContadaMarcas(c, s, p, r);
    ContadaSana(c, s, p, r);
    if r.Bloqueo? {
      UbicadoEnmarcado(u, t, m, Cpu.Libre);
    } else if r.Fin? || r.Aborto? {
      m := FinishEsiUbicado(c, u, m);
      UbicadoEnmarcado(FinishEsi(c, u), t, m, Cpu.Libre);
      FinishEsiReposo(c, u);
    }
    assert Ubicado(t, m, CpuDe(t));
  }

  lemma FinishEsiReposo(c: Config, s: Estado)
    requires !s.block
    ensures !FinishEsi(c, s).abortar && FinishEsi(c, s).numEsi == s.numEsi
  {
    ReleaseKeysFase(c, s.(finalizados := s.finalizados + [s.unEsi]), s.unEsi);
  }

  /** A lost ESI: the one on the CPU is in no list and the CPU is free. */
  lemma InstruccionPierde(c: Config, s: Estado, p: Pregunta, r: Respuesta)
    requires Sana(s) && Partido(s) && Reposo(s) && s.fase.Corriendo? && Compatible(s, p, r)
    requires Perdida(s, p, r)
    ensures !Partido(Instruccion(c, s, p, r))
  {
    var l :| Ubicado(s, l, CpuDe(s));
    var u := Contada(c, s, p, r);
    var m := ContadaUbicada(c, s, l, p, r);
    ContadaMarcas(c, s, p, r);
    CerrarPierde(c, u, m);
  }

  lemma CerrarPierde(c: Config, u: Estado, m: map<Quien, Lugar>)
    requires Ubicado(u, m, De(u.unEsi)) && u.block && u.fin
    ensures !Partido(Cerrar(c, u, false))
  {
    forall n ensures !Ubicado(u.(fase := Esperando), n, Cpu.Libre) { EnNingunLado(u, m, n, u.unEsi); }
  }

  /** The ESI on the CPU is in no list, so the CPU cannot be taken for free. */
  lemma EnNingunLado(u: Estado, m: map<Quien, Lugar>, n: map<Quien, Lugar>, e: Quien)
    requires Ubicado(u, m, De(e))
    ensures !Ubicado(u.(fase := Esperando), n, Cpu.Libre)
  {
    assert e in m && m[e] == Corre && e != Consola;
    if e in n && n[e].Espera? && n[e].clave in u.colas {
      assert ColaUbicada(u.colas[n[e].clave], n[e].clave, m);
    }
  }

  /** With the flag `block` living on between instructions, an instruction loses no ESI and
      puts none in two places exactly when the ESI does not end while `block` is stale. */
  lemma InstruccionPartida(c: Config, s: Estado, p: Pregunta, r: Respuesta)
    requires Sana(s) && Partido(s) && Reposo(s) && s.fase.Corriendo? && Compatible(s, p, r)
    ensures Partido(Instruccion(c, s, p, r)) <==> !Perdida(s, p, r)
    ensures !Perdida(s, p, r) ==> Reposo(Instruccion(c, s, p, r))
  {
    if Perdida(s, p, r) { InstruccionPierde(c, s, p, r); } else { InstruccionParte(c, s, p, r); }
  }
}
