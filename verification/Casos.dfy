/** Runs from the start of the Planificador that reach the states its promises except. */
module Casos {
  import opened Planificacion
  import opened Lugares
  import opened SinPerdida

  const E1 := Esi(1)
  const E2 := Esi(2)

  const BLOQUEA := Instruye(Chequear("k"), Bloqueo)

  /** Two ESIs come; the first blocks on the key of the console, and the second gets the CPU. */
  const PRIMEROS := [Llega, Llega, Despacha, BLOQUEA, Despacha]

  lemma Encadena(c: Config, s: Estado, ev: Evento, evs: seq<Evento>)
    requires Habilitado(s, ev) && Corrida(c, Paso(c, s, ev), evs)
    ensures Corrida(c, s, [ev] + evs) && Final(c, s, [ev] + evs) == Final(c, Paso(c, s, ev), evs)
  {
    assert ([ev] + evs)[1..] == evs;
  }

  lemma UnoSolo(c: Config, s: Estado, q: Quien)
    ensures Ordenar(c, s, [q]) == [q]
  {
    assert [q][1..] == [];
    assert Ordenar(c, s, [q]) == Insertar(c, s, q, []);
  }

  /** Two ESIs come, and the first has the CPU. */
  function DosEsis(c: Config): Estado {
    var s := NuevoEsi(c, NuevoEsi(c, Inicial({"k"})));
    Despachar(c, s)
  }

  lemma DosEsisEs(c: Config)
    ensures var s, e := DosEsis(c), c.inicial as real;
            && s.fase.Corriendo? && s.unEsi == E1 && s.ready == [E2] && s.hayEsis == 1
            && s.colas == map["k" := [Consola]] && s.reservas == [] && s.finalizados == [] && s.numEsi == 2
            && !s.block && !s.abortar && !s.fin
            && s.datos == map[E1 := Datos(0, e, e, 0.0), E2 := Datos(0, e, e, 0.0)]
    ensures Corrida(c, Inicial({"k"}), [Llega, Llega, Despacha])
    ensures Final(c, Inicial({"k"}), [Llega, Llega, Despacha]) == DosEsis(c)
  {
    var s0 := Inicial({"k"});
    var s1 := NuevoEsi(c, s0);
    var s2 := NuevoEsi(c, s1);
    assert s2.ready == [E1, E2];
    Encadena(c, s2, Despacha, []);
    Encadena(c, s1, Llega, [Despacha]);
    Encadena(c, s0, Llega, [Llega, Despacha]);
    assert [Llega] + ([Llega] + ([Despacha] + [])) == [Llega, Llega, Despacha];
  }

  /** An ESI asks for a key that somebody waits for, and leaves the CPU. */
  lemma SeBloquea(c: Config, s: Estado, k: string)
    requires s.fase.Corriendo? && !s.abortar && !s.fin && k in s.colas && s.colas[k] != []
    ensures Habilitado(s, Instruye(Chequear(k), Bloqueo))
    ensures var t := Paso(c, s, Instruye(Chequear(k), Bloqueo));
            && t.fase.Esperando? && t.block && !t.abortar && t.unEsi == s.unEsi && t.ready == s.ready
            && t.hayEsis == s.hayEsis && t.colas == s.colas[k := s.colas[k] + [s.unEsi]]
            && t.reservas == s.reservas && t.finalizados == s.finalizados && t.numEsi == s.numEsi
            && t.datos == UpdateValues(c, s).datos
  {
    var p := Chequear(k);
    CuentaListas(c, s, WaitQuestion(c, s, p), Bloqueo);
    ContadaBanderas(c, s, p, Bloqueo);
    BloqueoDatos(c, s, k);
  }

  lemma BloqueoDatos(c: Config, s: Estado, k: string)
    requires s.fase.Corriendo? && !s.abortar && !s.fin && k in s.colas && s.colas[k] != []
    ensures var u := Contada(c, s, Chequear(k), Bloqueo);
            && u.datos == UpdateValues(c, s).datos && u.block && !u.abortar && !u.fin
            && Cerrar(c, u, true) == u.(fin := true, fase := Esperando)
  {}

  /** The first ESI has blocked on the key of the console and the second has the CPU. */
  lemma SegundoCorre(c: Config)
    ensures Corrida(c, Inicial({"k"}), PRIMEROS)
    ensures var f := Final(c, Inicial({"k"}), PRIMEROS);
               && f.fase.Corriendo? && f.unEsi == E2 && f.ready == [] && f.block && !f.abortar && !f.fin
               && f.colas == map["k" := [Consola, E1]] && f.reservas == []
               && f.datos == UpdateValues(c, DosEsis(c)).datos
  {
    var s3 := DosEsis(c);
    DosEsisEs(c);
    SeBloquea(c, s3, "k");
    var s4 := Paso(c, s3, BLOQUEA);
    assert s4.colas["k"] == [Consola, E1];
    assert s4.colas == map["k" := [Consola, E1]];
    UnoSolo(c, s4, E2);
    var s5 := Despachar(c, s4);
    Encadena(c, s4, Despacha, []);
    Encadena(c, s3, BLOQUEA, [Despacha]);
    Sigue(c, Inicial({"k"}), [Llega, Llega, Despacha], [BLOQUEA] + [Despacha]);
    assert [Llega, Llega, Despacha] + ([BLOQUEA] + [Despacha]) == PRIMEROS;
  }

  lemma {:induction false} Sigue(c: Config, s: Estado, evs: seq<Evento>, mas: seq<Evento>)
    requires Corrida(c, s, evs) && Corrida(c, Final(c, s, evs), mas)
    ensures Corrida(c, s, evs + mas) && Final(c, s, evs + mas) == Final(c, Final(c, s, evs), mas)
    decreases |evs|
  {
    if evs == [] {
      assert evs + mas == mas;
    } else {
      Sigue(c, Paso(c, s, evs[0]), evs[1..], mas);
      assert (evs + mas)[1..] == evs[1..] + mas;
    }
  }

  /** Under each algorithm a run reaches a state where an ESI that aborts is lost: the first ESI
      blocked, and the second aborts before any GET. */
  lemma PerdidaAlcanzable(c: Config)
    ensures Corrida(c, Inicial({"k"}), PRIMEROS)
    ensures var f := Final(c, Inicial({"k"}), PRIMEROS);
            Habilitado(f, Instruye(Abortar, Aborto)) && Perdida(f, Abortar, Aborto)
  {
    SegundoCorre(c);
  }

  /** Under SJF-CD a run reaches a state where the console's unlock lets an intruder onto the
      free CPU: both ESIs blocked, and the first, which has run one instruction, is woken. */
  lemma IntrusoAlcanzable(c: Config)
    requires c == Config(SJFCD, 100, 10)
    ensures Corrida(c, Inicial({"k"}), PRIMEROS + [BLOQUEA])
    ensures Intruso(c, Final(c, Inicial({"k"}), PRIMEROS + [BLOQUEA]), "k")
  {
    SegundoCorre(c);
    var s5 := Final(c, Inicial({"k"}), PRIMEROS);
    SeBloquea(c, s5, "k");
    Encadena(c, s5, BLOQUEA, []);
    Sigue(c, Inicial({"k"}), PRIMEROS, [BLOQUEA] + []);
    assert [BLOQUEA] + [] == [BLOQUEA];
    TrasBloqueo(c, s5, Paso(c, s5, BLOQUEA));
  }

  lemma TrasBloqueo(c: Config, s5: Estado, s6: Estado)
    requires c == Config(SJFCD, 100, 10)
    requires s5.unEsi == E2 && s5.colas == map["k" := [Consola, E1]] && s5.reservas == []
    requires s5.datos == UpdateValues(c, DosEsis(c)).datos
    requires s6.fase.Esperando? && s6.unEsi == E2 && s6.reservas == [] && s6.datos == UpdateValues(c, s5).datos
    requires s6.colas == s5.colas["k" := s5.colas["k"] + [E2]]
    ensures Intruso(c, s6, "k")
  {
    DatosDeSeis(c, s5, s6);
    IntrusoEn(c, s6);
  }

  /** Each of the two has run its instruction. */
  lemma DatosDeSeis(c: Config, s5: Estado, s6: Estado)
    requires c == Config(SJFCD, 100, 10) && s5.unEsi == E2
    requires s5.datos == UpdateValues(c, DosEsis(c)).datos && s6.datos == UpdateValues(c, s5).datos
    requires s5.colas == map["k" := [Consola, E1]] && s6.colas == s5.colas["k" := s5.colas["k"] + [E2]]
    ensures Dato(s6, E1).instrucciones == 1 && Dato(s6, E2).estimada == 9.0
    ensures s6.colas == map["k" := [Consola, E1, E2]]
  {
    DosEsisEs(c);
    assert Dato(s5, E1) == Datos(1, 9.0, 10.0, 0.0) && Dato(s5, E2) == Datos(0, 10.0, 10.0, 0.0);
    assert s6.colas["k"] == [Consola, E1, E2];
  }

  lemma IntrusoEn(c: Config, s: Estado)
    requires c == Config(SJFCD, 100, 10)
    requires s.fase.Esperando? && s.unEsi == E2 && s.colas == map["k" := [Consola, E1, E2]]
    requires s.reservas == [] && Dato(s, E1).instrucciones == 1 && Dato(s, E2).estimada == 9.0
    ensures Intruso(c, s, "k")
  {
    var r := s.(reservas := Sacar(s.reservas, DeClave("k")));
    assert r.colas["k"][0] == Consola;
    assert Liberada(s, "k").colas["k"] == [E1, E2];
    assert Estimar(Dato(s, E1), 100).estimada == 1.0;
  }
}
