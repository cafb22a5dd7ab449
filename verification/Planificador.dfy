/** The Planificador process: its lists, queues and flags changed in place, each operation
    proved equal to the functions that the invariants are about. */
module Planificadores {
  import opened Planificacion
  import D = Despacho
  import Exclusion
  import Relevos

  /** The answers to the coordinator: 31, 32, 34 and 35 on the wire. */
  datatype Contesta = ClaveLibre | ClaveBloqueada | Tiene | NoTiene | Nada

  class Planificador {
    const config: Config
    var fase: Fase
    var unEsi: Quien
    var listaReady: seq<Quien>
    var listaBloqueados: map<string, seq<Quien>>
    var clavesBloqueadasPorEsis: seq<Reserva>
    var finishedEsis: seq<Quien>
    var esis: map<Quien, Datos>
    var hayEsis: int
    var block: bool
    var abortEsi: bool
    var finDeEsi: bool
    var numEsi: nat
    ghost var mudos: nat
    ghost var recien: bool

    ghost function Actual(): (s: Estado)
      reads this
    {
      Estado(fase, unEsi, listaReady, listaBloqueados, clavesBloqueadasPorEsis, finishedEsis, esis, hayEsis,
             block, abortEsi, finDeEsi, numEsi, mudos, recien)
    }

    /** new_blocked_keys, with the keys of the configuration. */
    constructor (c: Config, blockedKeys: seq<string>)
      ensures config == c && Actual() == Inicial(set k | k in blockedKeys)
    {
      config := c;
      fase, unEsi, listaReady, clavesBloqueadasPorEsis := Arranque, Consola, [], [];
      finishedEsis, esis, hayEsis, numEsi := [], map[], 0, 0;
      block, abortEsi, finDeEsi := false, false, false;
      mudos, recien := 0, false;
      listaBloqueados := map[];
      new;
      var i := 0;
      while i < |blockedKeys|
        invariant 0 <= i <= |blockedKeys|
        invariant listaBloqueados == map k | k in blockedKeys[..i] :: [Consola]
        invariant Actual().(colas := map[]) == Inicial({})
      {
        listaBloqueados := listaBloqueados[blockedKeys[i] := [Consola]];
        assert blockedKeys[..i + 1] == blockedKeys[..i] + [blockedKeys[i]];
        i := i + 1;
      }
      assert blockedKeys[..i] == blockedKeys;
      assert Inicial({}).colas == map[];
    }

    method EsiHasKey(key: string) returns (b: bool)
      ensures b == EsDuenio(Actual(), key)
    {
      b := Primera(clavesBloqueadasPorEsis, Exacta(unEsi, key)) != -1;
      assert b ==> clavesBloqueadasPorEsis[Primera(clavesBloqueadasPorEsis, Exacta(unEsi, key))]
                   in clavesBloqueadasPorEsis;
    }

    method IsKeyBlocked(key: string) returns (b: bool)
      ensures b == Tomada(Actual(), key)
    {
      b := Primera(clavesBloqueadasPorEsis, DeClave(key)) != -1;
      assert b ==> clavesBloqueadasPorEsis[Primera(clavesBloqueadasPorEsis, DeClave(key))]
                   in clavesBloqueadasPorEsis;
    }

    /** check_key: the key is granted exactly when nobody owns it and nobody waits for it. */
    method CheckKey(key: string) returns (r: Contesta)
      modifies this
      ensures Actual() == Planificacion.CheckKey(old(Actual()), key)
      ensures r == if Concede(old(Actual()), key) then ClaveLibre else ClaveBloqueada
      ensures Exclusion.Sana(old(Actual())) ==>
                r == if Relevos.Ocupada(old(Actual()), key) then ClaveBloqueada else ClaveLibre
    {
      ghost var s := Actual();
      if Exclusion.Sana(s) { Relevos.ConcedeSii(s, key); }
      block := false;
      if key !in listaBloqueados {
        listaBloqueados := listaBloqueados[key := []];
        clavesBloqueadasPorEsis := clavesBloqueadasPorEsis + [Reserva(unEsi, key)];
        return ClaveLibre;
      }
      if listaBloqueados[key] == [] {
        var tomada := IsKeyBlocked(key);
        assert tomada == Tomada(old(Actual()), key);
        if !tomada {
          clavesBloqueadasPorEsis := clavesBloqueadasPorEsis + [Reserva(unEsi, key)];
          return ClaveLibre;
        }
      }
      listaBloqueados := listaBloqueados[key := listaBloqueados[key] + [unEsi]];
      block := true;
      r := ClaveBloqueada;
    }

    /** calculate_estimation. */
    method CalculateEstimation(q: Quien)
      modifies `esis
      ensures esis == old(esis)[q := Estimar(Dato(old(Actual()), q), config.alfa)]
    {
      var d := DataOf(q);
      var i := d.instrucciones;
      var cpu := Truncar(d.previa);
      var a := config.alfa as real / 100.0;
      var nuevaEstimacion := a * i as real + (1.0 - a) * cpu as real;
      assert nuevaEstimacion == Estimar(d, config.alfa).estimada;
      assert d.(previa := d.estimada, estimada := nuevaEstimacion) == Estimar(d, config.alfa);
      esis := esis[q := d.(previa := d.estimada, estimada := nuevaEstimacion)];
    }

    /** The switch of unlock_key and of the console. */
    method Wake(q: Quien)
      modifies this
      ensures Actual() == Despertar(config, old(Actual()), q)
    {
      ghost var s := Actual();
      CalculateEstimation(q);
      ghost var d := Estimar(Dato(s, q), config.alfa);
      assert Actual() == s.(datos := s.datos[q := d]);
      if config.algoritmo.SJFCD? {
        DespertarCon(config, s, q, d);
        ShorterRuns(q);
      } else {
        Enlist(q);
      }
    }

    /** The end of the cases that preempt nobody; HRRN starts the wait afresh. */
    method Enlist(q: Quien)
      requires q in esis
      modifies `esis, `listaReady
      ensures listaReady == old(listaReady) + [q]
      ensures esis == if config.algoritmo.HRRN? then old(esis)[q := old(esis)[q].(espera := 0.0)] else old(esis)
    {
      if config.algoritmo.HRRN? {
        esis := esis[q := esis[q].(espera := 0.0)];
      }
      listaReady := listaReady + [q];
    }

    /** The shorter of `q` and the running ESI has the CPU, and the other is ready. */
    method ShorterRuns(q: Quien)
      requires q in esis
      modifies this
      ensures Actual() == Corta(old(Actual()), q)
    {
      var propia := DataOf(unEsi);
      if esis[q].estimada < propia.estimada {
        listaReady := listaReady + [unEsi];
        unEsi := q;
        recien := true;
      } else {
        listaReady := listaReady + [q];
      }
    }

    /** sort_list_by_algorithm on lista_ready: each element goes before the first that it may precede. */
    method SortListByAlgorithm()
      modifies `listaReady
      ensures Actual() == Ordenado(config, old(Actual()))
    {
      var r, n := [], |listaReady|;
      ghost var s := Actual();
      assert listaReady[n..] == [];
      while n > 0
        invariant 0 <= n <= |listaReady| && r == Ordenar(config, s, listaReady[n..])
        invariant listaReady == s.ready
      {
        n := n - 1;
        assert listaReady[n..][1..] == listaReady[n + 1..];
        r := InsertSorted(config, s, esis, listaReady[n], r);
      }
      assert listaReady[0..] == listaReady;
      listaReady := r;
    }

    method DataOf(q: Quien) returns (d: Datos)
      ensures d == Dato(Actual(), q)
    {
      d := if q in esis then esis[q] else NADIE;
    }

    /** queue_pop on the queue of a key. */
    method PopQueue(key: string) returns (q: Quien)
      requires key in listaBloqueados && listaBloqueados[key] != []
      modifies `listaBloqueados
      ensures q == old(listaBloqueados[key][0]) && Actual() == Pop(old(Actual()), key)
    {
      q := listaBloqueados[key][0];
      listaBloqueados := listaBloqueados[key := listaBloqueados[key][1..]];
    }

    /** list_remove_by_condition on the list of owners. */
    method RemoveOwner(f: Filtro) returns (i: int, r: Reserva)
      modifies `clavesBloqueadasPorEsis
      ensures i == Primera(old(clavesBloqueadasPorEsis), f)
      ensures clavesBloqueadasPorEsis == Sacar(old(clavesBloqueadasPorEsis), f)
      ensures i != -1 ==> r == old(clavesBloqueadasPorEsis)[i]
    {
      r := Reserva(Consola, "");
      i := Primera(clavesBloqueadasPorEsis, f);
      if i != -1 {
        r := clavesBloqueadasPorEsis[i];
        clavesBloqueadasPorEsis := Quitar(clavesBloqueadasPorEsis, i);
      }
    }

    /** queue_pop, the switch and the post of hay_esis. */
    method Notify(key: string)
      requires key in listaBloqueados && listaBloqueados[key] != []
      modifies this
      ensures Actual() == Avisar(config, Pop(old(Actual()), key), old(listaBloqueados)[key][0])
    {
      var otroEsi := PopQueue(key);
      ghost var p := Actual();
      Wake(otroEsi);
      assert hayEsis == Despertar(config, p, otroEsi).hayEsis == p.hayEsis;
      hayEsis := hayEsis + 1;
    }

    /** unlock_key. */
    method UnlockKey(key: string) returns (r: Contesta)
      modifies this
      ensures Actual() == Planificacion.UnlockKey(config, old(Actual()), key)
      ensures r == if EsDuenio(old(Actual()), key) then Tiene else NoTiene
    {
      var tiene := EsiHasKey(key);
      if !tiene { return NoTiene; }
      var i, reserva := RemoveOwner(Exacta(unEsi, key));
      r := Tiene;
      if key !in listaBloqueados || listaBloqueados[key] == [] { return; }
      Notify(key);
      SortListByAlgorithm();
    }

    /** unlock_esi. */
    method UnlockEsi(key: string)
      modifies this
      ensures Actual() == Planificacion.UnlockEsi(config, old(Actual()), key)
    {
      if key !in listaBloqueados || listaBloqueados[key] == [] { return; }
      var otroEsi := PopQueue(key);
      CalculateEstimation(otroEsi);
      Enlist(otroEsi);
      mudos := mudos + 1;
    }

    /** release_keys_and_unlock_esis. */
    method ReleaseKeysAndUnlockEsis(esi: Quien)
      modifies this
      ensures Actual() == ReleaseKeys(config, old(Actual()), esi)
    {
      ghost var s := Actual();
      var i, r := RemoveOwner(DeEsi(esi));
      while i != -1
        invariant ReleaseKeys(config, s, esi) == if i == -1 then Actual()
                  else ReleaseKeys(config, Planificacion.UnlockEsi(config, Actual(), r.clave), esi)
        decreases |clavesBloqueadasPorEsis|, i != -1
      {
        UnlockEsi(r.clave);
        ghost var t := Actual();
        i, r := RemoveOwner(DeEsi(esi));
        assert i != -1 ==> Actual() == t.(reservas := Quitar(t.reservas, i));
      }
    }

    /** finish_esi. */
    method FinishEsi()
      modifies this
      ensures Actual() == Planificacion.FinishEsi(config, old(Actual()))
    {
      if block { return; }
      finishedEsis := finishedEsis + [unEsi];
      if !abortEsi { ReleaseKeysAndUnlockEsis(unEsi); }
      abortEsi := false;
    }

    /** update_values, with refresh_waiting_time. */
    method UpdateValues()
      modifies `esis
      ensures Actual() == Planificacion.UpdateValues(config, old(Actual()))
    {
      var d := if unEsi in esis then esis[unEsi] else NADIE;
      d := d.(instrucciones := d.instrucciones + 1);
      match config.algoritmo {
        case HRRN =>
          esis := esis[unEsi := d];
          esis := map q | q in esis :: if q in listaReady then esis[q].(espera := esis[q].espera + 1.0) else esis[q];
        case _ => esis := esis[unEsi := d.(estimada := d.estimada - 1.0)];
      }
    }

    /** unlock_key_by_console. */
    method UnlockKeyByConsole(key: string)
      modifies this
      ensures Actual() == Planificacion.UnlockKeyByConsole(config, old(Actual()), key)
    {
      if key !in listaBloqueados { return; }
      var i, r := RemoveOwner(DeClave(key));
      if listaBloqueados[key] == [] { return; }
      if listaBloqueados[key][0] == Consola {
        var consola := PopQueue(key);
        if listaBloqueados[key] == [] { return; }
      }
      Notify(key);
    }

    /** list_blocked_esis: the queue goes round once, and is as it was. */
    method ListBlockedEsis(key: string) returns (nombres: seq<Quien>)
      modifies `listaBloqueados
      ensures Actual() == old(Actual())
      ensures nombres == if key in listaBloqueados then listaBloqueados[key] else []
    {
      nombres := [];
      if key !in listaBloqueados { return; }
      ghost var m, c := listaBloqueados, listaBloqueados[key];
      var cant := |listaBloqueados[key]|;
      for i := 0 to cant
        invariant key in listaBloqueados && listaBloqueados[key] == c[i..] + c[..i] && nombres == c[..i]
        invariant listaBloqueados == m[key := listaBloqueados[key]]
      {
        Gira(c, i);
        var q := RotateQueue(key);
        nombres := nombres + [q];
      }
      assert listaBloqueados[key] == c;
      assert listaBloqueados == m;
    }

    method RotateQueue(key: string) returns (q: Quien)
      requires key in listaBloqueados && listaBloqueados[key] != []
      modifies `listaBloqueados
      ensures q == old(listaBloqueados[key])[0]
      ensures listaBloqueados == old(listaBloqueados)[key := old(listaBloqueados[key])[1..] + [q]]
    {
      q := PopQueue(key);
      listaBloqueados := listaBloqueados[key := listaBloqueados[key] + [q]];
    }

    /** wait_question: the 31, 32, 33 and 34 of the coordinator. */
    method WaitQuestion(p: Pregunta) returns (r: Contesta)
      modifies this
      ensures Actual() == Planificacion.WaitQuestion(config, old(Actual()), p)
      ensures p.Poner? ==> r == if EsDuenio(old(Actual()), p.clave) then Tiene else NoTiene
    {
      r := Nada;
      match p {
        case Chequear(k) => r := CheckKey(k);
        case Guardar(k) => r := UnlockKey(k);
        case Poner(k) =>
          var tiene := EsiHasKey(k);
          r := if tiene then Tiene else NoTiene;
        case Abortar => abortEsi := true;
      }
    }

    /** One turn of the loop of main, with the answer of the ESI that HostConnections hands over. */
    method EjecutarInstruccion(p: Pregunta, a: Respuesta) returns (r: Contesta)
      modifies this
      ensures Actual() == Instruccion(config, old(Actual()), p, a)
    {
      ghost var s := Actual();
      r := WaitQuestion(p);
      Report(s, a);
      UpdateValues();
      Cierre(!a.Bloqueo?);
    }

    /** The 22 to 25 of the ESI. */
    method Report(ghost antes: Estado, a: Respuesta)
      modifies this
      ensures Actual() == Reportar(Estrenar(antes, old(Actual())), a)
    {
      if unEsi == antes.unEsi { recien := false; }
      if a.Fin? || a.Aborto? {
        finDeEsi, abortEsi := true, a.Aborto?;
      }
    }

    method Cierre(respuestaOk: bool)
      modifies this
      ensures Actual() == Cerrar(config, old(Actual()), !respuestaOk)
    {
      if !respuestaOk {
        if abortEsi { FinishEsi(); } else { finDeEsi := true; }
      }
      if finDeEsi {
        FinishEsi();
        fase := Esperando;
      }
    }

    /** A 20 of a new ESI. */
    method NewEsi()
      modifies this
      ensures Actual() == NuevoEsi(config, old(Actual()))
      ensures numEsi == old(numEsi) + 1 && listaReady == old(listaReady) + [Esi(numEsi)] && hayEsis == old(hayEsis) + 1
      ensures esis == old(esis)[Esi(numEsi) := Datos(0, config.inicial as real, config.inicial as real, 0.0)]
    {
      numEsi := numEsi + 1;
      var q, e := Esi(numEsi), config.inicial as real;
      esis := esis[q := Datos(0, e, e, 0.0)];
      listaReady := listaReady + [q];
      hayEsis := hayEsis + 1;
    }

    /** The wait on hay_esis and list_remove(lista_ready, 0). */
    method Dispatch()
      requires listaReady != []
      modifies this
      ensures Actual() == Despachar(config, old(Actual()))
    {
      ghost var s := Actual();
      ghost var l := if fase.Arranque? then listaReady else Ordenar(config, s, listaReady);
      DespacharCon(config, s, l);
      hayEsis := hayEsis - 1;
      ghost var a := Actual();
      assert a == s.(hayEsis := s.hayEsis - 1);
      if !fase.Arranque? {
        SinSemaforo(config, s, a, s.ready);
        SortListByAlgorithm();
      }
      assert Actual() == a.(ready := l);
      TakeFirst();
    }

    method TakeFirst()
      requires listaReady != []
      modifies this
      ensures Actual() == old(Actual()).(unEsi := old(listaReady)[0], ready := old(listaReady)[1..],
                                         fase := Corriendo, fin := false, recien := true)
    {
      unEsi, listaReady := listaReady[0], listaReady[1..];
      fase, finDeEsi := Corriendo, false;
      recien := true;
    }
  }

  method InsertSorted(c: Config, ghost s: Estado, esis: map<Quien, Datos>, q: Quien, l: seq<Quien>)
    returns (r: seq<Quien>)
    requires esis == s.datos
    ensures r == Insertar(c, s, q, l)
  {
    var d := if q in esis then esis[q] else NADIE;
    var i := 0;
    assert l[0..] == l && l[..0] + Insertar(c, s, q, l) == Insertar(c, s, q, l);
    while i < |l|
      invariant 0 <= i <= |l|
      invariant Insertar(c, s, q, l) == l[..i] + Insertar(c, s, q, l[i..])
    {
      var otro := if l[i] in esis then esis[l[i]] else NADIE;
      if Antes(c, d, otro) { break; }
      InsertarPasa(c, s, q, l, i);
      i := i + 1;
    }
    InsertarQueda(c, s, q, l, i);
    r := l[..i] + [q] + l[i..];
  }

  lemma DespacharCon(c: Config, s: Estado, l: seq<Quien>)
    requires s.ready != [] && l == if s.fase.Arranque? then s.ready else Ordenar(c, s, s.ready)
    ensures l != []
    ensures Despachar(c, s) == s.(hayEsis := s.hayEsis - 1, unEsi := l[0], ready := l[1..], fase := Corriendo,
                                  fin := false, recien := true)
  {
    D.OrdenarLargo(c, s, s.ready);
  }

  lemma DespertarCon(c: Config, s: Estado, q: Quien, d: Datos)
    requires c.algoritmo.SJFCD? && d == Estimar(Dato(s, q), c.alfa)
    ensures Despertar(c, s, q) == Corta(s.(datos := s.datos[q := d]), q)
  {
    var t := s.(datos := s.datos[q := d]);
    assert Dato(t, q) == d;
    assert q != s.unEsi ==> Dato(t, t.unEsi) == Dato(s, s.unEsi);
  }

  /** The shorter of `q` and un_esi has the CPU. */
  function Corta(s: Estado, q: Quien): Estado {
    if Dato(s, q).estimada < Dato(s, s.unEsi).estimada
    then s.(ready := s.ready + [s.unEsi], unEsi := q, recien := true)
    else s.(ready := s.ready + [q])
  }

  lemma Gira(c: seq<Quien>, i: nat)
    requires i < |c|
    ensures var f := c[i..] + c[..i];
            f[0] == c[i] && f[1..] + [c[i]] == c[i + 1..] + c[..i + 1] && c[..i] + [c[i]] == c[..i + 1]
  {}

  lemma InsertarPasa(c: Config, s: Estado, x: Quien, l: seq<Quien>, i: nat)
    requires i < |l| && !Antes(c, Dato(s, x), Dato(s, l[i]))
    ensures l[..i] + Insertar(c, s, x, l[i..]) == l[..i + 1] + Insertar(c, s, x, l[i + 1..])
  {
    assert l[i..][1..] == l[i + 1..];
    assert Insertar(c, s, x, l[i..]) == [l[i]] + Insertar(c, s, x, l[i + 1..]);
  }

  lemma InsertarQueda(c: Config, s: Estado, x: Quien, l: seq<Quien>, i: nat)
    requires i <= |l| && (i < |l| ==> Antes(c, Dato(s, x), Dato(s, l[i])))
    ensures l[..i] + Insertar(c, s, x, l[i..]) == l[..i] + [x] + l[i..]
  {}

  /** The sort looks at the data of the ESIs alone. */
  lemma {:induction false} SinSemaforo(c: Config, s: Estado, t: Estado, l: seq<Quien>)
    requires s.datos == t.datos
    ensures Ordenar(c, s, l) == Ordenar(c, t, l)
  {
    if |l| > 0 {
      SinSemaforo(c, s, t, l[1..]);
      InsertarIgual(c, s, t, l[0], Ordenar(c, s, l[1..]));
    }
  }

  lemma {:induction false} InsertarIgual(c: Config, s: Estado, t: Estado, x: Quien, l: seq<Quien>)
    requires s.datos == t.datos
    ensures Insertar(c, s, x, l) == Insertar(c, t, x, l)
  {
    if |l| > 0 { InsertarIgual(c, s, t, x, l[1..]); }
  }
}
