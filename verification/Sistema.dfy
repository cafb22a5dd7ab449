/** ESIs, Coordinador and Planificador together: what a key lock promises from end to end. */
module Sistema {
  import opened Opciones
  import opened Planificacion
  import opened Exclusion
  import opened Lugares
  import Claves
  import Relevos
  import opened SinPerdida
  import opened Coordinacion

  /** The two processes; the connected ESIs are those with a dictionary. */
  datatype Red = Red(plan: Estado, coord: Coord)

  /** One step: `vivas` are the instances that answer to test_connection while it lasts, `libres`
      is what an instance reports after a SET, and `ultima` says that the instruction is the last
      of its script. */
  datatype Acto =
    | Entra(nombre: string)
    | Cae(i: nat)
    | Nace
    | Elige
    | Pide(pedido: Pedido, ultima: bool, vivas: set<nat>, libres: int)
    | Suelta(clave: string)

  /** The Planificador's answer to the question. */
  predicate Afirma(s: Estado, p: Pregunta) {
    match p
    case Chequear(k) => Concede(s, k)
    case Guardar(k) => EsDuenio(s, k)
    case Poner(k) => EsDuenio(s, k)
    case Abortar => false
  }

  function Reporta(a: Aviso, ultima: bool): Respuesta {
    match a
    case Bloqueado => Bloqueo
    case Abortado => Aborto
    case Exito => if ultima then Fin else Ok
  }

  function Preguntar(n: Red, o: Pedido): Pregunta { Consulta(n.coord, n.plan.unEsi, o) }

  function Salir(n: Red, o: Pedido, vivas: set<nat>, libres: int): Option<Salida> {
    Operar(n.coord, n.plan.unEsi, o, Afirma(n.plan, Preguntar(n, o)), vivas, libres)
  }

  /** A step can be taken; one that makes the Coordinador crash cannot. */
  predicate Posible(c: Config, n: Red, a: Acto) {
    match a
    case Entra(x) => Conectar(n.coord, x).Some?
    case Cae(i) => i < |n.coord.nodos| && n.coord.nodos[i].activa && Desconectar(n.coord, i).Some?
    case Nace => true
    case Elige => Habilitado(n.plan, Despacha)
    case Pide(o, _, vivas, libres) =>
      n.plan.fase.Corriendo? && n.plan.unEsi in n.coord.dicc && Salir(n, o, vivas, libres).Some?
    case Suelta(_) => true
  }

  /** An ESI that ends closes its connection, and its dictionary goes. */
  function Despedir(d: Coord, e: Quien, r: Respuesta): Coord {
    if r.Fin? || r.Aborto? then d.(dicc := d.dicc - {e}) else d
  }

  function Pedir(c: Config, n: Red, o: Pedido, ultima: bool, vivas: set<nat>, libres: int): Red
    requires Salir(n, o, vivas, libres).Some?
  {
    var s := Salir(n, o, vivas, libres).value;
    var r := Reporta(s.aviso, ultima);
    Red(Instruccion(c, n.plan, Preguntar(n, o), r), Despedir(s.coord, n.plan.unEsi, r))
  }

  function Actuar(c: Config, n: Red, a: Acto): Red
    requires Posible(c, n, a)
  {
    match a
    case Entra(x) => n.(coord := Conectar(n.coord, x).value)
    case Cae(i) => n.(coord := Desconectar(n.coord, i).value)
    case Nace =>
      Red(NuevoEsi(c, n.plan), n.coord.(dicc := n.coord.dicc[Esi(n.plan.numEsi + 1) := {}]))
    case Elige => n.(plan := Despachar(c, n.plan))
    case Pide(o, ultima, vivas, libres) => Pedir(c, n, o, ultima, vivas, libres)
    case Suelta(k) => n.(plan := UnlockKeyByConsole(c, n.plan, k))
  }

  // ---- the invariant ----

  ghost predicate Conocidos(n: Red) {
    && (forall r | r in n.plan.reservas :: r.esi.Esi? && r.esi.id <= n.plan.numEsi)
    && (forall e | e in n.coord.dicc :: e.Esi? && e.id <= n.plan.numEsi)
  }

  /** The keys that a connected ESI owns at the Planificador are in its dictionary. */
  ghost predicate EnDiccionario(n: Red) {
    forall r | r in n.plan.reservas && r.esi in n.coord.dicc :: r.clave in n.coord.dicc[r.esi]
  }

  /** Every key of a dictionary is held by an instance. */
  ghost predicate Repartidas(d: Coord) {
    forall e, k | e in d.dicc && k in d.dicc[e] :: Buscar(d.nodos, PorClave(k)) != -1
  }

  ghost predicate Segura(n: Red) {
    && Sana(n.plan) && FinBajo(n.plan)
    && Conocidos(n) && EnDiccionario(n) && Repartidas(n.coord)
  }

  lemma BuscarRecuerda(ns: seq<Nodo>, ms: seq<Nodo>, k: string)
    requires Recuerda(ns, ms) && Buscar(ns, PorClave(k)) != -1
    ensures Buscar(ms, PorClave(k)) != -1
  {
    assert Halla(PorClave(k), ms[Buscar(ns, PorClave(k))]);
  }

  lemma RepartidasSiguen(c: Coord, d: Coord)
    requires Repartidas(c) && Recuerda(c.nodos, d.nodos) && d.dicc == c.dicc
    ensures Repartidas(d)
  {
    forall e, k | e in d.dicc && k in d.dicc[e] ensures Buscar(d.nodos, PorClave(k)) != -1 {
      BuscarRecuerda(c.nodos, d.nodos, k);
    }
  }

  /** What the Coordinador does to its dictionaries, and that no instance forgets a key. */
  lemma OperarDicc(c: Coord, e: Quien, o: Pedido, afirma: bool, vivas: set<nat>, libres: int)
    requires Repartidas(c) && e in c.dicc && Operar(c, e, o, afirma, vivas, libres).Some?
    ensures var s := Operar(c, e, o, afirma, vivas, libres).value;
            && Repartidas(s.coord)
            && s.coord.dicc == c.dicc[e :=
                 if !s.aviso.Exito? then c.dicc[e]
                 else match o
                   case Get(k) => c.dicc[e] + {k}
                   case Set(_) => c.dicc[e]
                   case Store(k) => c.dicc[e] - {k}
                   case Invalido => c.dicc[e]]
            && (s.aviso.Exito? ==> afirma && !o.Invalido? && (o.Set? || o.Store? ==> o.clave in c.dicc[e]))
            && (s.aviso.Bloqueado? <==> o.Get? && !afirma)
  {
    var s := Operar(c, e, o, afirma, vivas, libres).value;
    match o {
      case Get(k) => if afirma { GetRepartida(c, e, k, vivas); }
      case Set(k) => if k in c.dicc[e] && afirma { InformaRepartida(c, e, k, vivas, libres); }
      case Store(k) => if k in c.dicc[e] && afirma { SetRepartida(c, k, vivas); StoreRepartida(c, e, k, vivas); }
      case Invalido =>
    }
  }

  lemma GetRepartida(c: Coord, e: Quien, k: string, vivas: set<nat>)
    requires Repartidas(c) && e in c.dicc && AssignInstance(c, k, vivas).Some?
    ensures var d := AssignInstance(c, k, vivas).value;
            d.dicc == c.dicc && Repartidas(d.(dicc := d.dicc[e := c.dicc[e] + {k}]))
  {
    var d := AssignInstance(c, k, vivas).value;
    AssignInstanceAnota(c, k, vivas);
    RepartidasSiguen(c, d);
    var f := d.(dicc := d.dicc[e := c.dicc[e] + {k}]);
    forall x, y | x in f.dicc && y in f.dicc[x] ensures Buscar(f.nodos, PorClave(y)) != -1 {
      assert y != k ==> y in d.dicc[x];
    }
  }

  lemma SetRepartida(c: Coord, k: string, vivas: set<nat>)
    requires Repartidas(c) && SaveOnInstance(c, k, vivas).Some?
    ensures Repartidas(SaveOnInstance(c, k, vivas).value.0) && SaveOnInstance(c, k, vivas).value.0.dicc == c.dicc
  {
    SaveOnInstanceLlega(c, k, vivas);
    RepartidasSiguen(c, SaveOnInstance(c, k, vivas).value.0);
  }

  lemma InformaRepartida(c: Coord, e: Quien, k: string, vivas: set<nat>, libres: int)
    requires Repartidas(c) && OperationSet(c, e, k, true, vivas, libres).Some? && k in Dicc(c, e)
    ensures var s := OperationSet(c, e, k, true, vivas, libres).value;
            Repartidas(s.coord) && s.coord.dicc == c.dicc
  {
    SetRepartida(c, k, vivas);
    RepartidasSiguen(SaveOnInstance(c, k, vivas).value.0, OperationSet(c, e, k, true, vivas, libres).value.coord);
  }

  lemma StoreRepartida(c: Coord, e: Quien, k: string, vivas: set<nat>)
    requires e in c.dicc && SaveOnInstance(c, k, vivas).Some?
    requires var d := SaveOnInstance(c, k, vivas).value.0;
             Repartidas(d) && d.dicc == c.dicc
    ensures var d := SaveOnInstance(c, k, vivas).value.0;
            Repartidas(d.(dicc := d.dicc[e := d.dicc[e] - {k}]))
  {
    var d := SaveOnInstance(c, k, vivas).value.0;
    var f := d.(dicc := d.dicc[e := d.dicc[e] - {k}]);
    forall x, y | x in f.dicc && y in f.dicc[x] ensures Buscar(f.nodos, PorClave(y)) != -1 {
      assert y in d.dicc[x];
    }
  }

  // ---- owners after an instruction, whatever the flags ----

  lemma CerrarLibre(c: Config, u: Estado, bloqueado: bool, x: Reserva)
    ensures x in Cerrar(c, u, bloqueado).reservas ==> x in u.reservas
    ensures x in u.reservas && (x.esi != u.unEsi || (bloqueado && u.block) || (!bloqueado && !u.fin)) ==>
              x in Cerrar(c, u, bloqueado).reservas
  {
    var v := if !bloqueado then u else if u.abortar then FinishEsi(c, u) else u.(fin := true);
    Claves.ReleaseKeysReservas(c, u.(finalizados := u.finalizados + [u.unEsi]), u.unEsi, x);
    ReleaseKeysFase(c, u.(finalizados := u.finalizados + [u.unEsi]), u.unEsi);
    Claves.ReleaseKeysReservas(c, v.(finalizados := v.finalizados + [v.unEsi]), v.unEsi, x);
  }

  /** An instruction that neither ends its ESI nor stores takes no key from anybody. */
  lemma InstruccionLibre(c: Config, s: Estado, p: Pregunta, r: Respuesta, x: Reserva)
    requires Sana(s) && s.fase.Corriendo? && !s.fin && Compatible(s, p, r)
    ensures x in Instruccion(c, s, p, r).reservas ==> x in WaitQuestion(c, s, p).reservas
    ensures x in WaitQuestion(c, s, p).reservas && (x.esi != WaitQuestion(c, s, p).unEsi || r.Ok? || r.Bloqueo?) ==>
              x in Instruccion(c, s, p, r).reservas
  {
    CuentaListas(c, s, WaitQuestion(c, s, p), r);
    ContadaBanderas(c, s, p, r);
    CerrarLibre(c, Contada(c, s, p, r), r.Bloqueo?, x);
  }

  // ---- the steps ----

  lemma PedirCompatible(n: Red, o: Pedido, ultima: bool, vivas: set<nat>, libres: int)
    requires Segura(n) && n.plan.unEsi in n.coord.dicc && Salir(n, o, vivas, libres).Some?
    ensures Compatible(n.plan, Preguntar(n, o), Reporta(Salir(n, o, vivas, libres).value.aviso, ultima))
  {
    OperarDicc(n.coord, n.plan.unEsi, o, Afirma(n.plan, Preguntar(n, o)), vivas, libres);
  }

  lemma PedirEnDiccionario(c: Config, n: Red, o: Pedido, ultima: bool, vivas: set<nat>, libres: int,
                           x: Reserva)
    requires Segura(n) && n.plan.fase.Corriendo? && n.plan.unEsi in n.coord.dicc && Salir(n, o, vivas, libres).Some?
    requires x in Pedir(c, n, o, ultima, vivas, libres).plan.reservas
    ensures x.esi.Esi? && x.esi.id <= n.plan.numEsi
    ensures var d := Pedir(c, n, o, ultima, vivas, libres).coord;
            x.esi in d.dicc ==> x.clave in d.dicc[x.esi]
  {
    var p := Preguntar(n, o);
    var r := Reporta(Salir(n, o, vivas, libres).value.aviso, ultima);
    OperarDicc(n.coord, n.plan.unEsi, o, Afirma(n.plan, p), vivas, libres);
    PedirCompatible(n, o, ultima, vivas, libres);
    InstruccionLibre(c, n.plan, p, r, x);
    Claves.WaitQuestionReservas(c, n.plan, p, x);
  }

  lemma PedirSegura(c: Config, n: Red, o: Pedido, ultima: bool, vivas: set<nat>, libres: int)
    requires Segura(n) && Posible(c, n, Pide(o, ultima, vivas, libres))
    ensures Segura(Pedir(c, n, o, ultima, vivas, libres))
  {
    var p, m := Preguntar(n, o), Pedir(c, n, o, ultima, vivas, libres);
    var r := Reporta(Salir(n, o, vivas, libres).value.aviso, ultima);
    InstruccionSana(c, n.plan, p, r);
    InstruccionFin(c, n.plan, p, r);
    InstruccionNumEsi(c, n.plan, p, r);
    OperarDicc(n.coord, n.plan.unEsi, o, Afirma(n.plan, p), vivas, libres);
    forall x | x in m.plan.reservas
      ensures x.esi.Esi? && x.esi.id <= m.plan.numEsi && (x.esi in m.coord.dicc ==> x.clave in m.coord.dicc[x.esi])
    {
      PedirEnDiccionario(c, n, o, ultima, vivas, libres, x);
    }
  }

  lemma SueltaSegura(c: Config, n: Red, k: string)
    requires Segura(n)
    ensures Segura(Actuar(c, n, Suelta(k)))
  {
    UnlockKeyByConsoleSana(c, n.plan, k);
    var t := UnlockKeyByConsole(c, n.plan, k);
    forall x | x in t.reservas ensures x in n.plan.reservas { Claves.ConsolaReservas(c, n.plan, k, x); }
    if k in n.plan.colas {
      ConsolaEs(c, n.plan, k);
      var a := Liberada(n.plan, k);
      if Despierta(n.plan, k) { AvisarMarcas(c, Pop(a, k), a.colas[k][0]); }
    }
  }

  lemma NaceSegura(c: Config, n: Red)
    requires Segura(n)
    ensures Segura(Actuar(c, n, Nace))
  {
    NuevoSano(c, n.plan);
  }

  lemma EligeSegura(c: Config, n: Red)
    requires Segura(n) && Posible(c, n, Elige)
    ensures Segura(Actuar(c, n, Elige))
  {
    DespacharSano(c, n.plan);
  }

  /** Every step of the three processes keeps what the locks promise. */
  lemma ActuarSegura(c: Config, n: Red, a: Acto)
    requires Segura(n) && Posible(c, n, a)
    ensures Segura(Actuar(c, n, a))
  {
    match a
    case Entra(x) =>
      ConectarRevive(n.coord, x);
      RepartidasSiguen(n.coord, Actuar(c, n, a).coord);
    case Cae(i) =>
      DesconectarCae(n.coord, i);
      RepartidasSiguen(n.coord, Actuar(c, n, a).coord);
    case Nace => NaceSegura(c, n);
    case Elige => EligeSegura(c, n);
    case Pide(o, ultima, vivas, libres) => PedirSegura(c, n, o, ultima, vivas, libres);
    case Suelta(k) => SueltaSegura(c, n, k);
  }

  ghost predicate Historia(c: Config, n: Red, actos: seq<Acto>)
    decreases |actos|
  {
    actos == [] || (Posible(c, n, actos[0]) && Historia(c, Actuar(c, n, actos[0]), actos[1..]))
  }

  ghost function Tras(c: Config, n: Red, actos: seq<Acto>): Red
    requires Historia(c, n, actos)
    decreases |actos|
  {
    if actos == [] then n else Tras(c, Actuar(c, n, actos[0]), actos[1..])
  }

  function Apertura(bloqueadas: set<string>, reparto: Reparto): Red {
    Red(Inicial(bloqueadas), Coord(reparto, [], 0, map[]))
  }

  lemma {:induction false} SeguraSiempre(c: Config, n: Red, actos: seq<Acto>)
    requires Segura(n) && Historia(c, n, actos)
    ensures Segura(Tras(c, n, actos))
    decreases |actos|
  {
    if actos != [] {
      ActuarSegura(c, n, actos[0]);
      SeguraSiempre(c, Actuar(c, n, actos[0]), actos[1..]);
    }
  }

  lemma AperturaSegura(bloqueadas: set<string>, reparto: Reparto)
    ensures Segura(Apertura(bloqueadas, reparto))
  {
    var s := Inicial(bloqueadas);
    forall k | k in s.colas ensures ColaSana(s, k) {}
  }

  // ---- from end to end ----

  /** In every state that any run reaches, a SET or a STORE that gets to an instance comes from
      the one ESI that owned the key when the Planificador was asked, and goes to an active
      instance that holds the key; and save_on_instance finds a holder whenever it looks. */
  lemma SoloElDuenio(c: Config, bloqueadas: set<string>, reparto: Reparto, actos: seq<Acto>,
                     o: Pedido, vivas: set<nat>, libres: int)
    requires Historia(c, Apertura(bloqueadas, reparto), actos) && (o.Set? || o.Store?)
    ensures var n := Tras(c, Apertura(bloqueadas, reparto), actos);
            n.plan.fase.Corriendo? && n.plan.unEsi in n.coord.dicc ==>
              && (o.clave in Dicc(n.coord, n.plan.unEsi) ==> Buscar(n.coord.nodos, PorClave(o.clave)) != -1)
              && (Salir(n, o, vivas, libres).None? ==>
                    n.coord.reparto.KE? && Activos(n.coord.nodos) == 1 && Tenedora(n.coord, o.clave) !in vivas)
              && (Salir(n, o, vivas, libres).Some? && Salir(n, o, vivas, libres).value.instancia != -1 ==>
                    && Reserva(n.plan.unEsi, o.clave) in n.plan.reservas
                    && (forall q | Reserva(q, o.clave) in n.plan.reservas :: q == n.plan.unEsi)
                    && var i := Salir(n, o, vivas, libres).value.instancia;
                       0 <= i < |n.coord.nodos| && o.clave in n.coord.nodos[i].claves && n.coord.nodos[i].activa)
  {
    AperturaSegura(bloqueadas, reparto);
    SeguraSiempre(c, Apertura(bloqueadas, reparto), actos);
    var n := Tras(c, Apertura(bloqueadas, reparto), actos);
    var k, e := o.clave, n.plan.unEsi;
    if n.plan.fase.Corriendo? && e in n.coord.dicc && k in n.coord.dicc[e] {
      assert Buscar(n.coord.nodos, PorClave(k)) != -1;
      SaveOnInstanceCae(n.coord, k, vivas);
      if Salir(n, o, vivas, libres).Some? && EsDuenio(n.plan, k) {
        SaveOnInstanceLlega(n.coord, k, vivas);
        forall q | Reserva(q, k) in n.plan.reservas ensures q == e { Claves.UnicoDuenio(n.plan, q, e, k); }
      }
    }
  }

  /** In every state that any run reaches, the owner's SET or STORE is never refused for a lock:
      it reaches the first active instance that holds the key if that one answers, and fails if
      there is none or it does not answer; it crashes the Coordinador if that one was the last. */
  lemma ElDuenioPuede(c: Config, bloqueadas: set<string>, reparto: Reparto, actos: seq<Acto>,
                      o: Pedido, vivas: set<nat>, libres: int)
    requires Historia(c, Apertura(bloqueadas, reparto), actos) && (o.Set? || o.Store?)
    ensures var n := Tras(c, Apertura(bloqueadas, reparto), actos);
            var i, r := Tenedora(n.coord, o.clave), Salir(n, o, vivas, libres);
            n.plan.fase.Corriendo? && n.plan.unEsi in n.coord.dicc && EsDuenio(n.plan, o.clave) ==>
              && Afirma(n.plan, Preguntar(n, o))
              && (r.None? <==> n.coord.reparto.KE? && i != -1 && i !in vivas && Activos(n.coord.nodos) == 1)
              && (r.Some? ==>
                    && (r.value.aviso.Abortado? <==> i == -1 || i !in vivas)
                    && (r.value.aviso.Exito? <==> i != -1 && i in vivas)
                    && r.value.instancia == if r.value.aviso.Exito? then i else -1)
  {
    AperturaSegura(bloqueadas, reparto);
    SeguraSiempre(c, Apertura(bloqueadas, reparto), actos);
    var n := Tras(c, Apertura(bloqueadas, reparto), actos);
    var k, e := o.clave, n.plan.unEsi;
    if e in n.coord.dicc && Reserva(e, k) in n.plan.reservas {
      assert k in n.coord.dicc[e] && Buscar(n.coord.nodos, PorClave(k)) != -1;
      SaveOnInstanceCae(n.coord, k, vivas);
      if SaveOnInstance(n.coord, k, vivas).Some? { SaveOnInstanceLlega(n.coord, k, vivas); }
    }
  }

  /** An instruction that blocks leaves its ESI last in the queue. */
  lemma BloqueaUltimo(c: Config, s: Estado, k: string)
    requires Sana(s) && s.fase.Corriendo? && Relevos.Ocupada(s, k)
    ensures Claves.Cola(Instruccion(c, s, Chequear(k), Bloqueo), k) == Claves.Cola(s, k) + [s.unEsi]
  {
    Relevos.GetExacto(s, k);
    var w, u := CheckKey(s, k), Contada(c, s, Chequear(k), Bloqueo);
    CuentaListas(c, s, w, Bloqueo);
    UpdateValuesMarcas(c, Reportar(Estrenar(s, w), Bloqueo));
    assert u.block && u.colas == w.colas;
  }

  /** In every state that any run reaches, a GET is refused exactly when some ESI owns the key or
      somebody stands in its queue: its ESI is then last there. Otherwise the Coordinador answers
      it as done, if there is an instance to give the key to, and while its ESI goes on it owns
      the key. */
  lemma GetSii(c: Config, bloqueadas: set<string>, reparto: Reparto, actos: seq<Acto>,
               k: string, ultima: bool, vivas: set<nat>, libres: int)
    requires Historia(c, Apertura(bloqueadas, reparto), actos)
    ensures var n := Tras(c, Apertura(bloqueadas, reparto), actos);
            var r, e := Salir(n, Get(k), vivas, libres), n.plan.unEsi;
            n.plan.fase.Corriendo? && e in n.coord.dicc ==>
              if (exists q :: Reserva(q, k) in n.plan.reservas) || Claves.Cola(n.plan, k) != [] then
                && r == Some(Salida(n.coord, Bloqueado, -1))
                && Claves.Cola(Pedir(c, n, Get(k), ultima, vivas, libres).plan, k) == Claves.Cola(n.plan, k) + [e]
              else
                && (r.None? <==> AssignInstance(n.coord, k, vivas).None?)
                && (r.Some? ==> r.value.aviso.Exito?)
                && (r.Some? && !ultima ==> Reserva(e, k) in Pedir(c, n, Get(k), false, vivas, libres).plan.reservas)
  {
    AperturaSegura(bloqueadas, reparto);
    SeguraSiempre(c, Apertura(bloqueadas, reparto), actos);
    var n := Tras(c, Apertura(bloqueadas, reparto), actos);
    if n.plan.fase.Corriendo? && n.plan.unEsi in n.coord.dicc {
      GetDecide(c, n, k, ultima, vivas, libres);
    }
  }

  lemma GetDecide(c: Config, n: Red, k: string, ultima: bool, vivas: set<nat>, libres: int)
    requires Segura(n) && n.plan.fase.Corriendo? && n.plan.unEsi in n.coord.dicc
    ensures var r, e := Salir(n, Get(k), vivas, libres), n.plan.unEsi;
            if Relevos.Ocupada(n.plan, k) then
              && r == Some(Salida(n.coord, Bloqueado, -1))
              && Claves.Cola(Pedir(c, n, Get(k), ultima, vivas, libres).plan, k) == Claves.Cola(n.plan, k) + [e]
            else
              && (r.None? <==> AssignInstance(n.coord, k, vivas).None?)
              && (r.Some? ==> r.value.aviso.Exito?)
              && (r.Some? && !ultima ==> Reserva(e, k) in Pedir(c, n, Get(k), false, vivas, libres).plan.reservas)
  {
    var r, e := Salir(n, Get(k), vivas, libres), n.plan.unEsi;
    Relevos.ConcedeSii(n.plan, k);
    if Relevos.Ocupada(n.plan, k) {
      BloqueaUltimo(c, n.plan, k);
    } else if r.Some? {
      Relevos.GetExacto(n.plan, k);
      InstruccionLibre(c, n.plan, Chequear(k), Ok, Reserva(e, k));
    }
  }

  /** A SET or a STORE of a key that its ESI did not get, like an operation that cannot be read, aborts
      the ESI without asking any instance, and takes no key from anybody: not even its own. */
  lemma AbortaSinPedir(c: Config, n: Red, o: Pedido, ultima: bool, vivas: set<nat>, libres: int)
    requires Segura(n) && n.plan.fase.Corriendo? && n.plan.unEsi in n.coord.dicc
    requires o.Invalido? || ((o.Set? || o.Store?) && o.clave !in n.coord.dicc[n.plan.unEsi])
    ensures Salir(n, o, vivas, libres) == Some(Salida(n.coord, Abortado, -1))
    ensures var m := Pedir(c, n, o, ultima, vivas, libres);
            && m.coord == n.coord.(dicc := n.coord.dicc - {n.plan.unEsi})
            && forall r :: r in m.plan.reservas <==> r in n.plan.reservas
  {
    var m := Pedir(c, n, o, ultima, vivas, libres);
    forall r ensures r in m.plan.reservas <==> r in n.plan.reservas {
      Claves.InstruccionReservas(c, n.plan, Preguntar(n, o), Aborto, r);
    }
  }

  /** An ESI has a dictionary from when it comes until it ends, well or aborted, and no longer. */
  lemma PedirConectados(c: Config, n: Red, o: Pedido, ultima: bool, vivas: set<nat>, libres: int)
    requires Segura(n) && Posible(c, n, Pide(o, ultima, vivas, libres))
    ensures var a, e := Salir(n, o, vivas, libres).value.aviso, n.plan.unEsi;
            Pedir(c, n, o, ultima, vivas, libres).coord.dicc.Keys
            == n.coord.dicc.Keys - if a.Abortado? || (a.Exito? && ultima) then {e} else {}
  {
    OperarDicc(n.coord, n.plan.unEsi, o, Afirma(n.plan, Preguntar(n, o)), vivas, libres);
  }

  // ---- dictionaries and owners, exactly ----

  /** The dictionary of each connected ESI is just the keys that it owns. */
  ghost predicate Iguales(n: Red) {
    forall e, k | e in n.coord.dicc :: k in n.coord.dicc[e] <==> Reserva(e, k) in n.plan.reservas
  }

  /** A STORE gives the CPU to the ESI that it wakes, and is the last instruction of its script:
      the end is charged to the woken ESI, which is connected and owns a key. */
  ghost predicate Robo(c: Config, n: Red, o: Pedido, ultima: bool, vivas: set<nat>, libres: int)
    requires Salir(n, o, vivas, libres).Some?
  {
    var q := WaitQuestion(c, n.plan, Preguntar(n, o)).unEsi;
    && q != n.plan.unEsi && Reporta(Salir(n, o, vivas, libres).value.aviso, ultima).Fin? && !n.plan.block
    && q in n.coord.dicc && exists k :: Reserva(q, k) in n.plan.reservas
  }

  /** The step takes no key from a connected ESI behind the Coordinador's back. */
  ghost predicate Franca(c: Config, n: Red, a: Acto)
    requires Posible(c, n, a)
  {
    match a
    case Suelta(k) => forall e | e in n.coord.dicc :: Reserva(e, k) !in n.plan.reservas
    case Pide(o, ultima, vivas, libres) => !Robo(c, n, o, ultima, vivas, libres)
    case _ => true
  }

  lemma PedirIguales(c: Config, n: Red, o: Pedido, ultima: bool, vivas: set<nat>, libres: int,
                     e: Quien, k: string)
    requires Segura(n) && Iguales(n)
    requires Posible(c, n, Pide(o, ultima, vivas, libres)) && !Robo(c, n, o, ultima, vivas, libres)
    requires e in Pedir(c, n, o, ultima, vivas, libres).coord.dicc
    ensures var m := Pedir(c, n, o, ultima, vivas, libres);
            k in m.coord.dicc[e] <==> Reserva(e, k) in m.plan.reservas
  {
    var p := Preguntar(n, o);
    var r := Reporta(Salir(n, o, vivas, libres).value.aviso, ultima);
    OperarDicc(n.coord, n.plan.unEsi, o, Afirma(n.plan, p), vivas, libres);
    PedirCompatible(n, o, ultima, vivas, libres);
    Claves.InstruccionReservas(c, n.plan, p, r, Reserva(e, k));
    if e == n.plan.unEsi {
      PropioIgual(c, n, o, ultima, vivas, libres, k);
    } else {
      assert Claves.Suelta(c, n.plan, Instruye(p, r), e, k) && Reserva(e, k) in n.plan.reservas ==> p.Chequear?;
    }
  }

  /** The ESI that asked, while it stays connected. */
  lemma PropioIgual(c: Config, n: Red, o: Pedido, ultima: bool, vivas: set<nat>, libres: int, k: string)
    requires Segura(n) && Iguales(n) && Posible(c, n, Pide(o, ultima, vivas, libres))
    requires n.plan.unEsi in Pedir(c, n, o, ultima, vivas, libres).coord.dicc
    ensures var m := Pedir(c, n, o, ultima, vivas, libres);
            k in m.coord.dicc[n.plan.unEsi] <==> Reserva(n.plan.unEsi, k) in m.plan.reservas
  {
    var p, e := Preguntar(n, o), n.plan.unEsi;
    var r := Reporta(Salir(n, o, vivas, libres).value.aviso, ultima);
    OperarDicc(n.coord, e, o, Afirma(n.plan, p), vivas, libres);
    PedirCompatible(n, o, ultima, vivas, libres);
    assert r.Ok? || r.Bloqueo?;
    InstruccionLibre(c, n.plan, p, r, Reserva(e, k));
    Claves.WaitQuestionReservas(c, n.plan, p, Reserva(e, k));
  }

  lemma DiccAjeno(c: Config, n: Red, o: Pedido, ultima: bool, vivas: set<nat>, libres: int, q: Quien)
    requires Segura(n) && Posible(c, n, Pide(o, ultima, vivas, libres)) && q in n.coord.dicc && q != n.plan.unEsi
    ensures var d := Pedir(c, n, o, ultima, vivas, libres).coord.dicc;
            q in d && d[q] == n.coord.dicc[q]
  {
    OperarDicc(n.coord, n.plan.unEsi, o, Afirma(n.plan, Preguntar(n, o)), vivas, libres);
  }

  lemma RoboSuelta(c: Config, n: Red, o: Pedido, ultima: bool, vivas: set<nat>, libres: int, k: string)
    requires Segura(n) && Posible(c, n, Pide(o, ultima, vivas, libres)) && Robo(c, n, o, ultima, vivas, libres)
    ensures var q := WaitQuestion(c, n.plan, Preguntar(n, o)).unEsi;
            Reserva(q, k) !in Pedir(c, n, o, ultima, vivas, libres).plan.reservas
  {
    var p := Preguntar(n, o);
    var r := Reporta(Salir(n, o, vivas, libres).value.aviso, ultima);
    PedirCompatible(n, o, ultima, vivas, libres);
    Claves.InstruccionReservas(c, n.plan, p, r, Reserva(WaitQuestion(c, n.plan, p).unEsi, k));
  }

  /** A theft: the woken ESI keeps in its dictionary keys that it no longer owns. */
  lemma RoboRompe(c: Config, n: Red, o: Pedido, ultima: bool, vivas: set<nat>, libres: int)
    requires Segura(n) && Iguales(n)
    requires Posible(c, n, Pide(o, ultima, vivas, libres)) && Robo(c, n, o, ultima, vivas, libres)
    ensures !Iguales(Pedir(c, n, o, ultima, vivas, libres))
  {
    var q := WaitQuestion(c, n.plan, Preguntar(n, o)).unEsi;
    var k :| Reserva(q, k) in n.plan.reservas;
    DiccAjeno(c, n, o, ultima, vivas, libres, q);
    RoboSuelta(c, n, o, ultima, vivas, libres, k);
  }

  lemma PideIguales(c: Config, n: Red, o: Pedido, ultima: bool, vivas: set<nat>, libres: int)
    requires Segura(n) && Iguales(n) && Posible(c, n, Pide(o, ultima, vivas, libres))
    ensures Iguales(Pedir(c, n, o, ultima, vivas, libres)) <==> !Robo(c, n, o, ultima, vivas, libres)
  {
    if Robo(c, n, o, ultima, vivas, libres) {
      RoboRompe(c, n, o, ultima, vivas, libres);
    } else {
      var m := Pedir(c, n, o, ultima, vivas, libres);
      forall e, k | e in m.coord.dicc ensures k in m.coord.dicc[e] <==> Reserva(e, k) in m.plan.reservas {
        PedirIguales(c, n, o, ultima, vivas, libres, e, k);
      }
    }
  }

  /** The Coordinador and the Planificador agree on every key of every connected ESI after a
      step exactly when it is neither the console's unlock of a key that one of them owns nor
      a theft; a preemption that steals nothing is harmless. */
  lemma ActuarIguales(c: Config, n: Red, a: Acto)
    requires Segura(n) && Iguales(n) && Posible(c, n, a)
    ensures Iguales(Actuar(c, n, a)) <==> Franca(c, n, a)
  {
    match a {
      case Entra(x) => ConectarRevive(n.coord, x);
      case Cae(i) => DesconectarCae(n.coord, i);
      case Nace =>
      case Elige =>
      case Pide(o, ultima, vivas, libres) => PideIguales(c, n, o, ultima, vivas, libres);
      case Suelta(k) => SueltaIguales(c, n, k);
    }
  }

  ghost predicate TodasFrancas(c: Config, n: Red, actos: seq<Acto>)
    requires Historia(c, n, actos)
    decreases |actos|
  {
    actos == [] || (Franca(c, n, actos[0]) && TodasFrancas(c, Actuar(c, n, actos[0]), actos[1..]))
  }

  lemma {:induction false} IgualesSiempre(c: Config, n: Red, actos: seq<Acto>)
    requires Segura(n) && Iguales(n) && Historia(c, n, actos) && TodasFrancas(c, n, actos)
    ensures Iguales(Tras(c, n, actos))
    decreases |actos|
  {
    if actos != [] {
      ActuarSegura(c, n, actos[0]);
      ActuarIguales(c, n, actos[0]);
      IgualesSiempre(c, Actuar(c, n, actos[0]), actos[1..]);
    }
  }

  lemma SueltaIguales(c: Config, n: Red, k: string)
    requires Segura(n) && Iguales(n)
    ensures Iguales(Actuar(c, n, Suelta(k))) <==> Franca(c, n, Suelta(k))
  {
    var m := Actuar(c, n, Suelta(k));
    forall e, x ensures Reserva(e, x) in m.plan.reservas <==> Reserva(e, x) in n.plan.reservas && x != k {
      Claves.ConsolaReservas(c, n.plan, k, Reserva(e, x));
    }
    if !Franca(c, n, Suelta(k)) {
      var e :| e in n.coord.dicc && Reserva(e, k) in n.plan.reservas;
      assert k in m.coord.dicc[e] && Reserva(e, k) !in m.plan.reservas;
    }
  }
}
