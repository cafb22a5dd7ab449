/** The Planificador as a machine: one function per operation on its lists, and one step per
    message loop event. Flags `block`, `abort_esi` and `fin_de_esi` live on between
    instructions as they do in the source. */
module Planificacion {

  /** A name in a list or a queue: an ESI, or the "CONSOLA" that holds a key by configuration. */
  datatype Quien = Consola | Esi(id: nat)

  datatype Algoritmo = SJFSD | SJFCD | HRRN

  datatype Config = Config(algoritmo: Algoritmo, alfa: int, inicial: int)

  datatype Datos = Datos(instrucciones: nat, estimada: real, previa: real, espera: real)

  datatype Reserva = Reserva(esi: Quien, clave: string)

  /** Where the main loop stands: before the first dispatch, with an ESI on the CPU, or
      waiting on hay_esis. */
  datatype Fase = Arranque | Corriendo | Esperando

  /** The global state; `mudos` counts the wake-ups that unlock_esi made (it does not post
      hay_esis) and `recien` says that un_esi has not run an instruction since it got the CPU. */
  datatype Estado = Estado(
    fase: Fase, unEsi: Quien, ready: seq<Quien>, colas: map<string, seq<Quien>>,
    reservas: seq<Reserva>, finalizados: seq<Quien>, datos: map<Quien, Datos>, hayEsis: int,
    block: bool, abortar: bool, fin: bool, numEsi: nat, mudos: nat, recien: bool)

  const NADIE := Datos(0, 0.0, 0.0, 0.0)

  function Dato(s: Estado, q: Quien): Datos { if q in s.datos then s.datos[q] else NADIE }

  // ---- estimates ----

  function Truncar(x: real): int { if x >= 0.0 then x.Floor else -((-x).Floor) }

  /** calculate_estimation. */
  function Estimar(d: Datos, alfa: int): Datos {
    var a := alfa as real / 100.0;
    d.(previa := d.estimada, estimada := a * d.instrucciones as real + (1.0 - a) * Truncar(d.previa) as real)
  }

  /** response_ratio; the source divides whatever the estimate is. */
  function ResponseRatio(d: Datos): real {
    if d.estimada == 0.0 then 0.0 else (d.espera + d.estimada) / d.estimada
  }

  /** The comparison of sort_list_by_algorithm: `p` may stand before `q`. */
  predicate Antes(c: Config, p: Datos, q: Datos) {
    if c.algoritmo.HRRN? then ResponseRatio(p) >= ResponseRatio(q) else p.estimada <= q.estimada
  }

  function Insertar(c: Config, s: Estado, x: Quien, l: seq<Quien>): (r: seq<Quien>)
    ensures multiset(r) == multiset{x} + multiset(l)
  {
    if |l| == 0 || Antes(c, Dato(s, x), Dato(s, l[0])) then [x] + l
    else
      assert l == [l[0]] + l[1..];
      [l[0]] + Insertar(c, s, x, l[1..])
  }

  /** list_sort, as a stable sort. */
  function Ordenar(c: Config, s: Estado, l: seq<Quien>): (r: seq<Quien>)
    ensures multiset(r) == multiset(l)
  {
    if |l| == 0 then []
    else
      assert l == [l[0]] + l[1..];
      Insertar(c, s, l[0], Ordenar(c, s, l[1..]))
  }

  // ---- the lists ----

  /** The conditions that the lists are searched by. */
  datatype Filtro = Exacta(esi: Quien, clave: string) | DeEsi(esi: Quien) | DeClave(clave: string)

  predicate Cumple(f: Filtro, r: Reserva) {
    match f
    case Exacta(e, k) => r == Reserva(e, k)
    case DeEsi(e) => r.esi == e
    case DeClave(k) => r.clave == k
  }

  function Primera(rs: seq<Reserva>, f: Filtro): (i: int)
    ensures -1 <= i < |rs|
    ensures i == -1 ==> forall r | r in rs :: !Cumple(f, r)
    ensures i >= 0 ==> Cumple(f, rs[i]) && forall j | 0 <= j < i :: !Cumple(f, rs[j])
  {
    if |rs| == 0 then -1
    else if Cumple(f, rs[0]) then 0
    else
      var i := Primera(rs[1..], f);
      assert forall r | r in rs :: r == rs[0] || r in rs[1..];
      assert forall j | 0 < j < |rs| :: rs[j] == rs[1..][j - 1];
      if i == -1 then -1 else i + 1
  }

  function Quitar(rs: seq<Reserva>, i: nat): seq<Reserva>
    requires i < |rs|
  {
    rs[..i] + rs[i + 1..]
  }

  /** list_remove_by_condition. */
  function Sacar(rs: seq<Reserva>, f: Filtro): seq<Reserva> {
    var i := Primera(rs, f);
    if i == -1 then rs else Quitar(rs, i)
  }

  /** is_key_blocked. */
  predicate Tomada(s: Estado, k: string) { exists r :: r in s.reservas && r.clave == k }

  /** esi_has_key, with the value its missing return was to give. */
  predicate EsDuenio(s: Estado, k: string) { Reserva(s.unEsi, k) in s.reservas }

  predicate Concede(s: Estado, k: string) {
    k !in s.colas || (s.colas[k] == [] && !Tomada(s, k))
  }

  function CheckKey(s: Estado, k: string): Estado {
    if Concede(s, k) then
      s.(block := false,
         colas := if k in s.colas then s.colas else s.colas[k := []],
         reservas := s.reservas + [Reserva(s.unEsi, k)])
    else
      s.(block := true, colas := s.colas[k := s.colas[k] + [s.unEsi]])
  }

  /** `q` leaves a queue for the ready list. */
  function Listar(c: Config, s: Estado, q: Quien): Estado {
    var d := Estimar(Dato(s, q), c.alfa);
    s.(datos := s.datos[q := if c.algoritmo.HRRN? then d.(espera := 0.0) else d], ready := s.ready + [q])
  }

  /** The same from unlock_key and from the console, where SJF-CD may preempt un_esi. */
  function Despertar(c: Config, s: Estado, q: Quien): Estado {
    var d := Estimar(Dato(s, q), c.alfa);
    if c.algoritmo.SJFCD? && q != s.unEsi && d.estimada < Dato(s, s.unEsi).estimada then
      s.(datos := s.datos[q := d], ready := s.ready + [s.unEsi], unEsi := q, recien := true)
    else Listar(c, s, q)
  }

  /** The wake-ups that post hay_esis. */
  function Avisar(c: Config, s: Estado, q: Quien): Estado {
    Despertar(c, s, q).(hayEsis := s.hayEsis + 1)
  }

  function Ordenado(c: Config, s: Estado): Estado { s.(ready := Ordenar(c, s, s.ready)) }

  function Pop(s: Estado, k: string): Estado
    requires k in s.colas && s.colas[k] != []
  {
    s.(colas := s.colas[k := s.colas[k][1..]])
  }

  /** unlock_key, for a key un_esi owns or not; the second result is the answer to the coordinator. */
  function UnlockKey(c: Config, s: Estado, k: string): Estado {
    if !EsDuenio(s, k) then s
    else
      var r := s.(reservas := Sacar(s.reservas, Exacta(s.unEsi, k)));
      if k !in r.colas || r.colas[k] == [] then r
      else Ordenado(c, Avisar(c, Pop(r, k), r.colas[k][0]))
  }

  /** unlock_esi: no sort, and no post of hay_esis. */
  function UnlockEsi(c: Config, s: Estado, k: string): Estado {
    if k !in s.colas || s.colas[k] == [] then s
    else Listar(c, Pop(s, k), s.colas[k][0]).(mudos := s.mudos + 1)
  }

  /** release_keys_and_unlock_esis. */
  function ReleaseKeys(c: Config, s: Estado, e: Quien): Estado
    decreases |s.reservas|
  {
    var i := Primera(s.reservas, DeEsi(e));
    if i == -1 then s
    else
      ReleaseKeys(c, UnlockEsi(c, s.(reservas := Quitar(s.reservas, i)), s.reservas[i].clave), e)
  }

  function FinishEsi(c: Config, s: Estado): Estado {
    if s.block then s
    else
      var f := s.(finalizados := s.finalizados + [s.unEsi]);
      (if f.abortar then f else ReleaseKeys(c, f, f.unEsi)).(abortar := false)
  }

  function UpdateValues(c: Config, s: Estado): Estado {
    var d := Dato(s, s.unEsi);
    var n := d.(instrucciones := d.instrucciones + 1);
    if c.algoritmo.HRRN? then
      var t := s.datos[s.unEsi := n];
      s.(datos := map q | q in t :: if q in s.ready then t[q].(espera := t[q].espera + 1.0) else t[q])
    else s.(datos := s.datos[s.unEsi := n.(estimada := n.estimada - 1.0)])
  }

  /** unlock_key_by_console. */
  function UnlockKeyByConsole(c: Config, s: Estado, k: string): Estado {
    if k !in s.colas then s
    else
      var r := s.(reservas := Sacar(s.reservas, DeClave(k)));
      if r.colas[k] == [] then r
      else
        var p := Pop(r, k);
        if r.colas[k][0] != Consola then
          Avisar(c, p, r.colas[k][0])
        else if p.colas[k] == [] then p
        else Avisar(c, Pop(p, k), p.colas[k][0])
  }

  // ---- the main loop ----

  /** What the coordinator asks while un_esi runs an instruction. */
  datatype Pregunta = Chequear(clave: string) | Guardar(clave: string) | Poner(clave: string) | Abortar

  /** What the ESI reports at its end. */
  datatype Respuesta = Ok | Bloqueo | Fin | Aborto

  datatype Evento =
    | Llega
    | Despacha
    | Instruye(p: Pregunta, r: Respuesta)
    | Desbloquea(clave: string)

  /** wait_question. */
  function WaitQuestion(c: Config, s: Estado, p: Pregunta): Estado {
    match p
    case Chequear(k) => CheckKey(s, k)
    case Guardar(k) => UnlockKey(c, s, k)
    case Poner(_) => s
    case Abortar => s.(abortar := true)
  }

  function Reportar(s: Estado, r: Respuesta): Estado {
    match r
    case Ok => s
    case Bloqueo => s
    case Fin => s.(fin := true, abortar := false)
    case Aborto => s.(fin := true, abortar := true)
  }

  /** The answers that can follow a question. */
  predicate Compatible(s: Estado, p: Pregunta, r: Respuesta) {
    match p
    case Chequear(k) => if Concede(s, k) then r.Ok? || r.Fin? else r.Bloqueo?
    case Guardar(k) => !r.Bloqueo? && (EsDuenio(s, k) || r.Aborto?)
    case Poner(k) => !r.Bloqueo? && (EsDuenio(s, k) || r.Aborto?)
    case Abortar => r.Aborto?
  }

  /** The ESI that had the CPU has run an instruction, unless it was preempted meanwhile. */
  function Estrenar(s: Estado, q: Estado): Estado {
    if q.unEsi == s.unEsi then q.(recien := false) else q
  }

  /** The question of the coordinator answered. */
  function Preguntado(c: Config, s: Estado, p: Pregunta): Estado {
    Estrenar(s, WaitQuestion(c, s, p))
  }

  /** The tail of the loop: a blocked ESI leaves the CPU, and so does one that finished. */
  function Cerrar(c: Config, s: Estado, bloqueado: bool): Estado {
    var v :=
      if !bloqueado then s
      else if s.abortar then FinishEsi(c, s)
      else s.(fin := true);
    if v.fin then FinishEsi(c, v).(fase := Esperando) else v
  }

  /** One turn of the main loop, from the order to the ESI to the next wait or turn. */
  function Instruccion(c: Config, s: Estado, p: Pregunta, r: Respuesta): Estado {
    Cerrar(c, UpdateValues(c, Reportar(Preguntado(c, s, p), r)), r.Bloqueo?)
  }

  function NuevoEsi(c: Config, s: Estado): Estado {
    var q := Esi(s.numEsi + 1);
    var e := c.inicial as real;
    s.(numEsi := s.numEsi + 1, ready := s.ready + [q], hayEsis := s.hayEsis + 1,
       datos := s.datos[q := Datos(0, e, e, 0.0)])
  }

  function Despachar(c: Config, s: Estado): Estado
    requires s.ready != []
  {
    var l := if s.fase.Arranque? then s.ready else Ordenar(c, s, s.ready);
    assert |l| == |multiset(l)| == |s.ready|;
    s.(hayEsis := s.hayEsis - 1, unEsi := l[0], ready := l[1..], fase := Corriendo, fin := false, recien := true)
  }

  predicate Habilitado(s: Estado, ev: Evento) {
    match ev
    case Llega => true
    case Despacha => !s.fase.Corriendo? && s.hayEsis > 0 && s.ready != []
    case Instruye(p, r) => s.fase.Corriendo? && Compatible(s, p, r)
    case Desbloquea(_) => true
  }

  function Paso(c: Config, s: Estado, ev: Evento): Estado
    requires Habilitado(s, ev)
  {
    match ev
    case Llega => NuevoEsi(c, s)
    case Despacha => Despachar(c, s)
    case Instruye(p, r) => Instruccion(c, s, p, r)
    case Desbloquea(k) => UnlockKeyByConsole(c, s, k)
  }

  /** new_blocked_keys: the keys of the configuration start in the hands of the console. */
  function Inicial(bloqueadas: set<string>): Estado {
    Estado(Arranque, Consola, [], map k | k in bloqueadas :: [Consola], [], [], map[], 0,
           false, false, false, 0, 0, false)
  }
}
