/** The Coordinador's instances and how a key finds one: lookups, connections, assignment. */
module Coordinacion {
  import opened Opciones
  import opened Planificacion

  datatype Nodo = Nodo(nombre: string, activa: bool, libre: int, letraMin: int, letraMax: int, claves: set<string>)

  datatype Reparto = EL | LSU | KE

  /** The instances, instance_pointer, and the dictionary of each connected ESI. */
  datatype Coord = Coord(reparto: Reparto, nodos: seq<Nodo>, puntero: nat, dicc: map<Quien, set<string>>)

  // ---- lookups ----

  datatype Busca =
    | PorNombre(nombre: string)
    | PorClave(clave: string)
    | PorClaveActiva(clave: string)
    | PorLetra(letra: int)

  predicate Halla(b: Busca, n: Nodo) {
    match b
    case PorNombre(x) => n.nombre == x
    case PorClave(k) => k in n.claves
    case PorClaveActiva(k) => k in n.claves && n.activa
    case PorLetra(l) => n.letraMin <= l <= n.letraMax
  }

  /** list_find: the first that satisfies the condition, or -1. */
  function Buscar(ns: seq<Nodo>, b: Busca): (i: int)
    ensures -1 <= i < |ns|
    ensures i >= 0 ==> Halla(b, ns[i]) && forall j | 0 <= j < i :: !Halla(b, ns[j])
    ensures i == -1 ==> forall j | 0 <= j < |ns| :: !Halla(b, ns[j])
  {
    if |ns| == 0 then -1
    else if Halla(b, ns[0]) then 0
    else
      var i := Buscar(ns[1..], b);
      assert forall j | 0 < j < |ns| :: ns[j] == ns[1..][j - 1];
      if i == -1 then -1 else i + 1
  }

  function Activos(ns: seq<Nodo>): nat {
    if |ns| == 0 then 0 else (if ns[0].activa then 1 else 0) + Activos(ns[1..])
  }

  // ---- letters ----

  const LETRAS := 26

  /** assign_letters over the list: `cant` letters left, `asig` given out, `l` an instance. */
  function Repartir(ns: seq<Nodo>, cant: int, asig: int, l: int): (r: seq<Nodo>)
    ensures |r| == |ns|
  {
    if |ns| == 0 then []
    else if !ns[0].activa then [ns[0]] + Repartir(ns[1..], cant, asig, l)
    else if l <= cant then
      [ns[0].(letraMin := 65 + asig, letraMax := 65 + asig + l - 1)] + Repartir(ns[1..], cant - l, asig + l, l)
    else
      [ns[0].(letraMin := 65 + asig, letraMax := 65 + asig + cant - 1)] + Repartir(ns[1..], cant, asig, l)
  }

  /** Letters an instance, with n instances. */
  function PorInstancia(n: nat): int
    requires n > 0
  {
    LETRAS / n + if LETRAS % n != 0 then 1 else 0
  }

  /** assign_letters; without an active instance it divides by zero. */
  function AssignLetters(ns: seq<Nodo>): Option<seq<Nodo>> {
    var n := Activos(ns);
    if n == 0 then None else Some(Repartir(ns, LETRAS, 0, PorInstancia(n)))
  }

  /** The letters again, when the algorithm uses them. */
  function Letrado(c: Coord): Option<Coord> {
    if !c.reparto.KE? then Some(c)
    else match AssignLetters(c.nodos)
      case None => None
      case Some(ns) => Some(c.(nodos := ns))
  }

  /** disconnect_instance_in_list. */
  function Desconectar(c: Coord, i: nat): Option<Coord>
    requires i < |c.nodos|
  {
    Letrado(c.(nodos := c.nodos[i := c.nodos[i].(activa := false, letraMin := 0, letraMax := 0)]))
  }

  /** add_instance_to_list. */
  function Conectar(c: Coord, nombre: string): Option<Coord> {
    var i := Buscar(c.nodos, PorNombre(nombre));
    if i != -1 then Letrado(c.(nodos := c.nodos[i := c.nodos[i].(activa := true)]))
    else Letrado(c.(nodos := c.nodos + [Nodo(nombre, true, 999, 0, 0, {})]))
  }

  // ---- the choice of an instance ----

  /** The loop of choose_by_counter. */
  function Avanza(ns: seq<Nodo>, i: nat, p: nat): (r: (nat, nat))
    requires i < |ns|
    ensures r.0 < |ns|
    decreases |ns| - p
  {
    if !ns[i].activa && p < |ns| then Avanza(ns, p, p + 1) else (i, p)
  }

  /** choose_by_counter: the instance and the pointer it leaves. */
  function ChooseByCounter(ns: seq<Nodo>, p: nat, simulado: bool): (r: (nat, nat))
    requires p < |ns|
    ensures r.0 < |ns| && r.1 < |ns|
  {
    var (i, q) := Avanza(ns, p, if simulado then p else p + 1);
    (i, if q >= |ns| then 0 else q)
  }

  /** The most free space of an active instance. */
  function MasLibre(ns: seq<Nodo>): (m: Option<int>)
    ensures m.None? <==> forall j | 0 <= j < |ns| :: !ns[j].activa
    ensures m.Some? ==> exists j | 0 <= j < |ns| :: ns[j].activa && ns[j].libre == m.value
    ensures m.Some? ==> forall j | 0 <= j < |ns| && ns[j].activa :: ns[j].libre <= m.value
  {
    if |ns| == 0 then None
    else
      var u := |ns| - 1;
      var m := MasLibre(ns[..u]);
      assert forall j | 0 <= j < u :: ns[..u][j] == ns[j];
      if !ns[u].activa then m
      else if m.Some? && m.value >= ns[u].libre then m
      else
        assert ns[u].activa && ns[u].libre == Some(ns[u].libre).value;
        Some(ns[u].libre)
  }

  /** find_by_free_space, as positions in the list. */
  function FindByFreeSpace(ns: seq<Nodo>, m: int, desde: nat): seq<nat>
    requires desde <= |ns|
    decreases |ns| - desde
  {
    if desde == |ns| then []
    else (if ns[desde].activa && ns[desde].libre == m then [desde] else []) + FindByFreeSpace(ns, m, desde + 1)
  }

  lemma {:induction false} FindByFreeSpaceHalla(ns: seq<Nodo>, m: int, desde: nat)
    requires desde <= |ns|
    ensures forall i :: i in FindByFreeSpace(ns, m, desde) <==>
                        desde <= i < |ns| && ns[i].activa && ns[i].libre == m
    decreases |ns| - desde
  {
    if desde < |ns| { FindByFreeSpaceHalla(ns, m, desde + 1); }
  }

  /** choose_by_space. */
  function ChooseBySpace(ns: seq<Nodo>, p: nat, simulado: bool): (r: Option<(nat, nat)>)
    ensures r.Some? ==> r.value.0 < |ns| && ns[r.value.0].activa
    ensures r.Some? ==> forall j | 0 <= j < |ns| && ns[j].activa :: ns[j].libre <= ns[r.value.0].libre
    ensures r.None? ==> forall j | 0 <= j < |ns| :: !ns[j].activa
  {
    match MasLibre(ns)
    case None => None
    case Some(m) =>
      var l := FindByFreeSpace(ns, m, 0);
      FindByFreeSpaceHalla(ns, m, 0);
      assert l != [] by {
        var j :| 0 <= j < |ns| && ns[j].activa && ns[j].libre == m;
        assert j in l;
      }
      var q := if |l| - 1 < p then 0 else p;
      assert l[q] in l;
      Some((l[q], if simulado then q else q + 1))
  }

  /** choose_by_letter: the letter of a key. */
  function Letra(k: string): int {
    var l := if k == "" then 0 else k[0] as int;
    if 97 <= l <= 122 then l - 32 else l
  }

  /** choose_instance; None where the source would follow a null pointer. */
  function Elegir(c: Coord, k: string, simulado: bool): (r: Option<(nat, nat)>)
    ensures r.Some? ==> r.value.0 < |c.nodos|
  {
    match c.reparto
    case EL => if c.puntero < |c.nodos| then Some(ChooseByCounter(c.nodos, c.puntero, simulado)) else None
    case LSU => ChooseBySpace(c.nodos, c.puntero, simulado)
    case KE =>
      var i := Buscar(c.nodos, PorLetra(Letra(k)));
      if i == -1 then None else Some((i, c.puntero))
  }

  /** test_connection fails for an active instance that is gone (a closed socket passes it). */
  predicate Responde(c: Coord, i: nat, vivas: set<nat>)
    requires i < |c.nodos|
  {
    c.nodos[i].activa ==> i in vivas
  }

  function Anotar(c: Coord, i: nat, k: string): Coord
    requires i < |c.nodos|
  {
    c.(nodos := c.nodos[i := c.nodos[i].(claves := c.nodos[i].claves + {k})])
  }

  lemma {:induction false} ActivosBaja(ns: seq<Nodo>, i: nat, n: Nodo)
    requires i < |ns| && ns[i].activa && !n.activa
    ensures Activos(ns[i := n]) == Activos(ns) - 1
  {
    if i > 0 {
      ActivosBaja(ns[1..], i - 1, n);
      assert ns[i := n][1..] == ns[1..][i - 1 := n];
    } else {
      assert ns[i := n][1..] == ns[1..];
    }
  }

  lemma {:induction false} RepartirActivos(ns: seq<Nodo>, cant: int, asig: int, l: int)
    ensures Activos(Repartir(ns, cant, asig, l)) == Activos(ns)
    decreases |ns|
  {
    if |ns| > 0 {
      var r := Repartir(ns, cant, asig, l);
      if ns[0].activa && l <= cant { RepartirActivos(ns[1..], cant - l, asig + l, l); }
      else { RepartirActivos(ns[1..], cant, asig, l); }
      assert r[1..] == Repartir(ns[1..], if ns[0].activa && l <= cant then cant - l else cant,
                                if ns[0].activa && l <= cant then asig + l else asig, l);
    }
  }

  lemma DesconectarBaja(c: Coord, i: nat)
    requires i < |c.nodos| && c.nodos[i].activa && Desconectar(c, i).Some?
    ensures Activos(Desconectar(c, i).value.nodos) == Activos(c.nodos) - 1
    ensures |Desconectar(c, i).value.nodos| == |c.nodos|
  {
    var n := c.nodos[i].(activa := false, letraMin := 0, letraMax := 0);
    ActivosBaja(c.nodos, i, n);
    var ns := c.nodos[i := n];
    if c.reparto.KE? { RepartirActivos(ns, LETRAS, 0, PorInstancia(Activos(ns))); }
  }

  /** The loop of assign_instance: choose until one responds. */
  function ElegirViva(c: Coord, k: string, vivas: set<nat>): Option<Coord>
    decreases Activos(c.nodos)
  {
    match Elegir(c, k, false)
    case None => None
    case Some((i, p)) =>
      var d := c.(puntero := p);
      if Responde(d, i, vivas) then Some(Anotar(d, i, k))
      else
        match Desconectar(d, i)
        case None => None
        case Some(e) =>
          DesconectarBaja(d, i);
          ElegirViva(e, k, vivas)
  }

  /** assign_instance. */
  function AssignInstance(c: Coord, k: string, vivas: set<nat>): Option<Coord> {
    var h := Buscar(c.nodos, PorClave(k));
    if h == -1 || !c.nodos[h].activa then ElegirViva(c, k, vivas)
    else if h in vivas then Some(c)
    else
      match Desconectar(c, h)
      case None => None
      case Some(d) => ElegirViva(d, k, vivas)
  }

  /** save_on_instance: the Coordinador afterwards and the instance that gets the operation, or
      -1; None where the source follows a null pointer or divides by zero. */
  function SaveOnInstance(c: Coord, k: string, vivas: set<nat>): Option<(Coord, int)> {
    var h := Buscar(c.nodos, PorClave(k));
    if h == -1 then None
    else
      var i := if c.nodos[h].activa then h else Buscar(c.nodos, PorClaveActiva(k));
      if i == -1 then Some((c, -1))
      else if i in vivas then Some((c, i))
      else
        match Desconectar(c, i)
        case None => None
        case Some(d) => Some((d, -1))
  }

  // ---- what no operation forgets ----

  /** The same instances, each with at least the keys it had. */
  ghost predicate Recuerda(ns: seq<Nodo>, ms: seq<Nodo>) {
    |ns| <= |ms| && forall i | 0 <= i < |ns| :: ns[i].nombre == ms[i].nombre && ns[i].claves <= ms[i].claves
  }

  /** The same instances but for the letters of the active ones. */
  ghost predicate SalvoLetras(ns: seq<Nodo>, ms: seq<Nodo>) {
    && |ms| == |ns|
    && forall j | 0 <= j < |ns| ::
         if ns[j].activa then ms[j] == ns[j].(letraMin := ms[j].letraMin, letraMax := ms[j].letraMax)
         else ms[j] == ns[j]
  }

  lemma {:induction false} RepartirSalvo(ns: seq<Nodo>, cant: int, asig: int, l: int)
    ensures SalvoLetras(ns, Repartir(ns, cant, asig, l))
    decreases |ns|
  {
    if |ns| > 0 {
      var lleno := ns[0].activa && l <= cant;
      RepartirSalvo(ns[1..], if lleno then cant - l else cant, if lleno then asig + l else asig, l);
      assert forall i | 0 < i < |ns| :: ns[i] == ns[1..][i - 1];
    }
  }

  lemma LetradoSalvo(c: Coord)
    requires Letrado(c).Some?
    ensures var d := Letrado(c).value;
            SalvoLetras(c.nodos, d.nodos) && d == c.(nodos := d.nodos)
  {
    if c.reparto.KE? { RepartirSalvo(c.nodos, LETRAS, 0, PorInstancia(Activos(c.nodos))); }
  }

  /** Instance `i` goes: it is inactive and has no letters, and nothing else changes but the letters of
      the others. */
  lemma DesconectarCae(c: Coord, i: nat)
    requires i < |c.nodos| && Desconectar(c, i).Some?
    ensures var d := Desconectar(c, i).value;
            && Caida(c.nodos, d.nodos, i) && Recuerda(c.nodos, d.nodos) && d == c.(nodos := d.nodos)
            && (!c.reparto.KE? ==>
                  d.nodos == c.nodos[i := c.nodos[i].(activa := false, letraMin := 0, letraMax := 0)])
  {
    LetradoSalvo(c.(nodos := c.nodos[i := c.nodos[i].(activa := false, letraMin := 0, letraMax := 0)]));
  }

  ghost predicate Caida(ns: seq<Nodo>, ms: seq<Nodo>, i: nat) {
    && i < |ns| == |ms| && !ms[i].activa && ms[i].letraMin == 0 && ms[i].letraMax == 0
    && forall j | 0 <= j < |ns| ::
         && ms[j].nombre == ns[j].nombre && ms[j].libre == ns[j].libre && ms[j].claves == ns[j].claves
         && (j != i ==> ms[j].activa == ns[j].activa)
  }

  /** The same but for letters. */
  ghost predicate Igual(a: Nodo, b: Nodo) {
    a.nombre == b.nombre && a.activa == b.activa && a.libre == b.libre && a.claves == b.claves
  }

  /** The first instance of that name is active again, with the keys and the free space it had; without
      one, a new instance is last, with no keys. The others stay but for their letters. */
  lemma ConectarRevive(c: Coord, nombre: string)
    requires Conectar(c, nombre).Some?
    ensures var d, i := Conectar(c, nombre).value, Buscar(c.nodos, PorNombre(nombre));
            && Recuerda(c.nodos, d.nodos) && d == c.(nodos := d.nodos)
            && |d.nodos| == |c.nodos| + (if i == -1 then 1 else 0)
            && (forall j | 0 <= j < |c.nodos| && j != i :: Igual(d.nodos[j], c.nodos[j]))
            && if i == -1 then Igual(d.nodos[|c.nodos|], Nodo(nombre, true, 999, 0, 0, {}))
               else Igual(d.nodos[i], c.nodos[i].(activa := true))
  {
    var i := Buscar(c.nodos, PorNombre(nombre));
    LetradoSalvo(if i != -1 then c.(nodos := c.nodos[i := c.nodos[i].(activa := true)])
                 else c.(nodos := c.nodos + [Nodo(nombre, true, 999, 0, 0, {})]));
  }

  /** Only instance i gains a key, and it is `k`. */
  ghost predicate Gana(ns: seq<Nodo>, ms: seq<Nodo>, i: nat, k: string) {
    && |ns| == |ms| && i < |ns|
    && forall j | 0 <= j < |ns| :: ms[j].claves == ns[j].claves + if j == i then {k} else {}
  }

  lemma {:induction false} ElegirVivaAnota(c: Coord, k: string, vivas: set<nat>) returns (i: nat)
    requires ElegirViva(c, k, vivas).Some?
    ensures var d := ElegirViva(c, k, vivas).value;
            && Recuerda(c.nodos, d.nodos) && d.dicc == c.dicc && Gana(c.nodos, d.nodos, i, k)
            && (d.nodos[i].activa ==> i in vivas)
    decreases Activos(c.nodos)
  {
    var (e, p) := Elegir(c, k, false).value;
    var d := c.(puntero := p);
    i := e;
    if !Responde(d, i, vivas) {
      DesconectarBaja(d, i);
      DesconectarCae(d, i);
      i := ElegirVivaAnota(Desconectar(d, i).value, k, vivas);
    }
  }

  /** After a GET is assigned just one instance may have gained the key, which it then holds,
      and no instance has forgotten any; when the first holder is active and responds nothing
      changes at all. */
  lemma AssignInstanceAnota(c: Coord, k: string, vivas: set<nat>)
    requires AssignInstance(c, k, vivas).Some?
    ensures var d, h := AssignInstance(c, k, vivas).value, Buscar(c.nodos, PorClave(k));
            && Recuerda(c.nodos, d.nodos) && d.dicc == c.dicc && Buscar(d.nodos, PorClave(k)) != -1
            && (if h != -1 && c.nodos[h].activa && h in vivas then d == c
                else exists i: nat :: Gana(c.nodos, d.nodos, i, k) && (d.nodos[i].activa ==> i in vivas))
  {
    var h, d := Buscar(c.nodos, PorClave(k)), AssignInstance(c, k, vivas).value;
    if h == -1 || !c.nodos[h].activa {
      var i := ElegirVivaAnota(c, k, vivas);
      assert Gana(c.nodos, d.nodos, i, k) && Halla(PorClave(k), d.nodos[i]);
    } else if h !in vivas {
      DesconectarCae(c, h);
      var i := ElegirVivaAnota(Desconectar(c, h).value, k, vivas);
      assert Gana(c.nodos, d.nodos, i, k) && Halla(PorClave(k), d.nodos[i]);
    }
  }

  /** The first active instance that holds the key, or -1. */
  function Tenedora(c: Coord, k: string): (i: int)
    ensures -1 <= i < |c.nodos|
  {
    Buscar(c.nodos, PorClaveActiva(k))
  }

  /** It is the one that save_on_instance tests, and the only one. */
  lemma TenedoraProbada(c: Coord, k: string)
    ensures var h := Buscar(c.nodos, PorClave(k));
            h != -1 ==> Tenedora(c, k) == if c.nodos[h].activa then h else Buscar(c.nodos, PorClaveActiva(k))
    ensures Buscar(c.nodos, PorClave(k)) == -1 ==> Tenedora(c, k) == -1
  {
    var h, i := Buscar(c.nodos, PorClave(k)), Tenedora(c, k);
    assert i != -1 ==> Halla(PorClave(k), c.nodos[i]);
    assert h != -1 && c.nodos[h].activa ==> Halla(PorClaveActiva(k), c.nodos[h]);
  }

  /** For a key that an instance holds, save_on_instance follows no null pointer; what is left
      is the division by zero when the instance it tests is the last one, and is gone. */
  lemma SaveOnInstanceCae(c: Coord, k: string, vivas: set<nat>)
    requires Buscar(c.nodos, PorClave(k)) != -1
    ensures SaveOnInstance(c, k, vivas).None? <==>
            c.reparto.KE? && Tenedora(c, k) != -1 && Tenedora(c, k) !in vivas && Activos(c.nodos) == 1
  {
    var i := Tenedora(c, k);
    TenedoraProbada(c, k);
    if i != -1 {
      ActivosBaja(c.nodos, i, c.nodos[i].(activa := false, letraMin := 0, letraMax := 0));
    }
  }

  /** What save_on_instance does for a key that an instance holds: it reaches the first active
      holder if that one answers; otherwise it reaches none, even if another holder would
      answer, and that one is inactive from then on. */
  lemma SaveOnInstanceLlega(c: Coord, k: string, vivas: set<nat>)
    requires Buscar(c.nodos, PorClave(k)) != -1 && SaveOnInstance(c, k, vivas).Some?
    ensures var (d, i) := SaveOnInstance(c, k, vivas).value;
            && Recuerda(c.nodos, d.nodos) && d.dicc == c.dicc && d.puntero == c.puntero
            && (i == -1 <==> Tenedora(c, k) == -1 || Tenedora(c, k) !in vivas)
            && (i != -1 ==> i == Tenedora(c, k) && k in c.nodos[i].claves && c.nodos[i].activa && d == c)
            && (i == -1 && Tenedora(c, k) != -1 ==> Caida(c.nodos, d.nodos, Tenedora(c, k)))
            && (Tenedora(c, k) == -1 ==> d == c)
  {
    var i := Tenedora(c, k);
    TenedoraProbada(c, k);
    if i != -1 && i !in vivas { DesconectarCae(c, i); }
  }

  /** A key gets two active holders when its first one goes, a GET finds another, and the first
      one connects again. If that one then stops answering, an operation reaches none, although the
      second would answer. */
  lemma OtraTenedora()
    ensures var a, b := Nodo("a", true, 999, 0, 0, {}), Nodo("b", true, 999, 0, 0, {});
            var c := AssignInstance(Coord(EL, [a, b], 0, map[]), "k", {0, 1});
            c.Some? && Desconectar(c.value, 0).Some?
            && var d := AssignInstance(Desconectar(c.value, 0).value, "k", {1});
               d.Some? && Conectar(d.value, "a").Some?
               && var e := Conectar(d.value, "a").value;
                  && |e.nodos| == 2 && e.nodos[1].activa && "k" in e.nodos[1].claves
                  && SaveOnInstance(e, "k", {1}).Some? && SaveOnInstance(e, "k", {1}).value.1 == -1
  {
    var a, b := Nodo("a", true, 999, 0, 0, {}), Nodo("b", true, 999, 0, 0, {});
    var ak, bk := a.(claves := {"k"}), b.(claves := {"k"});
    var c := Coord(EL, [a, b], 0, map[]);
    assert a.claves + {"k"} == {"k"};
    assert Buscar(c.nodos, PorClave("k")) == -1;
    assert ElegirViva(c, "k", {0, 1}) == Some(Coord(EL, [ak, b], 1, map[])) by {
      assert Anotar(c.(puntero := 1), 0, "k").nodos == [ak, b];
    }
    var d := Coord(EL, [ak.(activa := false), b], 1, map[]);
    assert Buscar(d.nodos, PorClave("k")) == 0;
    assert ElegirViva(d, "k", {1}) == Some(Coord(EL, [ak.(activa := false), bk], 0, map[])) by {
      assert Anotar(d.(puntero := 0), 1, "k").nodos == [ak.(activa := false), bk];
    }
  }

  // ---- the operations of an ESI ----

  datatype Pedido = Get(clave: string) | Set(clave: string) | Store(clave: string) | Invalido

  /** The 22, 23 and 24 that an ESI gets. */
  datatype Aviso = Bloqueado | Exito | Abortado

  function Dicc(c: Coord, e: Quien): set<string> { if e in c.dicc then c.dicc[e] else {} }

  /** What the Planificador is asked, or told, about the operation. */
  function Consulta(c: Coord, e: Quien, o: Pedido): Pregunta {
    match o
    case Get(k) => Chequear(k)
    case Set(k) => if k in Dicc(c, e) then Poner(k) else Abortar
    case Store(k) => if k in Dicc(c, e) then Guardar(k) else Abortar
    case Invalido => Abortar
  }

  /** The outcome of an operation: the Coordinador, the answer, and the instance that got a SET
      or a STORE, or -1. */
  datatype Salida = Salida(coord: Coord, aviso: Aviso, instancia: int)

  /** operation_get, once the Planificador has said whether the key is free. */
  function OperationGet(c: Coord, e: Quien, k: string, libre: bool, vivas: set<nat>): Option<Salida> {
    if !libre then Some(Salida(c, Bloqueado, -1))
    else match AssignInstance(c, k, vivas)
      case None => None
      case Some(d) => Some(Salida(d.(dicc := d.dicc[e := Dicc(d, e) + {k}]), Exito, -1))
  }

  /** update_instance, with the number in the header that is read as the report of a SET. */
  function UpdateInstance(c: Coord, i: nat, libres: int): Coord
    requires i < |c.nodos|
  {
    if c.reparto.LSU? then c.(nodos := c.nodos[i := c.nodos[i].(libre := libres)]) else c
  }

  /** operation_set: `tiene` is the answer of the Planificador, `libres` the number
      read as the report of the instance. */
  function OperationSet(c: Coord, e: Quien, k: string, tiene: bool, vivas: set<nat>, libres: int): Option<Salida> {
    if k !in Dicc(c, e) || !tiene then Some(Salida(c, Abortado, -1))
    else match SaveOnInstance(c, k, vivas)
      case None => None
      case Some((d, i)) =>
        Some(if 0 <= i < |d.nodos| then Salida(UpdateInstance(d, i, libres), Exito, i) else Salida(d, Abortado, -1))
  }

  /** operation_store: a STORE that reached its instance takes the key from the dictionary. */
  function OperationStore(c: Coord, e: Quien, k: string, tiene: bool, vivas: set<nat>): Option<Salida> {
    if k !in Dicc(c, e) || !tiene then Some(Salida(c, Abortado, -1))
    else match SaveOnInstance(c, k, vivas)
      case None => None
      case Some((d, i)) =>
        Some(if i != -1 then Salida(d.(dicc := d.dicc[e := Dicc(d, e) - {k}]), Exito, i) else Salida(d, Abortado, -1))
  }

  /** Under LSU a SET changes the free space of the instance that it reaches, to what is read as its
      report, and of no other; no other algorithm looks at it. */
  lemma SetInforma(c: Coord, e: Quien, k: string, tiene: bool, vivas: set<nat>, libres: int)
    requires OperationSet(c, e, k, tiene, vivas, libres).Some?
    ensures var s := OperationSet(c, e, k, tiene, vivas, libres).value;
            var ms := s.coord.nodos;
            && |ms| == |c.nodos| && (s.aviso.Exito? <==> s.instancia != -1)
            && forall j | 0 <= j < |ms| ::
                 ms[j].libre == if c.reparto.LSU? && j == s.instancia then libres else c.nodos[j].libre
  {
    if k in Dicc(c, e) && tiene {
      SaveOnInstanceLlega(c, k, vivas);
      var (d, i) := SaveOnInstance(c, k, vivas).value;
      var t := Tenedora(c, k);
      if t != -1 && t !in vivas { DesconectarCae(c, t); }
    }
  }

  /** process_message_header_esi. */
  function Operar(c: Coord, e: Quien, o: Pedido, afirma: bool, vivas: set<nat>, libres: int): Option<Salida> {
    match o
    case Get(k) => OperationGet(c, e, k, afirma, vivas)
    case Set(k) => OperationSet(c, e, k, afirma, vivas, libres)
    case Store(k) => OperationStore(c, e, k, afirma, vivas)
    case Invalido => Some(Salida(c, Abortado, -1))
  }
}
