/** Which instance a GET gives its key to, and how the keys are shared over runs of GETs. */
module Asignaciones {
  import opened Opciones
  import opened Planificacion
  import opened Coordinacion
  import opened Letras
  import opened Turnos

  // ---- ties of free space ----

  /** The active instances with that much free space among the first `i`. */
  function Empatadas(ns: seq<Nodo>, m: int, i: nat): (n: nat)
    requires i <= |ns|
  {
    if i == 0 then 0 else Empatadas(ns, m, i - 1) + if ns[i - 1].activa && ns[i - 1].libre == m then 1 else 0
  }

  /** Each of `l` has its place in the list among those with that much free space, counting from `b`. */
  ghost predicate Numeradas(ns: seq<Nodo>, m: int, l: seq<nat>, b: nat) {
    forall q | 0 <= q < |l| :: l[q] < |ns| && Empatadas(ns, m, l[q]) == b + q
  }

  lemma UnaNumerada(ns: seq<Nodo>, m: int, i: nat, l: seq<nat>)
    requires i < |ns| && Numeradas(ns, m, l, Empatadas(ns, m, i) + 1)
    ensures Numeradas(ns, m, [i] + l, Empatadas(ns, m, i))
  {
    var r := [i] + l;
    assert forall q | 0 < q < |r| :: r[q] == l[q - 1];
  }

  lemma FindPaso(ns: seq<Nodo>, m: int, desde: nat)
    requires desde < |ns|
    ensures FindByFreeSpace(ns, m, desde)
         == if ns[desde].activa && ns[desde].libre == m then [desde] + FindByFreeSpace(ns, m, desde + 1)
            else FindByFreeSpace(ns, m, desde + 1)
  {}

  lemma {:induction false} FindByFreeSpaceOrden(ns: seq<Nodo>, m: int, desde: nat, l: seq<nat>)
    requires desde <= |ns| && l == FindByFreeSpace(ns, m, desde)
    ensures Numeradas(ns, m, l, Empatadas(ns, m, desde))
    decreases |ns| - desde
  {
    if desde < |ns| {
      var r := FindByFreeSpace(ns, m, desde + 1);
      FindByFreeSpaceOrden(ns, m, desde + 1, r);
      FindPaso(ns, m, desde);
      if ns[desde].activa && ns[desde].libre == m { UnaNumerada(ns, m, desde, r); }
    }
  }

  lemma {:induction false} FindByFreeSpaceLargo(ns: seq<Nodo>, m: int, desde: nat)
    requires desde <= |ns|
    ensures |FindByFreeSpace(ns, m, desde)| == Empatadas(ns, m, |ns|) - Empatadas(ns, m, desde)
    decreases |ns| - desde
  {
    if desde < |ns| {
      FindByFreeSpaceLargo(ns, m, desde + 1);
      FindPaso(ns, m, desde);
    }
  }

  /** `i` is the one that `p` numbers among the active ones with its free space, or the first of them
      when there are not so many, and `q` is the next number. */
  predicate EnSuTurno(ns: seq<Nodo>, p: nat, i: nat, q: nat)
    requires i < |ns|
  {
    && Empatadas(ns, ns[i].libre, i) == (if p < Empatadas(ns, ns[i].libre, |ns|) then p else 0)
    && q == Empatadas(ns, ns[i].libre, i) + 1
  }

  /** choose_by_space takes the one that the pointer numbers among those with the most free space, or
      the first of them when there are not so many, and a real choice moves the pointer to the next:
      as long as the spaces stay, ties are taken in turn. */
  lemma EmpatesEnTurno(ns: seq<Nodo>, p: nat, simulado: bool)
    requires ChooseBySpace(ns, p, simulado).Some?
    ensures var (i, q) := ChooseBySpace(ns, p, simulado).value;
            EnSuTurno(ns, p, i, if simulado then q + 1 else q)
  {
    var m, l, t := ElegidaDeLista(ns, p, simulado);
    FindByFreeSpaceOrden(ns, m, 0, l);
    FindByFreeSpaceLargo(ns, m, 0);
  }

  lemma ElegidaDeLista(ns: seq<Nodo>, p: nat, simulado: bool) returns (m: int, l: seq<nat>, t: nat)
    requires ChooseBySpace(ns, p, simulado).Some?
    ensures l == FindByFreeSpace(ns, m, 0) && t == (if p < |l| then p else 0) && t < |l| && l[t] < |ns|
    ensures ns[l[t]].libre == m
    ensures ChooseBySpace(ns, p, simulado).value == (l[t], if simulado then t else t + 1)
  {
    m := MasLibre(ns).value;
    l := FindByFreeSpace(ns, m, 0);
    t := if |l| - 1 < p then 0 else p;
    FindByFreeSpaceHalla(ns, m, 0);
    assert l != [] by {
      var j :| 0 <= j < |ns| && ns[j].activa && ns[j].libre == m;
      assert j in l;
    }
    assert l[t] in l;
  }

  // ---- one assignment ----

  /** From `ns` to `ms` instances may only go inactive, and only those that do not respond. */
  ghost predicate SoloCaen(ns: seq<Nodo>, ms: seq<Nodo>, vivas: set<nat>) {
    && |ns| == |ms|
    && forall j | 0 <= j < |ns| ::
         && ms[j].nombre == ns[j].nombre && ms[j].libre == ns[j].libre
         && (ms[j].activa ==> ns[j].activa) && (ns[j].activa && !ms[j].activa ==> j !in vivas)
  }

  /** The place behind `i`, or the first. */
  function Siguiente(ns: seq<Nodo>, i: nat): nat { if i + 1 == |ns| then 0 else i + 1 }

  /** EL: the instances tried from pointer `p` are `js`: each is the first active one from the
      pointer on, or the last of the list; all but the last tried were active and did not respond. */
  ghost predicate Ronda(ns: seq<Nodo>, p: nat, js: seq<nat>, vivas: set<nat>)
    decreases |js|
  {
    && js != [] && PrimeraDesde(ns, p, js[0])
    && if |js| == 1 then ns[js[0]].activa ==> js[0] in vivas
       else
         && ns[js[0]].activa && js[0] !in vivas
         && Ronda(ns[js[0] := ns[js[0]].(activa := false, letraMin := 0, letraMax := 0)], Siguiente(ns, js[0]),
                  js[1..], vivas)
  }

  /** `i` is the first instance whose range holds the letter. */
  ghost predicate PrimeraConLetra(ns: seq<Nodo>, x: int, i: nat) {
    && i < |ns| && ns[i].letraMin <= x <= ns[i].letraMax
    && forall j | 0 <= j < i :: !(ns[j].letraMin <= x <= ns[j].letraMax)
  }

  /** Active, with the most free space of the active ones; and those that went on the way had no less. */
  ghost predicate LaMasLibre(ns: seq<Nodo>, ms: seq<Nodo>, i: nat)
    requires |ns| == |ms|
  {
    && i < |ms| && ms[i].activa
    && (forall j | 0 <= j < |ms| && ms[j].activa :: ms[j].libre <= ms[i].libre)
    && (forall j | 0 <= j < |ms| && ns[j].activa && !ms[j].activa :: ms[j].libre >= ms[i].libre)
  }

  ghost predicate MismaActividad(ns: seq<Nodo>, ms: seq<Nodo>) {
    |ns| == |ms| && forall j | 0 <= j < |ns| :: ms[j].activa == ns[j].activa
  }

  /** From `c` to `d` the key is given to instance `i` alone, as the algorithm has it. */
  ghost predicate Dada(c: Coord, d: Coord, i: nat, k: string, vivas: set<nat>) {
    && d.reparto == c.reparto && d.dicc == c.dicc
    && SoloCaen(c.nodos, d.nodos, vivas) && Gana(c.nodos, d.nodos, i, k) && (d.nodos[i].activa ==> i in vivas)
    && match c.reparto
       case EL => d.puntero == Siguiente(c.nodos, i)
                  && exists js :: Ronda(c.nodos, c.puntero, js, vivas) && js[|js| - 1] == i
       case LSU => LaMasLibre(c.nodos, d.nodos, i)
                   && (MismaActividad(c.nodos, d.nodos) ==> EnSuTurno(c.nodos, c.puntero, i, d.puntero))
       case KE => d.puntero == c.puntero
                  && (k != "" ==> exists x :: PrimeraLetra(k, x) && PrimeraConLetra(d.nodos, x, i))
  }

  lemma CaeSola(c: Coord, i: nat, vivas: set<nat>)
    requires i < |c.nodos| && c.nodos[i].activa && i !in vivas && Desconectar(c, i).Some?
    ensures SoloCaen(c.nodos, Desconectar(c, i).value.nodos, vivas)
  {
    DesconectarCae(c, i);
  }

  lemma LetraInicial(k: string, x: int)
    ensures PrimeraLetra(k, x) <==> k != "" && x == Letra(k)
  {}

  lemma AnotaGana(c: Coord, i: nat, k: string)
    requires i < |c.nodos|
    ensures Gana(c.nodos, Anotar(c, i, k).nodos, i, k)
    ensures var ms := Anotar(c, i, k).nodos;
            |ms| == |c.nodos| && forall j | 0 <= j < |ms| :: ms[j] == c.nodos[j].(claves := ms[j].claves)
  {}

  /** The choice that responds at once. */
  lemma ResponderDa(c: Coord, k: string, vivas: set<nat>)
    requires Elegir(c, k, false).Some?
    requires var (i, p) := Elegir(c, k, false).value;
             Responde(c.(puntero := p), i, vivas)
    ensures var (i, p) := Elegir(c, k, false).value;
            Dada(c, Anotar(c.(puntero := p), i, k), i, k, vivas)
  {
    var (i, p) := Elegir(c, k, false).value;
    var d := Anotar(c.(puntero := p), i, k);
    AnotaGana(c.(puntero := p), i, k);
    match c.reparto
    case EL =>
      ContadorElige(c.nodos, c.puntero, false);
      assert Ronda(c.nodos, c.puntero, [i], vivas) && [i][|[i]| - 1] == i;
    case LSU => EmpatesEnTurno(c.nodos, c.puntero, false);
    case KE =>
      if k != "" {
        LetraInicial(k, Letra(k));
        assert Halla(PorLetra(Letra(k)), c.nodos[i]);
        assert forall j | 0 <= j < i :: !Halla(PorLetra(Letra(k)), c.nodos[j]);
        assert PrimeraConLetra(d.nodos, Letra(k), i);
      }
  }

  lemma CaenTransitivo(c: Coord, e: Coord, d: Coord, j: nat, i: nat, k: string, vivas: set<nat>)
    requires SoloCaen(c.nodos, e.nodos, vivas) && SoloCaen(e.nodos, d.nodos, vivas)
    requires forall x | 0 <= x < |c.nodos| :: e.nodos[x].claves == c.nodos[x].claves
    requires Gana(e.nodos, d.nodos, i, k)
    ensures SoloCaen(c.nodos, d.nodos, vivas) && Gana(c.nodos, d.nodos, i, k)
  {}

  /** A choice that does not respond, and what follows it. */
  lemma CaerDa(c: Coord, e: Coord, d: Coord, i: nat, k: string, vivas: set<nat>)
    requires Elegir(c, k, false).Some?
    requires var (j, p) := Elegir(c, k, false).value;
             !Responde(c.(puntero := p), j, vivas) && Desconectar(c.(puntero := p), j) == Some(e)
    requires Dada(e, d, i, k, vivas)
    ensures Dada(c, d, i, k, vivas)
  {
    var (j, p) := Elegir(c, k, false).value;
    CaeSola(c.(puntero := p), j, vivas);
    DesconectarCae(c.(puntero := p), j);
    CaenTransitivo(c, e, d, j, i, k, vivas);
    match c.reparto
    case EL => OtraVuelta(c, e, j, i, vivas);
    case LSU =>
      assert c.nodos[j].activa && !d.nodos[j].activa;
      OtraLibre(c.nodos, e.nodos, d.nodos, j, i);
    case KE =>
  }

  /** EL: one more instance tried before the others. */
  lemma OtraVuelta(c: Coord, e: Coord, j: nat, i: nat, vivas: set<nat>)
    requires c.puntero < |c.nodos| && ChooseByCounter(c.nodos, c.puntero, false) == (j, e.puntero)
    requires c.nodos[j].activa && j !in vivas
    requires e.nodos == c.nodos[j := c.nodos[j].(activa := false, letraMin := 0, letraMax := 0)]
    requires exists js :: Ronda(e.nodos, e.puntero, js, vivas) && js[|js| - 1] == i
    ensures exists js :: Ronda(c.nodos, c.puntero, js, vivas) && js[|js| - 1] == i
  {
    ContadorElige(c.nodos, c.puntero, false);
    var js :| Ronda(e.nodos, e.puntero, js, vivas) && js[|js| - 1] == i;
    var ls := [j] + js;
    assert ls[1..] == js && ls[|ls| - 1] == i;
    assert Ronda(c.nodos, c.puntero, ls, vivas);
  }

  /** LSU: the one that went had the most free space. */
  lemma OtraLibre(ns: seq<Nodo>, es: seq<Nodo>, ms: seq<Nodo>, j: nat, i: nat)
    requires |ns| == |es| == |ms| && j < |ns| && forall x | 0 <= x < |ns| && ns[x].activa :: ns[x].libre <= ns[j].libre
    requires forall x | 0 <= x < |ns| && x != j :: es[x].activa == ns[x].activa
    requires forall x | 0 <= x < |ns| :: es[x].libre == ns[x].libre && ms[x].libre == es[x].libre
    requires forall x | 0 <= x < |ns| && ms[x].activa :: ns[x].activa
    requires LaMasLibre(es, ms, i)
    ensures LaMasLibre(ns, ms, i)
  {}

  lemma {:induction false} ElegirVivaDa(c: Coord, k: string, vivas: set<nat>) returns (i: nat)
    requires ElegirViva(c, k, vivas).Some?
    ensures Dada(c, ElegirViva(c, k, vivas).value, i, k, vivas)
    decreases Activos(c.nodos)
  {
    var (j, p) := Elegir(c, k, false).value;
    var d := c.(puntero := p);
    i := j;
    if Responde(d, j, vivas) {
      ResponderDa(c, k, vivas);
    } else {
      DesconectarBaja(d, j);
      i := ElegirVivaDa(Desconectar(d, j).value, k, vivas);
      CaerDa(c, Desconectar(d, j).value, ElegirViva(c, k, vivas).value, i, k, vivas);
    }
  }

  /** What a GET does: nothing if the first holder of the key is active and responds; otherwise that
      holder, if it was active, goes inactive, and one instance is given the key: under EL the first
      active one from the pointer on that responds, and the pointer passes it; under LSU an active
      one with the most free space; under KE the first whose range holds the first letter. */
  lemma GetAsigna(c: Coord, k: string, vivas: set<nat>) returns (i: nat)
    requires AssignInstance(c, k, vivas).Some?
    ensures var h, d := Buscar(c.nodos, PorClave(k)), AssignInstance(c, k, vivas).value;
            if h == -1 || !c.nodos[h].activa then Dada(c, d, i, k, vivas)
            else if h in vivas then d == c
            else
              && Desconectar(c, h).Some? && Dada(Desconectar(c, h).value, d, i, k, vivas)
              && SoloCaen(c.nodos, d.nodos, vivas) && !d.nodos[h].activa
  {
    var h := Buscar(c.nodos, PorClave(k));
    i := 0;
    if h == -1 || !c.nodos[h].activa {
      i := ElegirVivaDa(c, k, vivas);
    } else if h !in vivas {
      CaeSola(c, h, vivas);
      DesconectarCae(c, h);
      i := ElegirVivaDa(Desconectar(c, h).value, k, vivas);
    }
  }

  // ---- runs of GETs of new keys ----

  /** GETs that the Planificador grants, each by an ESI. */
  function Gets(c: Coord, gs: seq<(Quien, string)>, vivas: set<nat>): Option<Coord>
    decreases |gs|
  {
    if gs == [] then Some(c)
    else match OperationGet(c, gs[0].0, gs[0].1, true, vivas)
      case None => None
      case Some(s) => Gets(s.coord, gs[1..], vivas)
  }

  /** The keys are different, and no instance holds any. */
  ghost predicate Nuevas(ns: seq<Nodo>, gs: seq<(Quien, string)>) {
    && (forall a, b | 0 <= a < b < |gs| :: gs[a].1 != gs[b].1)
    && forall a, j | 0 <= a < |gs| && 0 <= j < |ns| :: gs[a].1 !in ns[j].claves
  }

  ghost predicate Responden(ns: seq<Nodo>, vivas: set<nat>) { forall j | 0 <= j < |ns| && ns[j].activa :: j in vivas }

  function Reales(n: nat): seq<bool> { seq(n, _ => false) }

  /** The keys that the choices `l` give to instance `j`. */
  function Recibidas(l: seq<nat>, gs: seq<(Quien, string)>, j: nat): set<string>
    requires |l| == |gs|
  {
    if gs == [] then {} else (if l[0] == j then {gs[0].1} else {}) + Recibidas(l[1..], gs[1..], j)
  }

  lemma {:induction false} RecibidasCuenta(l: seq<nat>, gs: seq<(Quien, string)>, j: nat)
    requires |l| == |gs| && forall a, b | 0 <= a < b < |gs| :: gs[a].1 != gs[b].1
    ensures |Recibidas(l, gs, j)| == Veces(l, j)
    ensures forall k | k in Recibidas(l, gs, j) :: exists a :: 0 <= a < |gs| && gs[a].1 == k
  {
    if gs != [] {
      assert forall a | 0 <= a < |gs[1..]| :: gs[1..][a] == gs[a + 1];
      RecibidasCuenta(l[1..], gs[1..], j);
      assert gs[0].1 !in Recibidas(l[1..], gs[1..], j);
    }
  }

  lemma UnaRecibida(i: nat, l: seq<nat>, gs: seq<(Quien, string)>, j: nat)
    requires gs != [] && |l| == |gs| - 1
    ensures Recibidas([i] + l, gs, j) == (if j == i then {gs[0].1} else {}) + Recibidas(l, gs[1..], j)
  {
    assert ([i] + l)[1..] == l;
  }

  lemma {:induction false} AvanzaMisma(ns: seq<Nodo>, ms: seq<Nodo>, i: nat, p: nat)
    requires MismaActividad(ns, ms) && i < |ns|
    ensures Avanza(ns, i, p) == Avanza(ms, i, p)
    decreases |ns| - p
  {
    if !ns[i].activa && p < |ns| { AvanzaMisma(ns, ms, p, p + 1); }
  }

  lemma {:induction false} EleccionesMismas(ns: seq<Nodo>, ms: seq<Nodo>, p: nat, fs: seq<bool>)
    requires MismaActividad(ns, ms) && p < |ns|
    ensures Elecciones(ns, p, fs) == Elecciones(ms, p, fs)
    decreases |fs|
  {
    if fs != [] {
      AvanzaMisma(ns, ms, p, if fs[0] then p else p + 1);
      EleccionesMismas(ns, ms, ChooseByCounter(ns, p, fs[0]).1, fs[1..]);
    }
  }

  /** The first GET of a run goes to the first of the choices, and the rest go on from there. */
  lemma UnGet(c: Coord, e: Quien, k: string, vivas: set<nat>) returns (i: nat)
    requires c.reparto.EL? && c.puntero < |c.nodos| && Responden(c.nodos, vivas)
    requires forall j | 0 <= j < |c.nodos| :: k !in c.nodos[j].claves
    ensures OperationGet(c, e, k, true, vivas).Some?
    ensures var d := OperationGet(c, e, k, true, vivas).value.coord;
            && d.reparto.EL? && MismaActividad(c.nodos, d.nodos) && d.puntero < |d.nodos|
            && (i, d.puntero) == ChooseByCounter(c.nodos, c.puntero, false)
            && forall j | 0 <= j < |d.nodos| :: d.nodos[j].claves == c.nodos[j].claves + if j == i then {k} else {}
  {
    i := ChooseByCounter(c.nodos, c.puntero, false).0;
    assert forall j | 0 <= j < |c.nodos| :: !Halla(PorClave(k), c.nodos[j]);
    assert Buscar(c.nodos, PorClave(k)) == -1;
    AnotaGana(c, i, k);
  }

  lemma SiguenNuevas(ns: seq<Nodo>, ms: seq<Nodo>, gs: seq<(Quien, string)>, i: nat)
    requires gs != [] && Nuevas(ns, gs) && |ms| == |ns|
    requires forall j | 0 <= j < |ns| :: ms[j].claves == ns[j].claves + if j == i then {gs[0].1} else {}
    ensures Nuevas(ms, gs[1..])
  {
    assert forall a | 0 <= a < |gs[1..]| :: gs[1..][a] == gs[a + 1];
  }

  lemma UnaEleccion(ns: seq<Nodo>, p: nat, n: nat)
    requires p < |ns| && n > 0
    ensures var (i, q) := ChooseByCounter(ns, p, false);
            Elecciones(ns, p, Reales(n)) == [i] + Elecciones(ns, q, Reales(n - 1))
  {
    assert Reales(n)[1..] == Reales(n - 1);
  }

  /** EL over any run of GETs of new keys with every active instance responding: each key goes to the
      instance whose turn it is, and to no other. */
  lemma {:induction false} GetsEnTurno(c: Coord, gs: seq<(Quien, string)>, vivas: set<nat>)
    requires c.reparto.EL? && c.puntero < |c.nodos| && Responden(c.nodos, vivas) && Nuevas(c.nodos, gs)
    ensures Gets(c, gs, vivas).Some?
    ensures var d, l := Gets(c, gs, vivas).value, Elecciones(c.nodos, c.puntero, Reales(|gs|));
            && |l| == |gs| && MismaActividad(c.nodos, d.nodos)
            && forall j | 0 <= j < |c.nodos| :: d.nodos[j].claves == c.nodos[j].claves + Recibidas(l, gs, j)
    decreases |gs|
  {
    if gs != [] {
      var i := UnGet(c, gs[0].0, gs[0].1, vivas);
      var e := OperationGet(c, gs[0].0, gs[0].1, true, vivas).value.coord;
      SiguenNuevas(c.nodos, e.nodos, gs, i);
      GetsEnTurno(e, gs[1..], vivas);
      UnaEleccion(c.nodos, c.puntero, |gs|);
      EleccionesMismas(c.nodos, e.nodos, e.puntero, Reales(|gs| - 1));
      var d, r := Gets(e, gs[1..], vivas).value, Elecciones(e.nodos, e.puntero, Reales(|gs| - 1));
      forall j | 0 <= j < |c.nodos|
        ensures d.nodos[j].claves == c.nodos[j].claves + Recibidas([i] + r, gs, j)
      {
        UnaRecibida(i, r, gs, j);
      }
    }
  }

  /** So the new keys are shared fairly: of k keys each of the n instances that are active or last
      gets the floor or the ceiling of k / n, and the others get none. */
  lemma GetsRepartidos(c: Coord, gs: seq<(Quien, string)>, vivas: set<nat>, j: nat)
    requires c.reparto.EL? && c.puntero < |c.nodos| && Responden(c.nodos, vivas) && Nuevas(c.nodos, gs)
    requires j < |c.nodos|
    ensures Gets(c, gs, vivas).Some? && |Gets(c, gs, vivas).value.nodos| == |c.nodos|
    ensures var ganadas, n := Gets(c, gs, vivas).value.nodos[j].claves - c.nodos[j].claves, Puesto(c.nodos, |c.nodos|);
            && n > 0
            && if Participa(c.nodos, j) then
                 |ganadas| == |gs| / n || (|gs| % n != 0 && |ganadas| == |gs| / n + 1)
               else ganadas == {}
  {
    var l := Elecciones(c.nodos, c.puntero, Reales(|gs|));
    GetsEnTurno(c, gs, vivas);
    RecibidasCuenta(l, gs, j);
    var d := Gets(c, gs, vivas).value;
    Ganancia(c.nodos[j].claves, Recibidas(l, gs, j), d.nodos[j].claves);
    ParticipanActivos(c.nodos, c.puntero, Reales(|gs|));
    Equitativa(c.nodos, c.puntero, Reales(|gs|), j);
  }

  lemma Ganancia(a: set<string>, b: set<string>, d: set<string>)
    requires d == a + b && forall k | k in b :: k !in a
    ensures d - a == b
  {}
}
