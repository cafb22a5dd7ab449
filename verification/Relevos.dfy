/** What is decided when a key changes hands: whether a GET is granted, and who is woken when a
    STORE, the end of an ESI or the console lets a key go. */
module Relevos {
  import opened Planificacion
  import opened Exclusion
  import opened Claves
  import opened Despacho

  // ---- the grant ----

  /** Somebody owns the key or stands in its queue. */
  ghost predicate Ocupada(s: Estado, k: string) {
    (exists q :: Reserva(q, k) in s.reservas) || Cola(s, k) != []
  }

  lemma TomadaEs(s: Estado, k: string)
    ensures Tomada(s, k) <==> exists q :: Reserva(q, k) in s.reservas
  {
    if r :| r in s.reservas && r.clave == k { assert Reserva(r.esi, k) in s.reservas; }
  }

  lemma ConcedeSii(s: Estado, k: string)
    requires Sana(s)
    ensures Concede(s, k) <==> !Ocupada(s, k)
  {
    TomadaEs(s, k);
    if k !in s.colas {
      forall q ensures Reserva(q, k) !in s.reservas {}
    }
  }

  /** A GET is granted exactly when nobody owns the key and nobody waits for it: its ESI is then
      the owner and `block` is clear; otherwise the ESI is last in the queue and `block` is set. */
  lemma GetExacto(s: Estado, k: string)
    requires Sana(s)
    ensures var t := CheckKey(s, k);
            && (t.block <==> Ocupada(s, k))
            && t.reservas == (if Ocupada(s, k) then s.reservas else s.reservas + [Reserva(s.unEsi, k)])
            && t.colas == s.colas[k := if Ocupada(s, k) then Cola(s, k) + [s.unEsi] else []]
            && t == s.(block := t.block, reservas := t.reservas, colas := t.colas)
  {
    ConcedeSii(s, k);
    if !Ocupada(s, k) && k in s.colas { assert s.colas[k := []] == s.colas; }
  }

  // ---- the wake-up ----

  /** calculate_estimation, on the way from `d` to `e`; under HRRN the wait starts afresh. */
  ghost predicate Reestimada(c: Config, d: Datos, e: Datos) {
    var a := c.alfa as real / 100.0;
    && e.estimada == a * d.instrucciones as real + (1.0 - a) * Truncar(d.previa) as real
    && e.previa == d.estimada && e.instrucciones == d.instrucciones
    && e.espera == if c.algoritmo.HRRN? then 0.0 else d.espera
  }

  /** From `s` to `t` the ESI `q` is woken: estimated again, it is ready, or, under SJF-CD and if
      it needs less than the ESI on the CPU, has the CPU and that one is ready. Nobody else's
      estimate changes. */
  ghost predicate Despierto(c: Config, s: Estado, t: Estado, q: Quien) {
    && Reestimada(c, Dato(s, q), Dato(t, q)) && (forall x | x != q :: Dato(t, x) == Dato(s, x))
    && if c.algoritmo.SJFCD? && q != s.unEsi && Dato(t, q).estimada < Dato(s, s.unEsi).estimada
       then t.unEsi == q && multiset(t.ready) == multiset(s.ready) + multiset{s.unEsi}
       else t.unEsi == s.unEsi && multiset(t.ready) == multiset(s.ready) + multiset{q}
  }

  lemma ListarDespierta(c: Config, s: Estado, q: Quien)
    ensures Reestimada(c, Dato(s, q), Dato(Listar(c, s, q), q))
    ensures forall x | x != q :: Dato(Listar(c, s, q), x) == Dato(s, x)
    ensures var t := Listar(c, s, q);
            && t.ready == s.ready + [q] && t.unEsi == s.unEsi && t.hayEsis == s.hayEsis
            && t.colas == s.colas && t.reservas == s.reservas && t.mudos == s.mudos
  {}

  /** The ESI that goes to the ready list goes to its end. */
  ghost predicate AlFinal(s: Estado, t: Estado, q: Quien) {
    t.ready == s.ready + [if t.unEsi == s.unEsi then q else s.unEsi]
  }

  lemma AvisarDespierta(c: Config, s: Estado, q: Quien)
    ensures var t := Avisar(c, s, q);
            && Despierto(c, s, t, q) && AlFinal(s, t, q)
            && t.hayEsis == s.hayEsis + 1 && t.colas == s.colas && t.reservas == s.reservas
  {
    ListarDespierta(c, s, q);
    AvisarReservas(c, s, q);
  }

  lemma OrdenadoDespierta(c: Config, s: Estado, t: Estado, q: Quien)
    requires Despierto(c, s, t, q)
    ensures var u := Ordenado(c, t);
            && Despierto(c, s, u, q) && Ascendente(c, u, u.ready)
            && u.hayEsis == t.hayEsis && u.colas == t.colas && u.reservas == t.reservas
  {
    OrdenarAscendente(c, t, t.ready);
    var u := Ordenado(c, t);
    assert forall x :: Dato(u, x) == Dato(t, x);
  }

  /** A STORE by the owner of a key that is waited for: the first in the queue is woken, the others
      stay in order, hay_esis is posted once and the ready list is sorted. */
  lemma StoreReleva(c: Config, s: Estado, k: string, q: Quien, resto: seq<Quien>)
    requires Reserva(s.unEsi, k) in s.reservas && k in s.colas && s.colas[k] == [q] + resto
    ensures var t := UnlockKey(c, s, k);
            && Despierto(c, s, t, q) && t.hayEsis == s.hayEsis + 1
            && t.colas == s.colas[k := resto] && Ascendente(c, t, t.ready)
            && (Unicas(s.reservas) ==> forall r :: r in t.reservas <==> r in s.reservas && r != Reserva(s.unEsi, k))
  {
    var r := s.(reservas := Sacar(s.reservas, Exacta(s.unEsi, k)));
    var p := Pop(r, k);
    assert p.colas == s.colas[k := resto];
    AvisarDespierta(c, p, q);
    OrdenadoDespierta(c, p, Avisar(c, p, q), q);
    MismosDatos(c, s, p, UnlockKey(c, s, k), q);
    if Unicas(s.reservas) {
      forall x ensures x in UnlockKey(c, s, k).reservas <==> x in s.reservas && x != Reserva(s.unEsi, k) {
        UnlockKeyReservas(c, s, k, x);
      }
    }
  }

  lemma MismosDatos(c: Config, s: Estado, p: Estado, t: Estado, q: Quien)
    requires Despierto(c, p, t, q) && p.datos == s.datos && p.ready == s.ready && p.unEsi == s.unEsi
    ensures Despierto(c, s, t, q)
  {
    assert forall x :: Dato(p, x) == Dato(s, x);
  }

  /** With nobody in the queue a STORE by the owner wakes nobody, and by another does nothing. */
  lemma StoreSolo(c: Config, s: Estado, k: string)
    requires Unicas(s.reservas)
    ensures Reserva(s.unEsi, k) !in s.reservas ==> UnlockKey(c, s, k) == s
    ensures Reserva(s.unEsi, k) in s.reservas && Cola(s, k) == [] ==>
              var t := UnlockKey(c, s, k);
              && t == s.(reservas := t.reservas)
              && forall r :: r in t.reservas <==> r in s.reservas && r != Reserva(s.unEsi, k)
  {
    forall x ensures x in UnlockKey(c, s, k).reservas <==> x in s.reservas && x != Reserva(s.unEsi, k) {
      UnlockKeyReservas(c, s, k, x);
    }
  }

  /** What the console's unlock comes to when `cola` waits behind it, or behind nobody. */
  lemma ConsolaSigue(c: Config, s: Estado, k: string, antes: seq<Quien>, cola: seq<Quien>) returns (a: Estado)
    requires k in s.colas && s.colas[k] == antes + cola && (antes == [] || antes == [Consola])
    requires cola != [] ==> cola[0] != Consola
    ensures a == s.(reservas := Sacar(s.reservas, DeClave(k)), colas := s.colas[k := cola])
    ensures UnlockKeyByConsole(c, s, k) == if cola == [] then a else Avisar(c, Pop(a, k), cola[0])
  {
    var r := s.(reservas := Sacar(s.reservas, DeClave(k)));
    a := s.(reservas := Sacar(s.reservas, DeClave(k)), colas := s.colas[k := cola]);
    if antes == [] {
      assert antes + cola == cola && s.colas[k := cola] == s.colas;
      assert a == r;
    } else {
      assert r.colas[k][1..] == cola && r.colas[k][0] == Consola;
      assert a == Pop(r, k);
    }
  }

  /** The console lets a key go: if it held the head of the queue it leaves it; then the first in
      the queue is woken and hay_esis posted, without a sort, and with nobody there nothing else
      changes. */
  lemma ConsolaReleva(c: Config, s: Estado, k: string, antes: seq<Quien>, cola: seq<Quien>)
    requires Sana(s) && k in s.colas && s.colas[k] == antes + cola && (antes == [] || antes == [Consola])
    requires cola != [] ==> cola[0] != Consola
    ensures var t := UnlockKeyByConsole(c, s, k);
            && (cola != [] ==>
                  && Despierto(c, s, t, cola[0]) && AlFinal(s, t, cola[0])
                  && t.hayEsis == s.hayEsis + 1 && t.colas == s.colas[k := cola[1..]])
            && (cola == [] ==> t == s.(reservas := t.reservas, colas := s.colas[k := []]))
    ensures forall r :: r in UnlockKeyByConsole(c, s, k).reservas <==> r in s.reservas && r.clave != k
  {
    var a := ConsolaSigue(c, s, k, antes, cola);
    if cola != [] { ConsolaDespierta(c, s, a, k, cola); }
    forall x ensures x in UnlockKeyByConsole(c, s, k).reservas <==> x in s.reservas && x.clave != k {
      ConsolaReservas(c, s, k, x);
    }
  }

  lemma ConsolaDespierta(c: Config, s: Estado, a: Estado, k: string, cola: seq<Quien>)
    requires k in s.colas && cola != [] && a == s.(reservas := a.reservas, colas := s.colas[k := cola])
    ensures var t := Avisar(c, Pop(a, k), cola[0]);
            && Despierto(c, s, t, cola[0]) && AlFinal(s, t, cola[0])
            && t.hayEsis == s.hayEsis + 1 && t.colas == s.colas[k := cola[1..]]
  {
    var p := Pop(a, k);
    assert p.colas == s.colas[k := cola[1..]];
    AvisarDespierta(c, p, cola[0]);
    MismosDatos(c, s, p, Avisar(c, p, cola[0]), cola[0]);
  }

  // ---- the release of all the keys of an ESI ----

  /** The first in the queue of a key. */
  function Cabeza(colas: map<string, seq<Quien>>, k: string): seq<Quien> {
    if k in colas && colas[k] != [] then [colas[k][0]] else []
  }

  /** Those that wait first for the keys of `e`, in the order of the owners' list. */
  function Primeros(rs: seq<Reserva>, colas: map<string, seq<Quien>>, e: Quien): seq<Quien> {
    if rs == [] then []
    else (if rs[0].esi == e then Cabeza(colas, rs[0].clave) else []) + Primeros(rs[1..], colas, e)
  }

  lemma QuitarDetras(rs: seq<Reserva>, i: nat)
    requires 0 < i < |rs|
    ensures Quitar(rs, i) == [rs[0]] + Quitar(rs[1..], i - 1)
  {}

  lemma UnPrimero(r: Reserva, rs: seq<Reserva>, colas: map<string, seq<Quien>>, e: Quien)
    ensures Primeros([r] + rs, colas, e) == (if r.esi == e then Cabeza(colas, r.clave) else []) + Primeros(rs, colas, e)
  {
    assert ([r] + rs)[1..] == rs;
  }

  lemma {:induction false} PrimerosSin(rs: seq<Reserva>, colas: map<string, seq<Quien>>, e: Quien, i: nat)
    requires i < |rs| && rs[i].esi == e && forall j | 0 <= j < i :: rs[j].esi != e
    ensures Primeros(rs, colas, e) == Cabeza(colas, rs[i].clave) + Primeros(Quitar(rs, i), colas, e)
  {
    if i == 0 {
      assert Quitar(rs, 0) == rs[1..];
    } else {
      PrimerosSin(rs[1..], colas, e, i - 1);
      QuitarDetras(rs, i);
      UnPrimero(rs[0], Quitar(rs[1..], i - 1), colas, e);
      assert [] + Primeros(rs[1..], colas, e) == Primeros(rs[1..], colas, e);
    }
  }

  /** The queue of a key that none of these reservations names does not matter. */
  lemma {:induction false} PrimerosAjenos(rs: seq<Reserva>, colas: map<string, seq<Quien>>, e: Quien, k: string,
                                          cola: seq<Quien>)
    requires forall r | r in rs :: r.clave != k
    ensures Primeros(rs, colas[k := cola], e) == Primeros(rs, colas, e)
  {
    if rs != [] {
      assert rs[0] in rs;
      PrimerosAjenos(rs[1..], colas, e, k, cola);
    }
  }

  /** What unlock_esi does for one key: no sort, and no post of hay_esis. */
  lemma UnlockEsiReleva(c: Config, s: Estado, k: string)
    ensures var t := UnlockEsi(c, s, k);
            && t.reservas == s.reservas && t.unEsi == s.unEsi && t.hayEsis == s.hayEsis
            && (Cola(s, k) == [] ==> t == s)
            && (Cola(s, k) != [] ==>
                  var q := s.colas[k][0];
                  && t.ready == s.ready + [q] && t.colas == s.colas[k := s.colas[k][1..]]
                  && Reestimada(c, Dato(s, q), Dato(t, q)) && forall x | x != q :: Dato(t, x) == Dato(s, x))
  {
    if Cola(s, k) != [] { ListarDespierta(c, Pop(s, k), s.colas[k][0]); }
  }

  lemma SinSuClave(rs: seq<Reserva>, i: nat)
    requires Unicas(rs) && i < |rs|
    ensures forall r | r in Quitar(rs, i) :: r.clave != rs[i].clave
  {
    SacarQuita(rs, i);
    forall r | r in Quitar(rs, i) ensures r.clave != rs[i].clave {
      var j :| 0 <= j < |rs| && rs[j] == r;
    }
  }

  /** The queue of each key of `e` loses its first, and no other queue changes. */
  ghost predicate Avanzan(s: Estado, t: Estado, e: Quien) {
    && t.colas.Keys == s.colas.Keys
    && forall k | k in s.colas ::
         t.colas[k] == if Reserva(e, k) in s.reservas && s.colas[k] != [] then s.colas[k][1..] else s.colas[k]
  }

  /** Those woken once are estimated again, and those not woken keep their estimate. */
  ghost predicate Reestimados(c: Config, s: Estado, t: Estado, l: seq<Quien>) {
    && (forall q | q !in l :: Dato(t, q) == Dato(s, q))
    && (forall q | multiset(l)[q] == 1 :: Reestimada(c, Dato(s, q), Dato(t, q)))
  }

  lemma UnoMas(c: Config, s: Estado, u: Estado, t: Estado, q: Quien, l: seq<Quien>)
    requires Reestimada(c, Dato(s, q), Dato(u, q)) && forall x | x != q :: Dato(u, x) == Dato(s, x)
    requires Reestimados(c, u, t, l)
    ensures Reestimados(c, s, t, [q] + l)
  {
    forall x | multiset([q] + l)[x] == 1 ensures Reestimada(c, Dato(s, x), Dato(t, x)) {
      assert multiset([q] + l)[x] == multiset(l)[x] + if x == q then 1 else 0;
      if x == q { assert x !in l; }
    }
  }

  lemma AvanzaUna(s: Estado, u: Estado, t: Estado, e: Quien, i: nat)
    requires Unicas(s.reservas) && i < |s.reservas| && s.reservas[i].esi == e
    requires u.reservas == Quitar(s.reservas, i) && Avanzan(u, t, e)
    requires var k := s.reservas[i].clave;
             u.colas == if Cola(s, k) == [] then s.colas else s.colas[k := s.colas[k][1..]]
    ensures Avanzan(s, t, e)
  {
    var k := s.reservas[i].clave;
    SacarQuita(s.reservas, i);
    SinSuClave(s.reservas, i);
    assert s.reservas[i] == Reserva(e, k) && s.reservas[i] in s.reservas;
    forall x | x in s.colas
      ensures x in t.colas
              && t.colas[x] == if Reserva(e, x) in s.reservas && s.colas[x] != [] then s.colas[x][1..] else s.colas[x]
    {
      assert Reserva(e, x) in u.reservas <==> Reserva(e, x) in s.reservas && x != k;
    }
  }

  /** From `s` to `t` the ESI `e` has let all its keys go and the ESIs `l` are woken, in that order. */
  ghost predicate Soltadas(c: Config, s: Estado, t: Estado, e: Quien, l: seq<Quien>) {
    && t.ready == s.ready + l && Avanzan(s, t, e) && Reestimados(c, s, t, l)
    && t.unEsi == s.unEsi && t.hayEsis == s.hayEsis
  }

  /** The release of the i-th reservation alone. */
  ghost predicate Soltada(c: Config, s: Estado, u: Estado, i: nat)
    requires i < |s.reservas|
  {
    var k := s.reservas[i].clave;
    && u.reservas == Quitar(s.reservas, i) && u.unEsi == s.unEsi && u.hayEsis == s.hayEsis
    && if Cola(s, k) == [] then u.ready == s.ready && u.colas == s.colas && u.datos == s.datos
       else
         var q := s.colas[k][0];
         && u.ready == s.ready + [q] && u.colas == s.colas[k := s.colas[k][1..]]
         && Reestimada(c, Dato(s, q), Dato(u, q)) && forall x | x != q :: Dato(u, x) == Dato(s, x)
  }

  lemma UnlockEsiSuelta(c: Config, s: Estado, i: nat)
    requires i < |s.reservas|
    ensures Soltada(c, s, UnlockEsi(c, s.(reservas := Quitar(s.reservas, i)), s.reservas[i].clave), i)
  {
    var r := s.(reservas := Quitar(s.reservas, i));
    UnlockEsiReleva(c, r, s.reservas[i].clave);
    assert forall x :: Dato(r, x) == Dato(s, x);
  }

  /** One turn of the loop and what follows it. */
  lemma SoltadaYResto(c: Config, s: Estado, u: Estado, t: Estado, i: nat, l: seq<Quien>, m: seq<Quien>)
    requires i < |s.reservas| && Soltada(c, s, u, i)
    requires m == Cabeza(s.colas, s.reservas[i].clave) + l
    requires t.ready == u.ready + l && Reestimados(c, u, t, l)
    ensures t.ready == s.ready + m && Reestimados(c, s, t, m)
  {
    var k := s.reservas[i].clave;
    if Cola(s, k) == [] {
      assert m == l;
      MismaReestimacion(c, s, u, t, l);
    } else {
      var q := s.colas[k][0];
      assert m == [q] + l && u.ready + l == s.ready + ([q] + l);
      UnoMas(c, s, u, t, q, l);
    }
  }

  lemma MismaReestimacion(c: Config, s: Estado, u: Estado, t: Estado, l: seq<Quien>)
    requires u.datos == s.datos && Reestimados(c, u, t, l)
    ensures Reestimados(c, s, t, l)
  {
    assert forall x :: Dato(u, x) == Dato(s, x);
  }

  lemma Juntas(c: Config, s: Estado, u: Estado, t: Estado, e: Quien, i: nat, l: seq<Quien>, m: seq<Quien>)
    requires Unicas(s.reservas) && i < |s.reservas| && s.reservas[i].esi == e
    requires Soltada(c, s, u, i) && Soltadas(c, u, t, e, l)
    requires m == Cabeza(s.colas, s.reservas[i].clave) + l
    ensures Soltadas(c, s, t, e, m)
  {
    SoltadaYResto(c, s, u, t, i, l, m);
    AvanzaUna(s, u, t, e, i);
  }

  lemma NadaSuelto(c: Config, s: Estado, e: Quien)
    requires Primera(s.reservas, DeEsi(e)) == -1
    ensures Soltadas(c, s, s, e, Primeros(s.reservas, s.colas, e))
  {
    NingunPrimero(s.reservas, s.colas, e);
    assert s.ready + [] == s.ready;
  }

  lemma UnaYLasDemas(c: Config, s: Estado, u: Estado, t: Estado, e: Quien, i: nat)
    requires Unicas(s.reservas) && i == Primera(s.reservas, DeEsi(e)) && Soltada(c, s, u, i)
    requires Soltadas(c, u, t, e, Primeros(u.reservas, u.colas, e))
    ensures Soltadas(c, s, t, e, Primeros(s.reservas, s.colas, e))
  {
    PrimerosSueltos(c, s, u, e, i);
    Juntas(c, s, u, t, e, i, Primeros(u.reservas, u.colas, e), Primeros(s.reservas, s.colas, e));
  }

  /** The end of an ESI, or any release of all its keys: for each of them, in the order in which they
      were granted, the first in its queue is woken and the others stay. Each one woken is ready and
      estimated again; hay_esis is not posted and the list is not sorted. */
  lemma {:induction false} ReleaseReleva(c: Config, s: Estado, e: Quien)
    requires Unicas(s.reservas)
    ensures Soltadas(c, s, ReleaseKeys(c, s, e), e, Primeros(s.reservas, s.colas, e))
    decreases |s.reservas|
  {
    var i := Primera(s.reservas, DeEsi(e));
    if i == -1 {
      NadaSuelto(c, s, e);
    } else {
      var u := UnlockEsi(c, s.(reservas := Quitar(s.reservas, i)), s.reservas[i].clave);
      UnlockEsiSuelta(c, s, i);
      SacarQuita(s.reservas, i);
      ReleaseReleva(c, u, e);
      UnaYLasDemas(c, s, u, ReleaseKeys(c, u, e), e, i);
    }
  }

  lemma PrimerosSueltos(c: Config, s: Estado, u: Estado, e: Quien, i: nat)
    requires Unicas(s.reservas) && i == Primera(s.reservas, DeEsi(e)) && Soltada(c, s, u, i)
    ensures var k := s.reservas[i].clave;
            Primeros(s.reservas, s.colas, e)
            == Cabeza(s.colas, k) + Primeros(u.reservas, u.colas, e)
  {
    var k := s.reservas[i].clave;
    PrimerosSin(s.reservas, s.colas, e, i);
    SinSuClave(s.reservas, i);
    if Cola(s, k) != [] { PrimerosAjenos(u.reservas, s.colas, e, k, s.colas[k][1..]); }
  }

  lemma {:induction false} NingunPrimero(rs: seq<Reserva>, colas: map<string, seq<Quien>>, e: Quien)
    requires forall r | r in rs :: r.esi != e
    ensures Primeros(rs, colas, e) == []
  {
    if rs != [] {
      assert rs[0] in rs;
      NingunPrimero(rs[1..], colas, e);
    }
  }
}
