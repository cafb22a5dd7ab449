/** CIRC with values of one slot is a bounded queue of keys. */
module Fifo {
  import opened Tabla
  import opened Arena
  import opened Compactacion
  import opened LRUSet
  import opened LRURefina
  import opened Circular

  /** What the engine keeps: the live slots are those below comienzoDeEntradasLibres, keys are
      not repeated, and the index stands at the end of them until the table is full. */
  ghost predicate Uno(s: Anillo, T: nat) {
    Bien(s.a, T) && !s.flag && UnoTabla(s.a.tabla, T, s.indice, s.comienzo)
  }

  ghost predicate UnoTabla(t: seq<Entrada>, T: nat, indice: nat, comienzo: nat) {
    && |t| >= 1
    && Lleno(t, comienzo)
    && (forall i | 0 <= i < |t| :: t[i].tamanio <= T && (Viva(t[i]) ==> t[i].tamanio >= 1))
    && Distintas(t)
    && (if comienzo < |t| then indice == comienzo else 1 <= indice <= |t|)
  }

  ghost predicate Lleno(t: seq<Entrada>, c: nat) {
    c <= |t| && forall i | 0 <= i < |t| :: Viva(t[i]) <==> i < c
  }

  ghost predicate Distintas(t: seq<Entrada>) {
    forall i, j | 0 <= i < j < |t| && Viva(t[i]) :: t[i].clave != t[j].clave
  }

  function Nombres(t: seq<Entrada>): (r: seq<string>)
    ensures |r| == |t| && forall i | 0 <= i < |t| :: r[i] == t[i].clave
  {
    seq(|t|, i requires 0 <= i < |t| => t[i].clave)
  }

  /** The stored keys, oldest insertion first. */
  ghost function Cola(s: Anillo): seq<string>
    requires s.comienzo <= |s.a.tabla| && s.indice <= |s.a.tabla|
  {
    ColaDe(Nombres(s.a.tabla), s.indice, s.comienzo)
  }

  ghost function ColaDe(n: seq<string>, indice: nat, comienzo: nat): seq<string>
    requires comienzo <= |n| && indice <= |n|
  {
    if comienzo < |n| then n[..comienzo] else n[indice..] + n[..indice]
  }

  lemma ColaTieneClaves(s: Anillo, T: nat, k: string)
    requires Uno(s, T) && k != VACIO
    ensures k in Cola(s) <==> k in Claves(s.a.tabla)
    ensures k in Claves(s.a.tabla) <==> ConsultarTabla(s.a.tabla, k) != -1
  {
    var t, c := s.a.tabla, Cola(s);
    var n := Nombres(t);
    if k in Claves(t) {
      var i :| 0 <= i < |t| && Viva(t[i]) && t[i].clave == k;
      assert n[i] == k;
      if s.comienzo < |t| {
        assert c[i] == k;
      } else if i < s.indice {
        assert c[|t| - s.indice + i] == k;
      } else {
        assert c[i - s.indice] == k;
      }
    }
    if k in Cola(s) { assert k in n; var i :| 0 <= i < |n| && n[i] == k; assert t[i].clave == k; }
  }

  /** The scan that stops at comienzoDeEntradasLibres misses nothing. */
  lemma ConsultaCortaExacta(s: Anillo, T: nat, k: string)
    requires Uno(s, T) && k != VACIO
    ensures ConsultarCorta(s.a.tabla, s.comienzo, k) == ConsultarTabla(s.a.tabla, k)
  {
    var t, u := s.a.tabla, s.a.tabla[..s.comienzo];
    var q, r := ConsultarTabla(t, k), ConsultarTabla(u, k);
    if q != -1 { assert u[q].clave == k; }
    if r != -1 { assert t[r].clave == k; }
  }

  lemma UnoDisposicion(s: Anillo, T: nat)
    requires Uno(s, T)
    ensures Disposicion(s.a.tabla, T)
  {
    var t := s.a.tabla;
    forall k | k in Claves(t)
      ensures Corrida(t, T, k)
    {
      var i :| 0 <= i < |t| && Viva(t[i]) && t[i].clave == k;
      assert Tramo(t, k, i, 1);
      PrimeroDeTramo(t, k, i, 1);
    }
  }

  lemma UnaPagina(n: nat, T: nat)
    requires 1 <= n <= T
    ensures Paginas(n, T) == 1
  {}

  lemma UnoApretada(s: Anillo, T: nat)
    requires Uno(s, T)
    ensures Apretada(s.a.tabla) && PrimeraLibre(s.a.tabla) == s.comienzo
  {
    var t, e := s.a.tabla, PrimeraLibre(s.a.tabla);
    assert e < |t| ==> !Viva(t[e]);
    assert s.comienzo < |t| ==> !Viva(t[s.comienzo]);
  }

  /** A free slot is at hand: at the index, or at 0 once the full table has been walked. */
  lemma UbicarUno(s: Anillo, T: nat, modo: Modo)
    requires Uno(s, T)
    ensures Alcanzable(s, T, modo, 1)
    ensures Ubicar(s, T, modo, 1) == if s.indice < |s.a.tabla| then s else s.(indice := 0)
  {
    UnoApretada(s, T);
    CompactarDesdeQuieta(s.a, T, modo, 0);
    assert Camina(s.a.tabla, T, 1, 0);
    if s.indice == |s.a.tabla| {
      var c := Paso(s, T, modo, 1);
      assert c == Anillo(s.a, true, s.comienzo, s.comienzo);
      PasoAlcanzable(s, T, modo, 1);
      PasoAlcanzable(c, T, modo, 1);
      var d := Paso(c, T, modo, 1);
      assert d == s.(indice := 0);
      assert Ubicar(s, T, modo, 1) == Ubicar(c, T, modo, 1) == Ubicar(d, T, modo, 1) == d;
    }
  }

  /** What a bounded queue does with a key. */
  function Encolar(c: seq<string>, k: string, N: nat): seq<string> {
    if k in c then c
    else if |c| < N then c + [k]
    else if |c| > 0 then c[1..] + [k]
    else c
  }

  /** The slot that a new key takes. */
  function Turno(s: Anillo): nat { if s.indice < |s.a.tabla| then s.indice else 0 }

  /** The slot where the value of `k` goes. */
  function Asiento(s: Anillo, k: string): nat {
    var q := ConsultarTabla(s.a.tabla, k);
    if q != -1 then q else Turno(s)
  }

  /** Changing the entry of a one-slot value does not change its neighbour. */
  lemma MismoVecino(a: Almacen, T: nat, q: nat, e: Entrada, n: nat)
    requires Bien(a, T) && q < |a.tabla| && 1 <= n <= T
    ensures NulInocuo(a.(tabla := a.tabla[q := e]), T, q, n) == NulInocuo(a, T, q, n)
  {
    UnaPagina(n, T);
  }

  lemma ActualizarUno(s: Anillo, T: nat, k: string, n: nat, q: nat)
    requires Uno(s, T) && k != VACIO && 1 <= n <= T && q < |s.a.tabla| && s.a.tabla[q].clave == k
    ensures var u := s.a.tabla[q := s.a.tabla[q].(tamanio := n)];
            && ActualizadaCirc(s.a.tabla, q, 1, k, n) == u
            && UnoTabla(u, T, s.indice, s.comienzo) && Nombres(u) == Nombres(s.a.tabla)
            && Tramo(u, k, q, 1) && Marco(s.a.tabla, u, k)
  {
    var t := s.a.tabla;
    var u := t[q := t[q].(tamanio := n)];
    if q + 1 < |t| { assert t[q].clave != t[q + 1].clave; }
    assert FinDeClave(u, q + 1, k) == q + 1;
  }

  /** The write, once the table is ready: `u` differs from the table of `a` in slots of `k` only. */
  lemma EscribirTrasMarco(a: Almacen, u: seq<Entrada>, T: nat, k: string, v: string, q: nat)
    requires Bien(a, T) && Disposicion(a.tabla, T) && Marco(a.tabla, u, k) && k != VACIO
    requires 1 <= |v| <= T && q < |u| && u[q] == Entrada(k, |v|, u[q].age) && Tramo(u, k, q, 1)
    ensures Mapa(EscribirValor(a.(tabla := u), T, q, v), T) == Mapa(a, T)[k := v]
            <==> NulInocuo(a.(tabla := u), T, q, |v|)
  {
    UnaPagina(|v|, T);
    PrimeroDeTramo(u, k, q, 1);
    MarcoConserva(a, u, T, k);
    var b := a.(tabla := u);
    SinNada(Mapa(a, T));
    EscrituraMapa(b, T, k, q, v);
    EsperadoDesde(Mapa(a, T), Mapa(b, T), {}, k, v);
  }

  lemma ActualizarFifo(s: Anillo, T: nat, modo: Modo, k: string, v: string)
    requires Uno(s, T) && k != VACIO && 1 <= |v| <= T && k in Claves(s.a.tabla)
    ensures Circular.Puede(s, T, modo, k, v)
    ensures var r := SetCIRC(s, T, modo, k, v);
            && Uno(r, T) && Cola(r) == Cola(s)
            && (Mapa(r.a, T) == Mapa(s.a, T)[k := v] <==> NulInocuo(s.a, T, Asiento(s, k), |v|))
  {
    var t, q := s.a.tabla, ConsultarTabla(s.a.tabla, k);
    ColaTieneClaves(s, T, k);
    ConsultaCortaExacta(s, T, k);
    UnaPagina(|v|, T);
    ActualizarUno(s, T, k, |v|, q);
    UnoDisposicion(s, T);
    EscribirTrasMarco(s.a, t[q := t[q].(tamanio := |v|)], T, k, v, q);
    MismoVecino(s.a, T, q, t[q].(tamanio := |v|), |v|);
  }

  /** The slot at `q` freed: the key that stood there goes, and nothing else. */
  lemma Quitar(a: Almacen, T: nat, q: nat)
    requires Bien(a, T) && Disposicion(a.tabla, T) && q < |a.tabla|
    requires forall i | 0 <= i < |a.tabla| && i != q && Viva(a.tabla[i]) :: a.tabla[i].clave != a.tabla[q].clave
    ensures var b := a.(tabla := a.tabla[q := LIMPIA]);
            && Disposicion(b.tabla, T)
            && Claves(b.tabla) == Claves(a.tabla) - {a.tabla[q].clave}
            && Mapa(b, T) == Mapa(a, T) - {a.tabla[q].clave}
  {
    var t, x, u := a.tabla, a.tabla[q].clave, a.tabla[q := LIMPIA];
    forall k | k in Claves(t) && k != x
      ensures k in Claves(u) && Corrida(u, T, k) && GetValue(a.(tabla := u), T, k) == GetValue(a, T, k)
    {
      var i :| 0 <= i < |t| && Viva(t[i]) && t[i].clave == k;
      assert u[i].clave == k;
      MismaLectura(a, a.(tabla := u), T, k);
    }
    forall k | k in Claves(u)
      ensures k in Claves(t) && k != x
    {
      var i :| 0 <= i < |u| && Viva(u[i]) && u[i].clave == k;
      assert t[i].clave == k;
    }
  }

  /** The ring of names when a name goes on slot `i`, free or the oldest. */
  lemma ColaAlColocar(n: seq<string>, indice: nat, comienzo: nat, k: string, i: nat)
    requires |n| >= 1 && comienzo <= |n| && (if comienzo < |n| then indice == comienzo else 1 <= indice <= |n|)
    requires i == (if indice < |n| then indice else 0) && k !in ColaDe(n, indice, comienzo)
    ensures ColaDe(n[i := k], i + 1, Min(comienzo + 1, |n|)) == Encolar(ColaDe(n, indice, comienzo), k, |n|)
    ensures comienzo == |n| ==> ColaDe(n, indice, comienzo)[0] == n[i]
  {
    var m := n[i := k];
    if comienzo < |n| {
      assert m[..i + 1] == n[..i] + [k];
      assert m[i + 1..] + m[..i + 1] == n[i + 1..] + (n[..i] + [k]);
    } else {
      assert m[i + 1..] == n[i + 1..];
      assert m[..i + 1] == n[..i] + [k];
      assert ColaDe(n, indice, comienzo)[1..] == n[i + 1..] + n[..i];
    }
  }

  /** Placing a key on slot `i`. */
  lemma ColocarUno(t: seq<Entrada>, T: nat, indice: nat, comienzo: nat, k: string, n: nat, i: nat)
    requires UnoTabla(t, T, indice, comienzo) && k != VACIO && k !in Claves(t) && 1 <= n <= T
    requires i == if indice < |t| then indice else 0
    ensures var u := t[i := Entrada(k, n, 0)];
            && Colocada(t, i, 1, Entrada(k, n, 0)) == u
            && UnoTabla(u, T, i + 1, Min(comienzo + 1, |t|))
            && Nombres(u) == Nombres(t)[i := k]
            && (comienzo < |t| ==> !Viva(t[i]))
            && Tramo(u, k, i, 1)
  {
    assert forall j | 0 <= j < |t| :: t[j].clave != k;
  }

  /** The slot about to be taken, freed first. */
  lemma ColocarMapa(s: Anillo, T: nat, k: string, v: string, i: nat)
    requires Uno(s, T) && k != VACIO && k !in Claves(s.a.tabla) && 1 <= |v| <= T && i < |s.a.tabla|
    ensures var t := s.a.tabla;
            var u, x := t[i := Entrada(k, |v|, 0)], t[i].clave;
            Mapa(EscribirValor(s.a.(tabla := u), T, i, v), T) == (Mapa(s.a, T) - {x})[k := v]
            <==> NulInocuo(s.a, T, i, |v|)
  {
    var t := s.a.tabla;
    var u, w := t[i := Entrada(k, |v|, 0)], t[i := LIMPIA];
    UnoDisposicion(s, T);
    Quitar(s.a, T, i);
    assert Marco(w, u, k);
    assert Tramo(u, k, i, 1) by {
      assert forall j | 0 <= j < |t| :: t[j].clave != k;
    }
    assert w[i := Entrada(k, |v|, 0)] == u;
    EscribirTrasMarco(s.a.(tabla := w), u, T, k, v, i);
    MismoVecino(s.a, T, i, Entrada(k, |v|, 0), |v|);
  }

  /** What a SET of a new key leaves. */
  lemma InsertarEs(s: Anillo, T: nat, modo: Modo, k: string, v: string)
    requires Uno(s, T) && k != VACIO && 1 <= |v| <= T && k !in Claves(s.a.tabla)
    ensures Circular.Puede(s, T, modo, k, v)
    ensures var t, i := s.a.tabla, Turno(s);
            && i < |t|
            && SetCIRC(s, T, modo, k, v)
               == Anillo(EscribirValor(s.a.(tabla := t[i := Entrada(k, |v|, 0)]), T, i, v), s.flag, i + 1,
                         Min(s.comienzo + 1, |t|))
  {
    ColaTieneClaves(s, T, k);
    ConsultaCortaExacta(s, T, k);
    UnaPagina(|v|, T);
    UbicarUno(s, T, modo);
    ColocarUno(s.a.tabla, T, s.indice, s.comienzo, k, |v|, Turno(s));
  }

  lemma InsertarFifo(s: Anillo, T: nat, modo: Modo, k: string, v: string)
    requires Uno(s, T) && k != VACIO && 1 <= |v| <= T && k !in Claves(s.a.tabla)
    ensures Circular.Puede(s, T, modo, k, v)
    ensures var r := SetCIRC(s, T, modo, k, v);
            Uno(r, T) && Cola(r) == Encolar(Cola(s), k, |s.a.tabla|)
  {
    InsertarEs(s, T, modo, k, v);
    ColaTieneClaves(s, T, k);
    ColocarUno(s.a.tabla, T, s.indice, s.comienzo, k, |v|, Turno(s));
    ColaAlColocar(Nombres(s.a.tabla), s.indice, s.comienzo, k, Turno(s));
  }

  /** The key that a new one drops: the oldest insertion of a full table. */
  lemma Sobrante(s: Anillo, T: nat, k: string)
    requires Uno(s, T) && k != VACIO && k !in Claves(s.a.tabla)
    ensures Turno(s) < |s.a.tabla| && |Cola(s)| == s.comienzo
    ensures var x := s.a.tabla[Turno(s)].clave;
            if |Cola(s)| < |s.a.tabla| then x == VACIO else x == Cola(s)[0]
  {
    ColaTieneClaves(s, T, k);
    ColaAlColocar(Nombres(s.a.tabla), s.indice, s.comienzo, k, Turno(s));
  }

  lemma InsertarMapa(s: Anillo, T: nat, modo: Modo, k: string, v: string)
    requires Uno(s, T) && k != VACIO && 1 <= |v| <= T && k !in Claves(s.a.tabla)
    ensures Circular.Puede(s, T, modo, k, v)
    ensures var r := SetCIRC(s, T, modo, k, v);
            var V := if |Cola(s)| < |s.a.tabla| then {} else {Cola(s)[0]};
            Mapa(r.a, T) == (Mapa(s.a, T) - V)[k := v] <==> NulInocuo(s.a, T, Asiento(s, k), |v|)
  {
    InsertarEs(s, T, modo, k, v);
    ColaTieneClaves(s, T, k);
    Sobrante(s, T, k);
    ColocarMapa(s, T, k, v, Turno(s));
    SinVacio(s.a, T);
    SinNada(Mapa(s.a, T));
  }

  lemma SinVacio(a: Almacen, T: nat)
    requires Bien(a, T)
    ensures Mapa(a, T) - {VACIO} == Mapa(a, T)
  {}

  /** CIRC refines a bounded first-in first-out queue of keys: a SET of a stored key leaves the
      order alone, one of a new key goes last and, in a full table, drops the oldest insertion;
      and the map changes as that says exactly when the terminator changes no live slot. */
  lemma SetEsFifo(s: Anillo, T: nat, modo: Modo, k: string, v: string)
    requires Uno(s, T) && k != VACIO && 1 <= |v| <= T
    ensures Circular.Puede(s, T, modo, k, v)
    ensures var r := SetCIRC(s, T, modo, k, v);
            var N := |s.a.tabla|;
            var V := if k in Cola(s) || |Cola(s)| < N then {} else {Cola(s)[0]};
            && Uno(r, T) && Cola(r) == Encolar(Cola(s), k, N)
            && (Mapa(r.a, T) == (Mapa(s.a, T) - V)[k := v] <==> NulInocuo(s.a, T, Asiento(s, k), |v|))
  {
    ColaTieneClaves(s, T, k);
    SinNada(Mapa(s.a, T));
    if k in Claves(s.a.tabla) {
      ActualizarFifo(s, T, modo, k, v);
    } else {
      InsertarFifo(s, T, modo, k, v);
      InsertarMapa(s, T, modo, k, v);
    }
  }

  /** A compaction asked for by the coordinator keeps the map, but moves the index to the end of
      a full table: the order of the queue survives exactly when there is room or the index
      already stood there. */
  lemma CompactarFifo(s: Anillo, T: nat, modo: Modo)
    requires Uno(s, T)
    ensures var r := Compactado(s, T, modo);
            && Uno(r, T) && r.a == s.a
            && (Cola(r) == Cola(s) <==> s.comienzo < |s.a.tabla| || s.indice == |s.a.tabla|)
  {
    var t, r := s.a.tabla, Compactado(s, T, modo);
    UnoApretada(s, T);
    CompactarDesdeQuieta(s.a, T, modo, 0);
    if s.comienzo == |t| && s.indice < |t| {
      assert Cola(s)[0] == t[s.indice].clave && Cola(r)[0] == t[0].clave;
    }
  }
}
