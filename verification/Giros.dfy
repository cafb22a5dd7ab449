/** CIRC with values of one slot, over every run of SETs, compaction requests, dumps and STOREs. */
module Giros {
  import opened Tabla
  import opened Arena
  import opened Compactacion
  import opened LRUSet
  import opened LRURefina
  import C = Circular
  import F = Fifo
  import opened Recencia
  import opened Volcado
  import opened Archivos

  // ---- the order of the keys ----

  /** The names on the slots in use, and the slot the next new name goes to. */
  datatype Rueda = Rueda(nombres: seq<string>, indice: nat)

  /** What a message does to the names of `N` slots: a new name goes on the next slot, over the
      name there once all are in use; a compaction sends the index to the end. */
  function Girar(r: Rueda, N: nat, o: Mensaje): Rueda {
    match o
    case PedidoCompactar => r.(indice := |r.nombres|)
    case Poner(k, _) =>
      if k in r.nombres then r
      else if |r.nombres| < N then Rueda(r.nombres + [k], |r.nombres| + 1)
      else
        var i := if r.indice < |r.nombres| then r.indice else 0;
        if i < |r.nombres| then Rueda(r.nombres[i := k], i + 1) else r
  }

  function Girada(os: seq<Mensaje>, N: nat): Rueda {
    if |os| == 0 then Rueda([], 0) else Girar(Girada(os[..|os| - 1], N), N, os[|os| - 1])
  }

  ghost function RuedaDe(s: C.Anillo): Rueda
    requires s.comienzo <= |s.a.tabla|
  {
    Rueda(F.Nombres(s.a.tabla)[..s.comienzo], s.indice)
  }

  predicate Corto(o: Mensaje, T: nat) { o.Poner? ==> o.clave != VACIO && 1 <= |o.valor| <= T }

  ghost predicate Cortos(os: seq<Mensaje>, T: nat) { forall i | 0 <= i < |os| :: Corto(os[i], T) }

  lemma EnUso(s: C.Anillo, T: nat, k: string)
    requires F.Uno(s, T) && k != VACIO
    ensures k in RuedaDe(s).nombres <==> k in Claves(s.a.tabla)
  {
    var t, n := s.a.tabla, RuedaDe(s).nombres;
    if k in Claves(t) {
      var i :| 0 <= i < |t| && Viva(t[i]) && t[i].clave == k;
      assert n[i] == k;
    }
    if k in n {
      var i :| 0 <= i < |n| && n[i] == k;
      assert t[i].clave == k;
    }
  }

  /** What a SET of a stored key leaves. */
  lemma ActualizarEs(s: C.Anillo, T: nat, modo: Modo, k: string, v: string)
    requires F.Uno(s, T) && k in Claves(s.a.tabla) && 1 <= |v| <= T
    ensures C.Puede(s, T, modo, k, v)
    ensures var t, q := s.a.tabla, ConsultarTabla(s.a.tabla, k);
            && q != -1
            && C.SetCIRC(s, T, modo, k, v)
               == s.(a := EscribirValor(s.a.(tabla := t[q := t[q].(tamanio := |v|)]), T, q, v))
            && F.Nombres(t[q := t[q].(tamanio := |v|)]) == F.Nombres(t)
  {
    F.ColaTieneClaves(s, T, k);
    F.ConsultaCortaExacta(s, T, k);
    F.UnaPagina(|v|, T);
    F.ActualizarUno(s, T, k, |v|, ConsultarTabla(s.a.tabla, k));
  }

  lemma NuevoGira(n: seq<string>, indice: nat, comienzo: nat, k: string, v: string)
    requires comienzo <= |n| && |n| >= 1 && k !in n[..comienzo]
    requires if comienzo < |n| then indice == comienzo else 1 <= indice <= |n|
    ensures var i := if indice < |n| then indice else 0;
            Rueda(n[i := k][..Min(comienzo + 1, |n|)], i + 1)
            == Girar(Rueda(n[..comienzo], indice), |n|, Poner(k, v))
  {
    var i := if indice < |n| then indice else 0;
    if comienzo < |n| {
      assert n[i := k][..i + 1] == n[..i] + [k];
    } else {
      assert n[i := k][..|n|] == n[..|n|][i := k];
    }
  }

  lemma NuevoPonerGira(s: C.Anillo, T: nat, modo: Modo, k: string, v: string)
    requires F.Uno(s, T) && k != VACIO && 1 <= |v| <= T && k !in Claves(s.a.tabla)
    ensures C.Puede(s, T, modo, k, v)
    ensures RuedaDe(C.SetCIRC(s, T, modo, k, v)) == Girar(RuedaDe(s), |s.a.tabla|, Poner(k, v))
  {
    EnUso(s, T, k);
    F.InsertarEs(s, T, modo, k, v);
    F.ColocarUno(s.a.tabla, T, s.indice, s.comienzo, k, |v|, F.Turno(s));
    NuevoGira(F.Nombres(s.a.tabla), s.indice, s.comienzo, k, v);
  }

  lemma PonerGira(s: C.Anillo, T: nat, modo: Modo, k: string, v: string)
    requires F.Uno(s, T) && k != VACIO && 1 <= |v| <= T
    ensures C.Puede(s, T, modo, k, v)
    ensures var r := C.SetCIRC(s, T, modo, k, v);
            F.Uno(r, T) && RuedaDe(r) == Girar(RuedaDe(s), |s.a.tabla|, Poner(k, v))
  {
    F.SetEsFifo(s, T, modo, k, v);
    if k in Claves(s.a.tabla) {
      EnUso(s, T, k);
      ActualizarEs(s, T, modo, k, v);
    } else {
      NuevoPonerGira(s, T, modo, k, v);
    }
  }

  ghost function Aplicar(s: C.Anillo, T: nat, modo: Modo, o: Mensaje): (r: C.Anillo)
    requires F.Uno(s, T) && Corto(o, T)
    ensures F.Uno(r, T) && |r.a.tabla| == |s.a.tabla|
    ensures RuedaDe(r) == Girar(RuedaDe(s), |s.a.tabla|, o)
  {
    match o
    case Poner(k, v) =>
      PonerGira(s, T, modo, k, v);
      C.SetCIRC(s, T, modo, k, v)
    case PedidoCompactar =>
      F.UnoApretada(s, T);
      F.CompactarFifo(s, T, modo);
      C.Compactado(s, T, modo)
  }

  ghost function Inicio(N: nat, T: nat, basura: seq<char>): (s: C.Anillo)
    requires N >= 1 && T >= 1 && |basura| == N * T
    ensures F.Uno(s, T) && RuedaDe(s) == Rueda([], 0) && |s.a.tabla| == N
  {
    C.Anillo(Almacen(seq(N, _ => LIMPIA), basura), false, 0, 0)
  }

  /** Any run from the empty table: the engine is in Uno, where the short scan is exact, and the
      names alone decide which slot holds which key and where the index stands. */
  ghost function Correr(os: seq<Mensaje>, N: nat, T: nat, modo: Modo, basura: seq<char>): (s: C.Anillo)
    requires N >= 1 && T >= 1 && |basura| == N * T && Cortos(os, T)
    ensures F.Uno(s, T) && |s.a.tabla| == N && RuedaDe(s) == Girada(os, N)
    decreases |os|
  {
    if |os| == 0 then Inicio(N, T, basura)
    else
      assert Corto(os[|os| - 1], T);
      Aplicar(Correr(os[..|os| - 1], N, T, modo, basura), T, modo, os[|os| - 1])
  }

  /** The scan that stops at comienzoDeEntradasLibres misses no key, after any run. */
  lemma ConsultaSiempreExacta(os: seq<Mensaje>, N: nat, T: nat, modo: Modo, basura: seq<char>, k: string)
    requires N >= 1 && T >= 1 && |basura| == N * T && Cortos(os, T) && k != VACIO
    ensures var s := Correr(os, N, T, modo, basura);
            && C.ConsultarCorta(s.a.tabla, s.comienzo, k) == ConsultarTabla(s.a.tabla, k)
            && (k in Claves(s.a.tabla) <==> k in Girada(os, N).nombres)
  {
    var s := Correr(os, N, T, modo, basura);
    F.ConsultaCortaExacta(s, T, k);
    EnUso(s, T, k);
  }

  /** What a bounded queue of N names does with the keys of the SETs. */
  function Encolados(os: seq<Mensaje>, N: nat): seq<string> {
    if |os| == 0 then []
    else
      var c, o := Encolados(os[..|os| - 1], N), os[|os| - 1];
      if o.Poner? then F.Encolar(c, o.clave, N) else c
  }

  /** A compaction asked for here moves the index of a full table that stands elsewhere. */
  ghost predicate Desordena(s: C.Anillo, o: Mensaje) {
    o.PedidoCompactar? && s.comienzo == |s.a.tabla| && s.indice < |s.a.tabla|
  }

  ghost predicate EnOrden(os: seq<Mensaje>, N: nat, T: nat, modo: Modo, basura: seq<char>)
    requires N >= 1 && T >= 1 && |basura| == N * T && Cortos(os, T)
    decreases |os|
  {
    |os| == 0
    || (&& EnOrden(os[..|os| - 1], N, T, modo, basura)
        && !Desordena(Correr(os[..|os| - 1], N, T, modo, basura), os[|os| - 1]))
  }

  /** A run is a first-in first-out queue of its keys as long as no compaction is asked for in the
      middle of a round over a full table. */
  lemma {:induction false} GirosFifo(os: seq<Mensaje>, N: nat, T: nat, modo: Modo, basura: seq<char>)
    requires N >= 1 && T >= 1 && |basura| == N * T && Cortos(os, T) && EnOrden(os, N, T, modo, basura)
    ensures F.Cola(Correr(os, N, T, modo, basura)) == Encolados(os, N)
    decreases |os|
  {
    if |os| > 0 {
      var previas, o := os[..|os| - 1], os[|os| - 1];
      var s := Correr(previas, N, T, modo, basura);
      GirosFifo(previas, N, T, modo, basura);
      assert Corto(o, T);
      match o
      case Poner(k, v) => F.SetEsFifo(s, T, modo, k, v);
      case PedidoCompactar => F.CompactarFifo(s, T, modo);
    }
  }

  lemma Sigue(os: seq<Mensaje>, k: string, N: nat)
    ensures Girada(os + [Poner(k, "x")], N) == Girar(Girada(os, N), N, Poner(k, "x"))
    ensures Encolados(os + [Poner(k, "x")], N) == F.Encolar(Encolados(os, N), k, N)
  {
    assert (os + [Poner(k, "x")])[..|os|] == os;
  }

  /** Two slots: "c" overwrites "a", a compaction is asked for, and "d" then overwrites "c" and not
      "b", which has been there longest. */
  lemma PedidoDesordena()
    ensures var os := [] + [Poner("a", "x")] + [Poner("b", "x")] + [Poner("c", "x")]
                      + [PedidoCompactar] + [Poner("d", "x")];
            && Cortos(os, 1) && Girada(os, 2).nombres == ["d", "b"] && Encolados(os, 2) == ["c", "d"]
  {
    var o1: seq<Mensaje> := [] + [Poner("a", "x")];
    var o2 := o1 + [Poner("b", "x")];
    var o3 := o2 + [Poner("c", "x")];
    var o4 := o3 + [PedidoCompactar];
    Sigue([], "a", 2);
    assert Girada(o1, 2) == Rueda(["a"], 1) && Encolados(o1, 2) == ["a"];
    Sigue(o1, "b", 2);
    assert Girada(o2, 2) == Rueda(["a", "b"], 2) && Encolados(o2, 2) == ["a", "b"];
    Sigue(o2, "c", 2);
    assert Girada(o3, 2) == Rueda(["c", "b"], 1) && Encolados(o3, 2) == ["b", "c"];
    assert o4[..3] == o3;
    assert Girada(o4, 2) == Rueda(["c", "b"], 2) && Encolados(o4, 2) == ["b", "c"];
    Sigue(o4, "d", 2);
  }

  // ---- the values ----

  /** A SET whose terminator changes no live slot. */
  ghost predicate Nitido(s: C.Anillo, T: nat, o: Mensaje)
    requires F.Uno(s, T)
  {
    o.Poner? ==> NulInocuo(s.a, T, F.Asiento(s, o.clave), |o.valor|)
  }

  ghost predicate Nitida(os: seq<Mensaje>, N: nat, T: nat, modo: Modo, basura: seq<char>)
    requires N >= 1 && T >= 1 && |basura| == N * T && Cortos(os, T)
    decreases |os|
  {
    |os| == 0
    || (&& Nitida(os[..|os| - 1], N, T, modo, basura)
        && Corto(os[|os| - 1], T)
        && Nitido(Correr(os[..|os| - 1], N, T, modo, basura), T, os[|os| - 1]))
  }

  lemma PonerAlDia(s: C.Anillo, T: nat, modo: Modo, os: seq<Mensaje>, k: string, v: string)
    requires F.Uno(s, T) && Corto(Poner(k, v), T) && AlDia(Mapa(s.a, T), os)
    ensures AlDia(Mapa(Aplicar(s, T, modo, Poner(k, v)).a, T), os + [Poner(k, v)]) <==> Nitido(s, T, Poner(k, v))
  {
    var r, N := Aplicar(s, T, modo, Poner(k, v)), |s.a.tabla|;
    var V := if k in F.Cola(s) || |F.Cola(s)| < N then {} else {F.Cola(s)[0]};
    F.SetEsFifo(s, T, modo, k, v);
    ClavesTrasPoner(s, T, modo, k, v);
    EsperadoAlDia(Mapa(s.a, T), V, os, k, v);
    AlDiaUnico(Mapa(r.a, T), Esperado(Mapa(s.a, T), V, k, v), os + [Poner(k, v)]);
  }

  lemma CambioDeClaves(c: set<string>, x: string, k: string, V: set<string>)
    requires k !in c && x != k && (V == {x} || (V == {} && x !in c))
    ensures c + {k} - {x} == c - V - {k} + {k}
  {}

  lemma ClavesTrasNuevo(s: C.Anillo, T: nat, modo: Modo, k: string, v: string)
    requires F.Uno(s, T) && Corto(Poner(k, v), T) && k !in Claves(s.a.tabla)
    ensures C.Puede(s, T, modo, k, v)
    ensures var V := if |F.Cola(s)| < |s.a.tabla| then {} else {F.Cola(s)[0]};
            Claves(C.SetCIRC(s, T, modo, k, v).a.tabla) == Claves(s.a.tabla) - V - {k} + {k}
  {
    var i := F.Turno(s);
    F.InsertarEs(s, T, modo, k, v);
    F.Sobrante(s, T, k);
    CambiaUna(s.a.tabla, i, k, |v|);
    assert s.a.tabla[i].clave != k;
    CambioDeClaves(Claves(s.a.tabla), s.a.tabla[i].clave, k,
                   if |F.Cola(s)| < |s.a.tabla| then {} else {F.Cola(s)[0]});
  }

  lemma ClavesTrasPoner(s: C.Anillo, T: nat, modo: Modo, k: string, v: string)
    requires F.Uno(s, T) && Corto(Poner(k, v), T)
    ensures var V := if k in F.Cola(s) || |F.Cola(s)| < |s.a.tabla| then {} else {F.Cola(s)[0]};
            Claves(Aplicar(s, T, modo, Poner(k, v)).a.tabla) == Claves(s.a.tabla) - V - {k} + {k}
  {
    F.ColaTieneClaves(s, T, k);
    if k in Claves(s.a.tabla) {
      ActualizarEs(s, T, modo, k, v);
      NombresClaves(s.a.tabla, C.SetCIRC(s, T, modo, k, v).a.tabla);
    } else {
      ClavesTrasNuevo(s, T, modo, k, v);
    }
  }

  lemma GiroAlDia(s: C.Anillo, T: nat, modo: Modo, os: seq<Mensaje>, o: Mensaje)
    requires F.Uno(s, T) && Corto(o, T) && AlDia(Mapa(s.a, T), os)
    ensures AlDia(Mapa(Aplicar(s, T, modo, o).a, T), os + [o]) <==> Nitido(s, T, o)
  {
    match o
    case Poner(k, v) => PonerAlDia(s, T, modo, os, k, v);
    case PedidoCompactar => F.CompactarFifo(s, T, modo); PedidoAlDia(Mapa(s.a, T), os);
  }

  lemma UltimoNitido(os: seq<Mensaje>, N: nat, T: nat, modo: Modo, basura: seq<char>)
    requires |os| > 0 && N >= 1 && T >= 1 && |basura| == N * T && Cortos(os, T) && Nitida(os, N, T, modo, basura)
    ensures var previas := os[..|os| - 1];
            Nitida(previas, N, T, modo, basura) && Nitido(Correr(previas, N, T, modo, basura), T, os[|os| - 1])
  {}

  lemma CorrerUno(os: seq<Mensaje>, o: Mensaje, N: nat, T: nat, modo: Modo, basura: seq<char>)
    requires N >= 1 && T >= 1 && |basura| == N * T && Cortos(os, T) && Corto(o, T)
    ensures Cortos(os + [o], T)
    ensures Correr(os + [o], N, T, modo, basura) == Aplicar(Correr(os, N, T, modo, basura), T, modo, o)
  {
    assert (os + [o])[..|os|] == os;
  }

  lemma GiroMas(os: seq<Mensaje>, previas: seq<Mensaje>, o: Mensaje, N: nat, T: nat, modo: Modo, basura: seq<char>)
    requires N >= 1 && T >= 1 && |basura| == N * T && Cortos(os, T) && Cortos(previas, T) && Corto(o, T)
    requires os == previas + [o] && Nitido(Correr(previas, N, T, modo, basura), T, o)
    requires AlDia(Mapa(Correr(previas, N, T, modo, basura).a, T), previas)
    ensures AlDia(Mapa(Correr(os, N, T, modo, basura).a, T), os)
  {
    CorrerUno(previas, o, N, T, modo, basura);
    GiroAlDia(Correr(previas, N, T, modo, basura), T, modo, previas, o);
  }

  /** After any run in which no terminator changes a live slot, every stored key reads the last
      value SET under it. */
  lemma {:induction false} GirosAlDia(os: seq<Mensaje>, N: nat, T: nat, modo: Modo, basura: seq<char>)
    requires N >= 1 && T >= 1 && |basura| == N * T && Cortos(os, T) && Nitida(os, N, T, modo, basura)
    ensures AlDia(Mapa(Correr(os, N, T, modo, basura).a, T), os)
    decreases |os|
  {
    if |os| > 0 {
      UltimoNitido(os, N, T, modo, basura);
      GirosAlDia(os[..|os| - 1], N, T, modo, basura);
      GiroMas(os, os[..|os| - 1], os[|os| - 1], N, T, modo, basura);
    }
  }

  // ---- the files ----

  /** The keys that name slots p..p+n-1, free slots apart. */
  ghost function Nombradas(t: seq<Entrada>, p: nat, n: nat): set<string>
    requires p + n <= |t|
  {
    set i | p <= i < p + n :: t[i].clave
  }

  /** The keys whose file a SET under CIRC gives up. */
  ghost function Reemplazadas(s: C.Anillo, T: nat, modo: Modo, k: string, v: string): set<string>
    requires Bien(s.a, T) && C.Puede(s, T, modo, k, v)
  {
    var p := Paginas(|v|, T);
    if C.ConsultarCorta(s.a.tabla, s.comienzo, k) != -1 then {}
    else
      var u := C.Ubicar(s, T, modo, p);
      Nombradas(u.a.tabla, u.indice, p)
  }

  /** A SET of a one-slot value gives up the file of the key it overwrites, and of no other. */
  lemma ArchivosCIRC(s: C.Anillo, T: nat, modo: Modo, k: string, v: string)
    requires F.Uno(s, T) && k != VACIO && 1 <= |v| <= T
    ensures C.Puede(s, T, modo, k, v)
    ensures Claves(C.SetCIRC(s, T, modo, k, v).a.tabla)
         == Claves(s.a.tabla) + {k} - Reemplazadas(s, T, modo, k, v)
  {
    var t := s.a.tabla;
    F.ConsultaCortaExacta(s, T, k);
    F.ColaTieneClaves(s, T, k);
    if k in Claves(t) {
      ActualizarEs(s, T, modo, k, v);
      NombresClaves(t, C.SetCIRC(s, T, modo, k, v).a.tabla);
      assert Reemplazadas(s, T, modo, k, v) == {};
    } else {
      F.InsertarEs(s, T, modo, k, v);
      InsertarArchivos(s, T, modo, k, v);
    }
  }

  /** Under CIRC no key of the table is left without its file by a one-slot SET. */
  lemma ArchivosQuedan(s: C.Anillo, c: Copias, T: nat, modo: Modo, k: string, v: string)
    requires Bien(s.a, T) && C.Puede(s, T, modo, k, v) && k != VACIO
    ensures F.Uno(s, T) && 1 <= |v| <= T && Claves(s.a.tabla) <= c.Keys ==>
              Claves(C.SetCIRC(s, T, modo, k, v).a.tabla)
              <= (Abrir(c, k, |v|, T) - Reemplazadas(s, T, modo, k, v)).Keys
  {
    if F.Uno(s, T) && 1 <= |v| <= T { ArchivosCIRC(s, T, modo, k, v); }
  }

  lemma NombresClaves(t: seq<Entrada>, r: seq<Entrada>)
    requires F.Nombres(t) == F.Nombres(r)
    ensures Claves(t) == Claves(r)
  {
    forall i | 0 <= i < |t| ensures |r| == |t| && t[i].clave == r[i].clave {
      assert F.Nombres(t)[i] == F.Nombres(r)[i];
    }
    assert |F.Nombres(t)| == |t| && |F.Nombres(r)| == |r|;
    NombresIguales(t, r);
  }

  lemma InsertarArchivos(s: C.Anillo, T: nat, modo: Modo, k: string, v: string)
    requires F.Uno(s, T) && k != VACIO && 1 <= |v| <= T && k !in Claves(s.a.tabla)
    requires C.Puede(s, T, modo, k, v) && C.ConsultarCorta(s.a.tabla, s.comienzo, k) == -1
    ensures Claves(C.SetCIRC(s, T, modo, k, v).a.tabla)
         == Claves(s.a.tabla) + {k} - Reemplazadas(s, T, modo, k, v)
  {
    var t, i := s.a.tabla, F.Turno(s);
    F.UnaPagina(|v|, T);
    F.UbicarUno(s, T, modo);
    F.InsertarEs(s, T, modo, k, v);
    var u := t[i := Entrada(k, |v|, 0)];
    assert C.SetCIRC(s, T, modo, k, v).a.tabla == u;
    assert Reemplazadas(s, T, modo, k, v) == {t[i].clave};
    CambiaUna(t, i, k, |v|);
  }

  /** One slot renamed, when no other slot has its name. */
  lemma CambiaUna(t: seq<Entrada>, i: nat, k: string, n: nat)
    requires i < |t| && k != VACIO && k !in Claves(t) && F.Distintas(t)
    ensures Claves(t[i := Entrada(k, n, 0)]) == Claves(t) + {k} - {t[i].clave}
  {
    var u := t[i := Entrada(k, n, 0)];
    assert u[i].clave == k;
    assert t[i].clave != k;
    forall x | x in Claves(u) ensures x in Claves(t) + {k} - {t[i].clave} {
      var j :| 0 <= j < |u| && Viva(u[j]) && u[j].clave == x;
      assert j != i ==> t[j].clave == x;
      assert j < i ==> t[j].clave != t[i].clave;
      assert i < j && Viva(t[i]) ==> t[j].clave != t[i].clave;
    }
    forall x | x in Claves(t) + {k} - {t[i].clave} ensures x in Claves(u) {
      if x != k {
        var j :| 0 <= j < |t| && Viva(t[j]) && t[j].clave == x;
        assert u[j].clave == x;
      }
    }
  }

  /** The ring and its files. */
  datatype Anaquel = Anaquel(s: C.Anillo, c: Copias)

  /** Exactly the keys of the table have a file, and it has T + 2 bytes. */
  ghost predicate Surtido(d: Anaquel, T: nat) {
    && F.Uno(d.s, T)
    && d.c.Keys == Claves(d.s.a.tabla)
    && forall k | k in d.c :: |d.c[k]| == T + 2
  }

  predicate Breve(x: Suceso, T: nat) {
    match x
    case Envio(o) => Corto(o, T)
    case Guarda(k) => k != VACIO
    case Vuelca => true
  }

  ghost predicate Breves(xs: seq<Suceso>, T: nat) { forall i | 0 <= i < |xs| :: Breve(xs[i], T) }

  ghost function Suceder(d: Anaquel, T: nat, modo: Modo, x: Suceso): (r: Anaquel)
    requires Surtido(d, T) && Breve(x, T)
    ensures Surtido(r, T) && |r.s.a.tabla| == |d.s.a.tabla|
    ensures r.s == if x.Envio? then Aplicar(d.s, T, modo, x.o) else d.s
  {
    match x
    case Envio(Poner(k, v)) =>
      PonerSurtido(d, T, modo, k, v);
      Anaquel(Aplicar(d.s, T, modo, x.o), Abrir(d.c, k, |v|, T) - Reemplazadas(d.s, T, modo, k, v))
    case Envio(PedidoCompactar) =>
      F.CompactarFifo(d.s, T, modo);
      d.(s := Aplicar(d.s, T, modo, x.o))
    case Vuelca =>
      F.UnoDisposicion(d.s, T);
      DisposicionSinCeros(d.s.a.tabla, T);
      d.(c := Volcar(d.c, d.s.a, T, 0))
    case Guarda(k) =>
      TieneArchivo(d.s.a.tabla, k);
      d.(c := Guardar(d.c, d.s.a, T, k))
  }

  /** After any run a dump ends and finds every file; there is no file of a key that is not
      stored, and each has T + 2 bytes. */
  ghost function Sucedidos(xs: seq<Suceso>, N: nat, T: nat, modo: Modo, basura: seq<char>): (d: Anaquel)
    requires N >= 1 && T >= 1 && |basura| == N * T && Breves(xs, T)
    ensures Surtido(d, T) && |d.s.a.tabla| == N
    decreases |xs|
  {
    if |xs| == 0 then Anaquel(Inicio(N, T, basura), map[])
    else
      assert Breve(xs[|xs| - 1], T);
      Suceder(Sucedidos(xs[..|xs| - 1], N, T, modo, basura), T, modo, xs[|xs| - 1])
  }

  lemma {:induction false} EnviosCortos(xs: seq<Suceso>, T: nat)
    requires Breves(xs, T)
    ensures Cortos(Envios(xs), T)
    decreases |xs|
  {
    if |xs| > 0 {
      EnviosCortos(xs[..|xs| - 1], T);
      assert Breve(xs[|xs| - 1], T);
    }
  }

  /** Dumps and STOREs leave the engine alone. */
  lemma {:induction false} MismoAnillo(xs: seq<Suceso>, N: nat, T: nat, modo: Modo, basura: seq<char>)
    requires N >= 1 && T >= 1 && |basura| == N * T && Breves(xs, T)
    ensures Cortos(Envios(xs), T)
    ensures Sucedidos(xs, N, T, modo, basura).s == Correr(Envios(xs), N, T, modo, basura)
    decreases |xs|
  {
    EnviosCortos(xs, T);
    if |xs| > 0 {
      var previos, x := xs[..|xs| - 1], xs[|xs| - 1];
      MismoAnillo(previos, N, T, modo, basura);
      if x.Envio? {
        var os := Envios(xs);
        assert os == Envios(previos) + [x.o];
        assert os[..|os| - 1] == Envios(previos);
      } else {
        assert Envios(xs) == Envios(previos);
      }
    }
  }

  lemma TieneArchivo(t: seq<Entrada>, k: string)
    ensures k != VACIO && ConsultarTabla(t, k) != -1 ==> k in Claves(t)
  {
    var q := ConsultarTabla(t, k);
    assert q != -1 ==> t[q].clave == k;
  }

  lemma PonerSurtido(d: Anaquel, T: nat, modo: Modo, k: string, v: string)
    requires Surtido(d, T) && Corto(Poner(k, v), T)
    ensures C.Puede(d.s, T, modo, k, v)
    ensures Surtido(Anaquel(Aplicar(d.s, T, modo, Poner(k, v)),
                            Abrir(d.c, k, |v|, T) - Reemplazadas(d.s, T, modo, k, v)), T)
  {
    ArchivosCIRC(d.s, T, modo, k, v);
    F.UnaPagina(|v|, T);
  }

  lemma LargoLeido(a: Almacen, T: nat, k: string)
    requires Bien(a, T) && ConsultarTabla(a.tabla, k) != -1
    ensures GetValue(a, T, k).Some?
    ensures |GetValue(a, T, k).value| <= a.tabla[ConsultarTabla(a.tabla, k)].tamanio
  {
    Orden(ConsultarTabla(a.tabla, k), |a.tabla|, T);
  }

  lemma LargoDelValor(s: C.Anillo, T: nat, k: string)
    requires F.Uno(s, T) && k in Claves(s.a.tabla)
    ensures GetValue(s.a, T, k).Some? && |GetValue(s.a, T, k).value| <= T
  {
    F.ColaTieneClaves(s, T, k);
    LargoLeido(s.a, T, k);
  }

  lemma CopiaEntera(d: Anaquel, T: nat, modo: Modo, k: string, x: Suceso)
    requires Surtido(d, T) && k in Claves(d.s.a.tabla) && (x == Vuelca || x == Guarda(k))
    ensures Breve(x, T)
    ensures var r, v := Suceder(d, T, modo, x).c, GetValue(d.s.a, T, k);
            k in r && v.Some? && v.value <= r[k]
  {
    F.UnoDisposicion(d.s, T);
    LargoDelValor(d.s, T, k);
    if x.Vuelca? {
      VolcadoFiel(d.c, d.s.a, T, k);
      assert Suceder(d, T, modo, x).c == Volcar(d.c, d.s.a, T, 0);
    } else {
      GuardadoFiel(d.c, d.s.a, T, k);
      assert Suceder(d, T, modo, x).c == Guardar(d.c, d.s.a, T, k);
    }
  }

  /** After any run a dump leaves the file of every stored key beginning with its value, and a STORE
      that of its key; and where no terminator of the run changed a live slot, that is the last
      value SET under the key. */
  lemma CopiadoEntero(xs: seq<Suceso>, N: nat, T: nat, modo: Modo, basura: seq<char>, k: string, x: Suceso)
    requires N >= 1 && T >= 1 && |basura| == N * T && Breves(xs, T) && (x == Vuelca || x == Guarda(k))
    requires k in Claves(Sucedidos(xs, N, T, modo, basura).s.a.tabla)
    ensures Breve(x, T)
    ensures var d := Sucedidos(xs, N, T, modo, basura);
            var r, v := Suceder(d, T, modo, x).c, GetValue(d.s.a, T, k);
            && k in r && v.Some? && v.value <= r[k]
            && Cortos(Envios(xs), T)
            && (Nitida(Envios(xs), N, T, modo, basura) ==> Ultimo(Envios(xs), k) == v)
  {
    var d := Sucedidos(xs, N, T, modo, basura);
    CopiaEntera(d, T, modo, k, x);
    MismoAnillo(xs, N, T, modo, basura);
    if Nitida(Envios(xs), N, T, modo, basura) {
      GirosAlDia(Envios(xs), N, T, modo, basura);
      assert k in Mapa(d.s.a, T);
    }
  }
}
