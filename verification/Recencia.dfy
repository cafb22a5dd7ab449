/** Every run of SETs and compactions from the empty table, under LRU. */
module Recencia {
  import opened Opciones
  import opened Tabla
  import opened Arena
  import opened Compactacion
  import opened LRU
  import opened LRUSet
  import opened LRURefina

  datatype Mensaje = Poner(clave: string, valor: string) | PedidoCompactar

  ghost function Inicial(N: nat, T: nat, basura: seq<char>): Motor {
    Motor(Almacen(seq(N, _ => LIMPIA), basura), false)
  }

  /** The SETs of a run that return, and that do not grow a key in place. */
  ghost predicate Admite(m: Motor, T: nat, o: Mensaje)
    requires Bien(m.a, T)
  {
    o.Poner? ==> o.clave != VACIO && Puede(m, T, o.clave, |o.valor|) && !Crece(m.a.tabla, T, o.clave, |o.valor|)
  }

  ghost function Aplicar(m: Motor, T: nat, modo: Modo, o: Mensaje): (r: Motor)
    requires Bien(m.a, T) && Admite(m, T, o)
    ensures Bien(r.a, T) && |r.a.tabla| == |m.a.tabla|
  {
    match o
    case Poner(k, v) => SetLRU(m, T, modo, k, v)
    case PedidoCompactar => m.(a := Compactar(m.a, T, modo))
  }

  /** A SET whose terminator changes no live slot. */
  ghost predicate Limpio(m: Motor, T: nat, modo: Modo, o: Mensaje)
    requires Bien(m.a, T) && Admite(m, T, o)
  {
    o.Poner? ==> Inocua(m, T, modo, o.clave, |o.valor|)
  }

  /** `m` is reached from the empty engine by the messages `os`; if `limpia`, all of them Limpio. */
  ghost predicate Alcanza(os: seq<Mensaje>, m: Motor, N: nat, T: nat, modo: Modo, limpia: bool) {
    if |os| == 0 then exists basura :: |basura| == N * T && m == Inicial(N, T, basura) && T > 0
    else exists p: Motor ::
      && Alcanza(os[..|os| - 1], p, N, T, modo, limpia)
      && Bien(p.a, T) && Admite(p, T, os[|os| - 1])
      && (limpia ==> Limpio(p, T, modo, os[|os| - 1]))
      && m == Aplicar(p, T, modo, os[|os| - 1])
  }

  lemma AlcanzaPaso(os: seq<Mensaje>, p: Motor, N: nat, T: nat, modo: Modo, limpia: bool, o: Mensaje)
    requires Alcanza(os, p, N, T, modo, limpia) && Bien(p.a, T) && Admite(p, T, o)
    requires limpia ==> Limpio(p, T, modo, o)
    ensures Alcanza(os + [o], Aplicar(p, T, modo, o), N, T, modo, limpia)
  {
    var ys := os + [o];
    assert ys[..|ys| - 1] == os && ys[|ys| - 1] == o;
  }

  /** SETs since the last SET of `k`, or -1 if there was none. */
  function Edad(os: seq<Mensaje>, k: string): (r: int)
    ensures -1 <= r < |os|
  {
    if |os| == 0 then -1
    else
      var o, r := os[|os| - 1], Edad(os[..|os| - 1], k);
      if o.Poner? && o.clave == k then 0
      else if r >= 0 && o.Poner? then r + 1
      else r
  }

  lemma {:induction false} EdadInyectiva(os: seq<Mensaje>, k: string, k': string)
    requires Edad(os, k) == Edad(os, k') >= 0
    ensures k == k'
  {
    if |os| > 0 {
      var o, previas := os[|os| - 1], os[..|os| - 1];
      if !(o.Poner? && (o.clave == k || o.clave == k')) { EdadInyectiva(previas, k, k'); }
    }
  }

  /** Every single-slot entry is as old as its key's last SET. */
  ghost predicate Recientes(t: seq<Entrada>, T: nat, os: seq<Mensaje>) {
    forall e | e in t && Viva(e) && e.tamanio <= T :: Edad(os, e.clave) >= 0 && e.age == Edad(os, e.clave)
  }

  /** Live entries of `r` that are not of `k` are entries of `t`. */
  ghost predicate Proceden(r: seq<Entrada>, t: seq<Entrada>) {
    forall e | e in r && Viva(e) :: e in t
  }

  lemma {:induction false} HacerLugarProcede(m: Motor, T: nat, modo: Modo, p: nat, vieja: int)
    requires Bien(m.a, T) && Cabe(m.a.tabla, p, vieja)
    ensures Proceden(HacerLugar(m, T, modo, p, vieja).a.tabla, m.a.tabla)
    decreases Intentos(m, p)
  {
    if BuscarEspacioLibre(m.a.tabla, p) == -1 {
      ReintentoAvanza(m, T, modo, p, vieja);
      var r := Reintento(m, T, modo, vieja);
      HacerLugarProcede(r, T, modo, p, vieja);
      if m.flag {
        DesalojarProcede(m.a.tabla, vieja);
      } else {
        CompactarProcede(m.a, T, modo);
      }
    }
  }

  lemma ProcedenClaves(r: seq<Entrada>, t: seq<Entrada>)
    requires Proceden(r, t)
    ensures Claves(r) <= Claves(t)
  {
    forall k | k in Claves(r) ensures k in Claves(t) {
      var i :| 0 <= i < |r| && Viva(r[i]) && r[i].clave == k;
      assert r[i] in t;
    }
  }

  lemma DesalojarProcede(t: seq<Entrada>, vieja: int)
    ensures Proceden(Desalojar(t, vieja), t)
  {
    var r := Desalojar(t, vieja);
    forall e | e in r && Viva(e) ensures e in t {
      var i :| 0 <= i < |r| && r[i] == e;
      assert t[i] == e;
    }
  }

  lemma CompactarProcede(a: Almacen, T: nat, modo: Modo)
    requires Bien(a, T)
    ensures Proceden(Compactar(a, T, modo).tabla, a.tabla)
  {
    var r := Compactar(a, T, modo).tabla;
    CompactarTabla(a, T, modo);
    forall e | e in r && Viva(e) ensures e in a.tabla {
      VivasMiembros(r, e);
      VivasMiembros(a.tabla, e);
    }
  }

  lemma ActualizadaEntradas(t: seq<Entrada>, T: nat, k: string, n: nat, e: Entrada)
    requires T > 0 && k != VACIO && Corrida(t, T, k) && !Crece(t, T, k, n)
    requires e in Actualizada(t, ConsultarTabla(t, k), Paginas(n, T), k, n) && Viva(e) && e.tamanio <= T
    ensures if e.clave == k then e.age == 0 else e in t
  {
    var q, p := ConsultarTabla(t, k), Paginas(n, T);
    var r := Actualizada(t, q, p, k, n);
    ActualizadaTramo(t, T, k, n);
    var i :| 0 <= i < |r| && r[i] == e;
  }

  lemma ColocadaEntradas(t: seq<Entrada>, pos: nat, p: nat, k: string, n: nat, e: Entrada)
    requires e in Colocada(t, pos, p, Entrada(k, n, 0)) && k !in Claves(t) && Viva(e)
    ensures if e.clave == k then e.age == 0 else e in t
  {
    var r := Colocada(t, pos, p, Entrada(k, n, 0));
    var i :| 0 <= i < |r| && r[i] == e;
    assert Viva(t[i]) ==> t[i].clave in Claves(t);
  }

  /** Entries after a SET: of the key, with age 0 where they fit one slot; or aged ones. */
  lemma SetEntradas(m: Motor, T: nat, modo: Modo, k: string, v: string, e: Entrada)
    requires Bien(m.a, T) && Disposicion(m.a.tabla, T) && k != VACIO
    requires Puede(m, T, k, |v|) && !Crece(m.a.tabla, T, k, |v|)
    requires e in SetLRU(m, T, modo, k, v).a.tabla && Viva(e) && e.tamanio <= T
    ensures if e.clave == k then e.age == 0 else e in Envejecer(m.a.tabla, T)
  {
    var t, p := Envejecer(m.a.tabla, T), Paginas(|v|, T);
    EnvejecerConserva(m.a, T);
    CorridaEnmarcada(m.a.tabla, t, T, k);
    if ConsultarTabla(t, k) != -1 {
      assert t[ConsultarTabla(t, k)].clave in Claves(t);
      ActualizadaEntradas(t, T, k, |v|, e);
    } else {
      HacerLugarProcede(Envejecido(m, T), T, modo, p, MasVieja(t));
      var h := HacerLugar(Envejecido(m, T), T, modo, p, MasVieja(t)).a.tabla;
      ProcedenClaves(h, t);
      ColocadaEntradas(h, BuscarEspacioLibre(h, p), p, k, |v|, e);
    }
  }

  /** Ageing brings each entry up to date with a SET of another key. */
  lemma EnvejecidaReciente(t: seq<Entrada>, T: nat, os: seq<Mensaje>, k: string, v: string, e: Entrada)
    requires Recientes(t, T, os) && e in Envejecer(t, T) && Viva(e) && e.tamanio <= T && e.clave != k
    ensures Edad(os + [Poner(k, v)], e.clave) >= 0 && e.age == Edad(os + [Poner(k, v)], e.clave)
  {
    var os', r := os + [Poner(k, v)], Envejecer(t, T);
    assert os'[..|os'| - 1] == os;
    var i :| 0 <= i < |r| && r[i] == e;
    assert t[i] in t;
  }

  lemma EdadPropia(os: seq<Mensaje>, k: string, v: string)
    ensures Edad(os + [Poner(k, v)], k) == 0
  {}

  lemma SetReciente(m: Motor, T: nat, modo: Modo, os: seq<Mensaje>, k: string, v: string)
    requires Bien(m.a, T) && Disposicion(m.a.tabla, T) && k != VACIO
    requires Puede(m, T, k, |v|) && !Crece(m.a.tabla, T, k, |v|)
    requires Recientes(m.a.tabla, T, os)
    ensures Recientes(SetLRU(m, T, modo, k, v).a.tabla, T, os + [Poner(k, v)])
  {
    var r, os' := SetLRU(m, T, modo, k, v).a.tabla, os + [Poner(k, v)];
    EdadPropia(os, k, v);
    forall e | e in r && Viva(e) && e.tamanio <= T
      ensures Edad(os', e.clave) >= 0 && e.age == Edad(os', e.clave)
    {
      SetEntradas(m, T, modo, k, v, e);
      if e.clave != k { EnvejecidaReciente(m.a.tabla, T, os, k, v, e); }
    }
  }

  lemma PasoConserva(p: Motor, T: nat, modo: Modo, os: seq<Mensaje>, o: Mensaje)
    requires Bien(p.a, T) && Disposicion(p.a.tabla, T) && Recientes(p.a.tabla, T, os) && Admite(p, T, o)
    ensures var t := Aplicar(p, T, modo, o).a.tabla;
            Disposicion(t, T) && Recientes(t, T, os + [o])
  {
    match o
    case Poner(k, v) =>
      SetDisposicion(p, T, modo, k, v);
      SetReciente(p, T, modo, os, k, v);
    case PedidoCompactar =>
      assert (os + [o])[..|os + [o]| - 1] == os;
      CompactarDisposicion(p.a, T, modo);
      CompactarProcede(p.a, T, modo);
  }

  /** What every run keeps: the layout, and exact ages. */
  lemma {:induction false} CorridaConserva(os: seq<Mensaje>, m: Motor, N: nat, T: nat, modo: Modo, limpia: bool)
    requires Alcanza(os, m, N, T, modo, limpia)
    ensures Bien(m.a, T) && |m.a.tabla| == N
    ensures Disposicion(m.a.tabla, T) && Recientes(m.a.tabla, T, os)
    decreases |os|
  {
    if |os| > 0 {
      var previas, o := os[..|os| - 1], os[|os| - 1];
      var p: Motor :| Alcanza(previas, p, N, T, modo, limpia) && Bien(p.a, T) && Admite(p, T, o)
                     && (limpia ==> Limpio(p, T, modo, o)) && m == Aplicar(p, T, modo, o);
      CorridaConserva(previas, p, N, T, modo, limpia);
      assert os == previas + [o];
      PasoConserva(p, T, modo, previas, o);
    }
  }

  /** LRU: a SET evicts at most one key; it holds a single-slot value, and every other key
      that does was SET after it. */
  lemma VictimaMenosReciente(os: seq<Mensaje>, m: Motor, N: nat, T: nat, modo: Modo, limpia: bool, k: string, n: nat)
    requires Alcanza(os, m, N, T, modo, limpia)
    ensures Bien(m.a, T)
    ensures |Desalojadas(m, T, k, n)| <= 1
    ensures forall x | x in Desalojadas(m, T, k, n) ::
              && x in Claves(m.a.tabla)
              && m.a.tabla[ConsultarTabla(m.a.tabla, x)].tamanio <= T
              && forall e | e in m.a.tabla && Viva(e) && e.tamanio <= T && e.clave != x ::
                   Edad(os, e.clave) < Edad(os, x)
  {
    CorridaConserva(os, m, N, T, modo, limpia);
    var V := Desalojadas(m, T, k, n);
    forall x | x in V
      ensures x in Claves(m.a.tabla)
      ensures m.a.tabla[ConsultarTabla(m.a.tabla, x)].tamanio <= T
      ensures forall e | e in m.a.tabla && Viva(e) && e.tamanio <= T && e.clave != x ::
                Edad(os, e.clave) < Edad(os, x)
    {
      VictimaMasVieja(os, m, T, k, n, x);
    }
    forall x, y | x in V && y in V
      ensures x == y
    {
      var ex := m.a.tabla[ConsultarTabla(m.a.tabla, x)];
      var ey := m.a.tabla[ConsultarTabla(m.a.tabla, y)];
      assert ex in m.a.tabla && ey in m.a.tabla;
    }
    ALoSumoUno(V);
  }

  lemma ALoSumoUno(s: set<string>)
    requires forall x, y | x in s && y in s :: x == y
    ensures |s| <= 1
  {
    if s != {} {
      var x :| x in s;
      assert s == {x};
    }
  }

  /** A victim's only slot, and its age once aged. */
  lemma VictimaDeUnSlot(m: Motor, T: nat, k: string, n: nat, x: string) returns (i: nat)
    requires Bien(m.a, T) && Disposicion(m.a.tabla, T) && x in Desalojadas(m, T, k, n)
    ensures i < |m.a.tabla| && m.a.tabla[i].clave == x != VACIO && m.a.tabla[i].tamanio <= T
    ensures Envejecer(m.a.tabla, T)[i].age == MasVieja(Envejecer(m.a.tabla, T))
    ensures ConsultarTabla(m.a.tabla, x) == i
  {
    var s, t := m.a.tabla, Envejecer(m.a.tabla, T);
    i :| 0 <= i < |t| && Viva(t[i]) && t[i].age == MasVieja(t) && t[i].clave == x;
    EnvejecerConserva(m.a, T);
    EnvejecerMulti(s, T);
    CorridaEnmarcada(s, t, T, x);
    ViejaDeUnSlot(t, T, MasVieja(t), i, ConsultarTabla(t, x));
  }

  lemma VictimaMasVieja(os: seq<Mensaje>, m: Motor, T: nat, k: string, n: nat, x: string)
    requires Bien(m.a, T) && Disposicion(m.a.tabla, T) && Recientes(m.a.tabla, T, os)
    requires x in Desalojadas(m, T, k, n)
    ensures x in Claves(m.a.tabla)
    ensures m.a.tabla[ConsultarTabla(m.a.tabla, x)].tamanio <= T
    ensures forall e | e in m.a.tabla && Viva(e) && e.tamanio <= T && e.clave != x ::
              Edad(os, e.clave) < Edad(os, x)
  {
    var s, t := m.a.tabla, Envejecer(m.a.tabla, T);
    var i := VictimaDeUnSlot(m, T, k, n, x);
    assert s[i] in s;
    forall e | e in s && Viva(e) && e.tamanio <= T && e.clave != x
      ensures Edad(os, e.clave) < Edad(os, x)
    {
      var j :| 0 <= j < |s| && s[j] == e;
      assert t[j].age <= MasVieja(t);
      if Edad(os, e.clave) == Edad(os, x) { EdadInyectiva(os, e.clave, x); }
    }
  }

  // ---- what an eviction finds ----

  /** A free slot is never the oldest: laMasVieja, when above 0, is the age of a live slot. */
  ghost predicate LibresSinEdad(t: seq<Entrada>) { forall e | e in t && !Viva(e) :: e.age <= 0 }

  lemma LibresEnvejecen(t: seq<Entrada>, T: nat)
    requires LibresSinEdad(t)
    ensures LibresSinEdad(Envejecer(t, T))
  {
    var r := Envejecer(t, T);
    forall e | e in r && !Viva(e) ensures e.age <= 0 {
      var i :| 0 <= i < |r| && r[i] == e;
      assert t[i] in t;
    }
  }

  lemma LibresDesalojadas(t: seq<Entrada>, vieja: int)
    requires LibresSinEdad(t)
    ensures LibresSinEdad(Desalojar(t, vieja))
  {
    var r := Desalojar(t, vieja);
    forall e | e in r && !Viva(e) ensures e.age <= 0 {
      var i :| 0 <= i < |r| && r[i] == e;
      assert t[i] in t;
    }
  }

  /** Every free entry of `r` is one of `t`, or one that a compaction cleans. */
  ghost predicate LibresDe(t: seq<Entrada>, r: seq<Entrada>) {
    forall e | e in r && !Viva(e) :: e in t || e == LIMPIA
  }

  lemma {:induction false} BloqueLibres(a: Almacen, T: nat, modo: Modo, x: nat, k: nat, c: nat)
    requires Bien(a, T)
    ensures LibresDe(a.tabla, MoverBloque(a, T, modo, x, k, c).tabla)
    decreases k - x
  {
    if x < k {
      var b := if x + c < |a.tabla| then MoverSlot(a, T, modo, x, c) else a;
      BloqueLibres(b, T, modo, x + 1, k, c);
      assert LibresDe(a.tabla, b.tabla);
    }
  }

  lemma {:induction false} CompactarLibres(a: Almacen, T: nat, modo: Modo, i: nat)
    requires Bien(a, T)
    ensures LibresDe(a.tabla, CompactarDesde(a, T, modo, i).tabla)
    decreases |a.tabla| - i
  {
    if i < |a.tabla| {
      if Viva(a.tabla[i]) {
        CompactarLibres(a, T, modo, i + 1);
      } else {
        var c := LargoVacio(a.tabla, i);
        Desenrolla(a, T, modo, i);
        BloqueLibres(a, T, modo, i, i + c, c);
        CompactarLibres(MoverBloque(a, T, modo, i, i + c, c), T, modo, i + 1);
      }
    }
  }

  lemma {:induction false} HacerLugarLibres(m: Motor, T: nat, modo: Modo, p: nat, vieja: int)
    requires Bien(m.a, T) && Cabe(m.a.tabla, p, vieja) && LibresSinEdad(m.a.tabla)
    ensures LibresSinEdad(HacerLugar(m, T, modo, p, vieja).a.tabla)
    decreases Intentos(m, p)
  {
    if BuscarEspacioLibre(m.a.tabla, p) == -1 {
      ReintentoAvanza(m, T, modo, p, vieja);
      LibresDesalojadas(m.a.tabla, vieja);
      CompactarLibres(m.a, T, modo, 0);
      HacerLugarLibres(Reintento(m, T, modo, vieja), T, modo, p, vieja);
    }
  }

  lemma ActualizadaLibres(t: seq<Entrada>, pos: nat, p: nat, k: string, n: nat)
    requires pos < |t| && LibresSinEdad(t)
    ensures LibresSinEdad(Actualizada(t, pos, p, k, n))
  {
    var r := Actualizada(t, pos, p, k, n);
    forall e | e in r && !Viva(e) ensures e.age <= 0 {
      var i :| 0 <= i < |r| && r[i] == e;
      assert t[i] in t;
    }
  }

  lemma ColocadaLibres(t: seq<Entrada>, pos: nat, p: nat, k: string, n: nat)
    requires k != VACIO && LibresSinEdad(t)
    ensures LibresSinEdad(Colocada(t, pos, p, Entrada(k, n, 0)))
  {
    var r := Colocada(t, pos, p, Entrada(k, n, 0));
    forall e | e in r && !Viva(e) ensures e.age <= 0 {
      var i :| 0 <= i < |r| && r[i] == e;
      assert t[i] in t;
    }
  }

  lemma AplicarLibres(m: Motor, T: nat, modo: Modo, o: Mensaje)
    requires Bien(m.a, T) && Admite(m, T, o) && LibresSinEdad(m.a.tabla)
    ensures LibresSinEdad(Aplicar(m, T, modo, o).a.tabla)
  {
    match o
    case Poner(k, v) =>
      var e, p := Envejecido(m, T), Paginas(|v|, T);
      LibresEnvejecen(m.a.tabla, T);
      var q := ConsultarTabla(e.a.tabla, k);
      if q != -1 {
        ActualizadaLibres(e.a.tabla, q, p, k, |v|);
      } else {
        var vieja := MasVieja(e.a.tabla);
        HacerLugarLibres(e, T, modo, p, vieja);
        var h := HacerLugar(e, T, modo, p, vieja).a.tabla;
        ColocadaLibres(h, BuscarEspacioLibre(h, p), p, k, |v|);
      }
    case PedidoCompactar => CompactarLibres(m.a, T, modo, 0);
  }

  lemma {:induction false} CorridaLibres(os: seq<Mensaje>, m: Motor, N: nat, T: nat, modo: Modo, limpia: bool)
    requires Alcanza(os, m, N, T, modo, limpia)
    ensures LibresSinEdad(m.a.tabla)
    decreases |os|
  {
    if |os| > 0 {
      var previas, o := os[..|os| - 1], os[|os| - 1];
      var p: Motor :| Alcanza(previas, p, N, T, modo, limpia) && Bien(p.a, T) && Admite(p, T, o)
                     && (limpia ==> Limpio(p, T, modo, o)) && m == Aplicar(p, T, modo, o);
      CorridaLibres(previas, p, N, T, modo, limpia);
      AplicarLibres(p, T, modo, o);
    }
  }

  /** In every reachable state an insertion that comes to evict evicts exactly one key, unless
      no single-slot key is stored. */
  lemma DesalojaUna(os: seq<Mensaje>, m: Motor, N: nat, T: nat, modo: Modo, limpia: bool, k: string, n: nat)
    requires Alcanza(os, m, N, T, modo, limpia)
    ensures Bien(m.a, T)
    ensures k != VACIO && k !in Claves(m.a.tabla) && Desaloja(Envejecido(m, T), Paginas(n, T)) ==>
              (|Desalojadas(m, T, k, n)| == 1 <==> exists e :: e in m.a.tabla && Viva(e) && e.tamanio <= T)
  {
    CorridaConserva(os, m, N, T, modo, limpia);
    if k != VACIO && k !in Claves(m.a.tabla) && Desaloja(Envejecido(m, T), Paginas(n, T)) {
      EnvejecerConserva(m.a, T);
      var t, V := Envejecer(m.a.tabla, T), Desalojadas(m, T, k, n);
      Ausente(t, k);
      assert V == Viejas(t, MasVieja(t));
      VictimaMenosReciente(os, m, N, T, modo, limpia, k, n);
      if e :| e in m.a.tabla && Viva(e) && e.tamanio <= T {
        CorridaLibres(os, m, N, T, modo, limpia);
        HayVieja(m.a.tabla, T, os, e);
        assert V != {};
      }
      if |V| == 1 {
        var x :| x in V;
        var i := VictimaDeUnSlot(m, T, k, n, x);
        assert m.a.tabla[i] in m.a.tabla;
      }
    }
  }

  lemma Ausente(t: seq<Entrada>, k: string)
    requires k != VACIO && k !in Claves(t)
    ensures ConsultarTabla(t, k) == -1
  {
    assert forall i | 0 <= i < |t| && Viva(t[i]) :: t[i].clave in Claves(t);
  }

  /** With a single-slot key stored, the largest age is that of a live slot. */
  lemma HayVieja(t: seq<Entrada>, T: nat, os: seq<Mensaje>, e: Entrada)
    requires Recientes(t, T, os) && LibresSinEdad(t) && e in t && Viva(e) && e.tamanio <= T
    ensures Viejas(Envejecer(t, T), MasVieja(Envejecer(t, T))) != {}
  {
    var r := Envejecer(t, T);
    var v := MasVieja(r);
    var i :| 0 <= i < |t| && t[i] == e;
    assert r[i].age >= 1 && r[i].age <= v;
    var j :| 0 <= j < |r| && r[j].age == v;
    LibresEnvejecen(t, T);
    assert r[j] in r && Viva(r[j]);
    assert r[j].clave in Viejas(r, v);
  }

  // ---- the values ----

  /** The value of the last SET of `k`. */
  function Ultimo(os: seq<Mensaje>, k: string): Option<string> {
    if |os| == 0 then None
    else
      var o := os[|os| - 1];
      if o.Poner? && o.clave == k then Some(o.valor) else Ultimo(os[..|os| - 1], k)
  }

  /** Every stored value is the last one SET. */
  ghost predicate AlDia(m: map<string, string>, os: seq<Mensaje>) {
    forall k | k in m :: Ultimo(os, k) == Some(m[k])
  }

  /** The compaction can be trusted with every value of the run. */
  ghost predicate Chicos(os: seq<Mensaje>, T: nat, modo: Modo) {
    modo.PorSlot? || forall o | o in os && o.Poner? :: |o.valor| <= 2 * T
  }

  lemma SetApta(m: Motor, T: nat, modo: Modo, k: string, v: string)
    requires Bien(m.a, T) && Disposicion(m.a.tabla, T) && k != VACIO
    requires Puede(m, T, k, |v|) && !Crece(m.a.tabla, T, k, |v|)
    requires Apta(m.a.tabla, T, modo) && (modo.PorSlot? || |v| <= 2 * T)
    ensures Apta(SetLRU(m, T, modo, k, v).a.tabla, T, modo)
  {
    var e, p := Envejecido(m, T), Paginas(|v|, T);
    EnvejecerConserva(m.a, T);
    EnvejecerMulti(m.a.tabla, T);
    assert Apta(e.a.tabla, T, modo);
    var q := ConsultarTabla(e.a.tabla, k);
    if q == -1 {
      var vieja := MasVieja(e.a.tabla);
      HacerLugarMapa(e, T, modo, p, vieja);
      var h := HacerLugar(e, T, modo, p, vieja).a.tabla;
      ColocadaApta(h, BuscarEspacioLibre(h, p), p, k, |v|, T, modo);
    } else {
      ActualizadaApta(e.a.tabla, q, p, k, |v|, T, modo);
    }
  }

  lemma ColocadaApta(t: seq<Entrada>, pos: nat, p: nat, k: string, n: nat, T: nat, modo: Modo)
    requires Apta(t, T, modo) && (modo.PorSlot? || n <= 2 * T)
    ensures Apta(Colocada(t, pos, p, Entrada(k, n, 0)), T, modo)
  {}

  lemma ActualizadaApta(t: seq<Entrada>, pos: nat, p: nat, k: string, n: nat, T: nat, modo: Modo)
    requires pos < |t| && Apta(t, T, modo) && (modo.PorSlot? || n <= 2 * T)
    ensures Apta(Actualizada(t, pos, p, k, n), T, modo)
  {}

  /** A SET keeps every stored value up to date exactly when its terminator changes no live slot. */
  lemma SetAlDia(m: Motor, T: nat, modo: Modo, os: seq<Mensaje>, k: string, v: string)
    requires Bien(m.a, T) && Disposicion(m.a.tabla, T) && k != VACIO
    requires Puede(m, T, k, |v|) && !Crece(m.a.tabla, T, k, |v|) && Apta(m.a.tabla, T, modo)
    requires AlDia(Mapa(m.a, T), os)
    ensures AlDia(Mapa(SetLRU(m, T, modo, k, v).a, T), os + [Poner(k, v)]) <==> Inocua(m, T, modo, k, |v|)
  {
    var V := Desalojadas(m, T, k, |v|);
    SetSinCrecer(m, T, modo, k, v);
    SetClaves(m, T, modo, k, v);
    EsperadoAlDia(Mapa(m.a, T), V, os, k, v);
    AlDiaUnico(Mapa(SetLRU(m, T, modo, k, v).a, T), Esperado(Mapa(m.a, T), V, k, v), os + [Poner(k, v)]);
  }

  lemma EsperadoAlDia(m: map<string, string>, V: set<string>, os: seq<Mensaje>, k: string, v: string)
    requires AlDia(m, os)
    ensures AlDia(Esperado(m, V, k, v), os + [Poner(k, v)])
    ensures Esperado(m, V, k, v).Keys == m.Keys - V - {k} + (if v == "" then {} else {k})
  {
    var os' := os + [Poner(k, v)];
    assert os'[..|os'| - 1] == os;
  }

  /** Two maps of the same keys that are up to date are the same. */
  lemma AlDiaUnico(m: map<string, string>, r: map<string, string>, os: seq<Mensaje>)
    requires m.Keys == r.Keys && AlDia(r, os)
    ensures AlDia(m, os) <==> m == r
  {
    if AlDia(m, os) {
      forall k | k in m ensures m[k] == r[k] { assert Ultimo(os, k) == Some(m[k]) == Some(r[k]); }
    }
  }

  lemma PedidoAlDia(m: map<string, string>, os: seq<Mensaje>)
    requires AlDia(m, os)
    ensures AlDia(m, os + [PedidoCompactar])
  {
    var os' := os + [PedidoCompactar];
    assert os'[..|os'| - 1] == os;
  }

  /** From a state where every live key reads the last value SET under it, and whose compaction can
      be trusted, the next message leaves such a state exactly when its terminator changes no live
      slot. */
  lemma PasoAlDia(p: Motor, T: nat, modo: Modo, os: seq<Mensaje>, o: Mensaje)
    requires Bien(p.a, T) && Disposicion(p.a.tabla, T) && Admite(p, T, o)
    requires Apta(p.a.tabla, T, modo) && AlDia(Mapa(p.a, T), os)
    ensures AlDia(Mapa(Aplicar(p, T, modo, o).a, T), os + [o]) <==> Limpio(p, T, modo, o)
    ensures Chicos([o], T, modo) ==> Apta(Aplicar(p, T, modo, o).a.tabla, T, modo)
  {
    assert o in [o];
    match o
    case Poner(k, v) =>
      SetAlDia(p, T, modo, os, k, v);
      if Chicos([o], T, modo) { SetApta(p, T, modo, k, v); }
    case PedidoCompactar =>
      CompactarConserva(p.a, T, modo);
      PedidoAlDia(Mapa(p.a, T), os);
  }

  /** After any clean run whose values the compaction can be trusted with, every live key
      reads the last value SET under it. */
  lemma {:induction false} CorridaAlDia(os: seq<Mensaje>, m: Motor, N: nat, T: nat, modo: Modo)
    requires Alcanza(os, m, N, T, modo, true) && Chicos(os, T, modo)
    ensures Bien(m.a, T) && AlDia(Mapa(m.a, T), os) && Apta(m.a.tabla, T, modo)
    decreases |os|
  {
    CorridaConserva(os, m, N, T, modo, true);
    if |os| > 0 {
      var previas, o := os[..|os| - 1], os[|os| - 1];
      var p: Motor :| Alcanza(previas, p, N, T, modo, true) && Bien(p.a, T) && Admite(p, T, o)
                     && Limpio(p, T, modo, o) && m == Aplicar(p, T, modo, o);
      CorridaAlDia(previas, p, N, T, modo);
      CorridaConserva(previas, p, N, T, modo, true);
      assert os == previas + [o] && o in os;
      PasoAlDia(p, T, modo, previas, o);
    }
  }
}
