/** The SET message under LRU, as a whole, refines an update of the stored map. */
module LRURefina {
  import opened Opciones
  import opened Tabla
  import opened Arena
  import opened Compactacion
  import opened LRU
  import opened LRUSet

  // ---- the table after a SET ----

  /** First slot at or after `e` that does not name `k`. */
  function FinDeClave(t: seq<Entrada>, e: nat, k: string): (r: nat)
    requires e <= |t|
    ensures e <= r <= |t|
    ensures forall i | e <= i < r :: t[i].clave == k
    ensures r < |t| ==> t[r].clave != k
    decreases |t| - e
  {
    if e == |t| || t[e].clave != k then e else FinDeClave(t, e + 1, k)
  }

  function Liberada(t: seq<Entrada>, e: nat, f: nat): (r: seq<Entrada>)
    ensures |r| == |t|
    ensures forall i | 0 <= i < |t| :: r[i] == if e <= i < f then t[i].(clave := VACIO, age := 0) else t[i]
  {
    seq(|t|, i requires 0 <= i < |t| => if e <= i < f then t[i].(clave := VACIO, age := 0) else t[i])
  }

  /** An update in place: the first slot takes the new size, the slots no longer needed are freed. */
  function Actualizada(t: seq<Entrada>, pos: nat, p: nat, k: string, n: nat): (r: seq<Entrada>)
    requires pos < |t|
    ensures |r| == |t|
  {
    var u := t[pos := t[pos].(tamanio := n, age := 0)];
    if pos + p > |t| then u else Liberada(u, pos + p, FinDeClave(u, pos + p, k))
  }

  function Colocada(t: seq<Entrada>, pos: nat, p: nat, e: Entrada): (r: seq<Entrada>)
    ensures |r| == |t|
    ensures forall i | 0 <= i < |t| :: r[i] == if pos <= i < pos + p then e else t[i]
  {
    seq(|t|, i requires 0 <= i < |t| => if pos <= i < pos + p then e else t[i])
  }

  /** A new value that takes more slots than the key has; the source does not look for them. */
  ghost predicate Crece(t: seq<Entrada>, T: nat, k: string, n: nat)
    requires T > 0
  {
    var q := ConsultarTabla(t, k);
    q != -1 && Paginas(n, T) > Paginas(t[q].tamanio, T)
  }

  lemma ActualizadaTramo(t: seq<Entrada>, T: nat, k: string, n: nat)
    requires T > 0 && k != VACIO && Corrida(t, T, k) && !Crece(t, T, k, n)
    ensures var q, p := ConsultarTabla(t, k), Paginas(n, T);
            var r := Actualizada(t, q, p, k, n);
            && (forall i | 0 <= i < |t| ::
                  r[i] == if i == q then (if p == 0 then Entrada(VACIO, n, 0) else Entrada(k, n, 0))
                          else if q + p <= i < q + Paginas(t[q].tamanio, T) then t[i].(clave := VACIO, age := 0)
                          else t[i])
  {
    var q, p := ConsultarTabla(t, k), Paginas(n, T);
    var u := t[q := t[q].(tamanio := n, age := 0)];
    var f := FinDeClave(u, q + p, k);
    var P := Paginas(t[q].tamanio, T);
    assert forall i | 0 <= i < |t| :: u[i].clave == t[i].clave;
    assert q + P < |t| ==> u[q + P].clave != k;
    assert f == q + P;
  }

  lemma ActualizadaPropia(t: seq<Entrada>, T: nat, k: string, n: nat)
    requires T > 0 && k != VACIO && Corrida(t, T, k) && !Crece(t, T, k, n)
    ensures var q := ConsultarTabla(t, k);
            var r := Actualizada(t, q, Paginas(n, T), k, n);
            && Reservado(r, T, k, q, n)
            && (n > 0 ==> Corrida(r, T, k))
  {
    var q, p := ConsultarTabla(t, k), Paginas(n, T);
    var r := Actualizada(t, q, p, k, n);
    ActualizadaTramo(t, T, k, n);
    var P := Paginas(t[q].tamanio, T);
    forall i | 0 <= i < |t|
      ensures r[i].clave == k <==> q <= i < q + p
    {
      assert t[i].clave == k <==> q <= i < q + P;
    }
    if n > 0 {
      assert Tramo(r, k, q, p);
      PrimeroDeTramo(r, k, q, p);
      MasPaginasMasBytes(n, t[q].tamanio, T);
    }
  }

  lemma MasPaginasMasBytes(n: nat, m: nat, T: nat)
    requires T > 0 && Paginas(n, T) <= Paginas(m, T)
    ensures n > T ==> m > T
  {}

  /** Growing a value in place leaves its key with fewer slots than the value takes. */
  lemma CreceRompe(t: seq<Entrada>, T: nat, k: string, n: nat)
    requires T > 0 && k != VACIO && Corrida(t, T, k) && Crece(t, T, k, n)
    ensures var r := Actualizada(t, ConsultarTabla(t, k), Paginas(n, T), k, n);
            k in Claves(r) && !Corrida(r, T, k)
  {
    var q, p := ConsultarTabla(t, k), Paginas(n, T);
    var P := Paginas(t[q].tamanio, T);
    var r := Actualizada(t, q, p, k, n);
    var u := t[q := t[q].(tamanio := n, age := 0)];
    assert forall i | 0 <= i < |t| :: u[i].clave == t[i].clave;
    assert r[q].clave == k && r[q].tamanio == n;
    assert forall i | 0 <= i < q :: t[i].clave != k && r[i] == t[i];
    assert ConsultarTabla(r, k) == q;
    if q + P < |r| {
      assert t[q + P].clave != k;
      assert r[q + P].clave != k;
    }
  }

  lemma ColocadaPropia(t: seq<Entrada>, T: nat, k: string, pos: nat, n: nat)
    requires T > 0 && k != VACIO && k !in Claves(t) && Hueco(t, pos, Max(1, Paginas(n, T)))
    ensures var r := Colocada(t, pos, Paginas(n, T), Entrada(k, n, 0));
            && Reservado(r, T, k, pos, n)
            && (n > 0 ==> Corrida(r, T, k))
  {
    var p := Paginas(n, T);
    var r := Colocada(t, pos, p, Entrada(k, n, 0));
    forall i | 0 <= i < |t|
      ensures r[i].clave == k <==> pos <= i < pos + p
    {
      assert Viva(t[i]) ==> t[i].clave in Claves(t);
    }
    if n > 0 {
      assert Tramo(r, k, pos, p);
      PrimeroDeTramo(r, k, pos, p);
    }
  }

  /** A table change that touches only slots that were, and are, of `k` or free. */
  ghost predicate Marco(t: seq<Entrada>, r: seq<Entrada>, k: string) {
    && |r| == |t|
    && forall i | 0 <= i < |t| ::
         r[i] == t[i] || ((t[i].clave == k || !Viva(t[i])) && (r[i].clave == k || !Viva(r[i])))
  }

  lemma MarcoConserva(a: Almacen, r: seq<Entrada>, T: nat, k: string)
    requires Bien(a, T) && Disposicion(a.tabla, T) && Marco(a.tabla, r, k) && k != VACIO
    requires k in Claves(r) ==> Corrida(r, T, k)
    ensures Disposicion(r, T)
    ensures Claves(r) - {k} == Claves(a.tabla) - {k}
    ensures Mapa(a.(tabla := r), T) - {k} == Mapa(a, T) - {k}
  {
    var t, b := a.tabla, a.(tabla := r);
    forall k' | k' in Claves(t) && k' != k
      ensures k' in Claves(r) && Corrida(r, T, k') && GetValue(b, T, k') == GetValue(a, T, k')
    {
      var i :| 0 <= i < |t| && Viva(t[i]) && t[i].clave == k';
      assert r[i].clave == k';
      MismaLectura(a, b, T, k');
    }
    forall k' | k' in Claves(r) && k' != k
      ensures k' in Claves(t)
    {
      var i :| 0 <= i < |r| && Viva(r[i]) && r[i].clave == k';
      assert t[i].clave == k';
    }
  }

  // ---- flagCompactar ----

  /** With enough free slots for the value a compaction makes room. */
  lemma CompactarHaceLugar(a: Almacen, T: nat, modo: Modo, p: nat)
    requires Bien(a, T)
    ensures BuscarEspacioLibre(Compactar(a, T, modo).tabla, p) != -1 <==> Max(1, p) <= Libres(a.tabla)
  {
    CompactarTabla(a, T, modo);
    BuscarEnApretada(Compactar(a, T, modo).tabla, p);
  }

  /** After an eviction the flag is clear if that made a hole, and set if it took one more compaction. */
  lemma DesalojarBandera(m: Motor, T: nat, modo: Modo, p: nat, vieja: int)
    requires Bien(m.a, T) && Cabe(m.a.tabla, p, vieja) && m.flag && BuscarEspacioLibre(m.a.tabla, p) == -1
    ensures HacerLugar(m, T, modo, p, vieja).flag <==> BuscarEspacioLibre(Desalojar(m.a.tabla, vieja), p) == -1
  {
    var r := Reintento(m, T, modo, vieja);
    ReintentoAvanza(m, T, modo, p, vieja);
    assert HacerLugar(m, T, modo, p, vieja) == HacerLugar(r, T, modo, p, vieja);
    if BuscarEspacioLibre(r.a.tabla, p) == -1 {
      var q := Reintento(r, T, modo, vieja);
      ReintentoAvanza(r, T, modo, p, vieja);
      CompactarHaceLugar(r.a, T, modo, p);
      assert HacerLugar(r, T, modo, p, vieja) == HacerLugar(q, T, modo, p, vieja) == q;
    }
  }

  /** What the search for room leaves in flagCompactar: what was there, if there was a hole; 1, if a
      compaction was enough; and otherwise, whether one more compaction had to follow the eviction. */
  lemma HacerLugarBandera(m: Motor, T: nat, modo: Modo, p: nat, vieja: int)
    requires Bien(m.a, T) && Cabe(m.a.tabla, p, vieja)
    ensures HacerLugar(m, T, modo, p, vieja).flag
            <==> if BuscarEspacioLibre(m.a.tabla, p) != -1 then m.flag
                 else if !m.flag && Max(1, p) <= Libres(m.a.tabla) then true
                 else
                   var t := if m.flag then m.a.tabla else Compactar(m.a, T, modo).tabla;
                   BuscarEspacioLibre(Desalojar(t, vieja), p) == -1
  {
    if BuscarEspacioLibre(m.a.tabla, p) == -1 {
      if m.flag {
        DesalojarBandera(m, T, modo, p, vieja);
      } else {
        var r := Reintento(m, T, modo, vieja);
        ReintentoAvanza(m, T, modo, p, vieja);
        CompactarHaceLugar(m.a, T, modo, p);
        assert HacerLugar(m, T, modo, p, vieja) == HacerLugar(r, T, modo, p, vieja);
        if BuscarEspacioLibre(r.a.tabla, p) == -1 { DesalojarBandera(r, T, modo, p, vieja); }
      }
    }
  }

  // ---- SET ----

  ghost function Envejecido(m: Motor, T: nat): (r: Motor)
    requires Bien(m.a, T)
    ensures Bien(r.a, T) && |r.a.tabla| == |m.a.tabla|
  {
    m.(a := m.a.(tabla := Envejecer(m.a.tabla, T)))
  }

  /** A key not yet stored must find room (TerminaSiiCabe: otherwise the source never returns). */
  ghost predicate Puede(m: Motor, T: nat, k: string, n: nat)
    requires Bien(m.a, T)
  {
    var t := Envejecer(m.a.tabla, T);
    ConsultarTabla(t, k) == -1 ==> Cabe(t, Paginas(n, T), MasVieja(t))
  }

  /** What guardarEnTablaLRU leaves. */
  ghost function Insertado(m: Motor, T: nat, modo: Modo, k: string, v: string, vieja: int): (r: Motor)
    requires Bien(m.a, T) && Cabe(m.a.tabla, Paginas(|v|, T), vieja)
    ensures Bien(r.a, T)
  {
    var p := Paginas(|v|, T);
    var r := HacerLugar(m, T, modo, p, vieja);
    var pos := BuscarEspacioLibre(r.a.tabla, p);
    r.(a := EscribirValor(r.a.(tabla := Colocada(r.a.tabla, pos, p, Entrada(k, |v|, 0))), T, pos, v))
  }

  /** The engine with the table the SET leaves, the value still to be written at `pos`. */
  ghost function Preparado(m: Motor, T: nat, modo: Modo, k: string, n: nat): (rp: (Motor, nat))
    requires Bien(m.a, T) && Puede(m, T, k, n)
    ensures Bien(rp.0.a, T) && |rp.0.a.tabla| == |m.a.tabla| && rp.1 < |rp.0.a.tabla|
  {
    var e, p := Envejecido(m, T), Paginas(n, T);
    var q := ConsultarTabla(e.a.tabla, k);
    if q != -1 then
      (e.(a := e.a.(tabla := Actualizada(e.a.tabla, q, p, k, n))), q)
    else
      var r := HacerLugar(e, T, modo, p, MasVieja(e.a.tabla));
      var pos := BuscarEspacioLibre(r.a.tabla, p);
      (r.(a := r.a.(tabla := Colocada(r.a.tabla, pos, p, Entrada(k, n, 0)))), pos)
  }

  /** The SET message: consultarTablaLRU, then the update in place or guardarEnTablaLRU. */
  ghost function SetLRU(m: Motor, T: nat, modo: Modo, k: string, v: string): (r: Motor)
    requires Bien(m.a, T) && Puede(m, T, k, |v|)
    ensures Bien(r.a, T) && |r.a.tabla| == |m.a.tabla|
  {
    var (r, pos) := Preparado(m, T, modo, k, |v|);
    r.(a := EscribirValor(r.a, T, pos, v))
  }

  /** The keys this SET evicts. */
  ghost function Desalojadas(m: Motor, T: nat, k: string, n: nat): set<string>
    requires Bien(m.a, T)
  {
    var e := Envejecido(m, T);
    if ConsultarTabla(e.a.tabla, k) != -1 then {} else Victimas(e, Paginas(n, T), MasVieja(e.a.tabla))
  }

  /** This SET compacts the table. */
  ghost predicate Compacta(m: Motor, T: nat, k: string, n: nat)
    requires Bien(m.a, T)
  {
    var e, p := Envejecido(m, T), Paginas(n, T);
    && ConsultarTabla(e.a.tabla, k) == -1
    && BuscarEspacioLibre(e.a.tabla, p) == -1
    && (m.flag ==> BuscarEspacioLibre(Desalojar(e.a.tabla, MasVieja(e.a.tabla)), p) == -1)
  }

  lemma HacerLugarSinCompactar(m: Motor, T: nat, modo: Modo, p: nat, vieja: int)
    requires Bien(m.a, T) && Cabe(m.a.tabla, p, vieja) && 0 <= vieja
    requires Disposicion(m.a.tabla, T) && Multi(m.a.tabla, T)
    requires BuscarEspacioLibre(m.a.tabla, p) != -1
          || (m.flag && BuscarEspacioLibre(Desalojar(m.a.tabla, vieja), p) != -1)
    ensures Mapa(HacerLugar(m, T, modo, p, vieja).a, T) == Mapa(m.a, T) - Victimas(m, p, vieja)
  {
    SinNada(Mapa(m.a, T));
    if BuscarEspacioLibre(m.a.tabla, p) == -1 {
      DesalojarConserva(m.a, T, vieja);
    }
  }

  lemma EnvejecerMulti(t: seq<Entrada>, T: nat)
    ensures Multi(Envejecer(t, T), T)
  {}

  /** What Preparado promises: the layout, the slots of the key, and the other keys. */
  ghost predicate BienPreparado(a: Almacen, r: Almacen, T: nat, k: string, pos: nat, n: nat, V: set<string>, fiel: bool)
    requires Bien(a, T) && Bien(r, T)
  {
    && Disposicion(r.tabla, T) && Reservado(r.tabla, T, k, pos, n)
    && Claves(r.tabla) - {k} == Claves(a.tabla) - V - {k}
    && (fiel ==> Mapa(r, T) - {k} == Mapa(a, T) - V - {k})
  }

  lemma ActualizadaConserva(a: Almacen, T: nat, k: string, n: nat)
    requires Bien(a, T) && Disposicion(a.tabla, T) && k in Claves(a.tabla) && !Crece(a.tabla, T, k, n)
    ensures var q := ConsultarTabla(a.tabla, k);
            BienPreparado(a, a.(tabla := Actualizada(a.tabla, q, Paginas(n, T), k, n)), T, k, q, n, {}, true)
  {
    var t, q, p := a.tabla, ConsultarTabla(a.tabla, k), Paginas(n, T);
    assert Corrida(t, T, k);
    ActualizadaTramo(t, T, k, n);
    ActualizadaPropia(t, T, k, n);
    assert Marco(t, Actualizada(t, q, p, k, n), k);
    MarcoConserva(a, Actualizada(t, q, p, k, n), T, k);
    SinNada(Mapa(a, T));
    assert Claves(t) - {} == Claves(t);
  }

  lemma ColocadaConserva(a: Almacen, T: nat, k: string, pos: nat, n: nat)
    requires Bien(a, T) && Disposicion(a.tabla, T) && k !in Claves(a.tabla) && k != VACIO
    requires Hueco(a.tabla, pos, Max(1, Paginas(n, T)))
    ensures BienPreparado(a, a.(tabla := Colocada(a.tabla, pos, Paginas(n, T), Entrada(k, n, 0))),
                          T, k, pos, n, {}, true)
  {
    ColocadaPropia(a.tabla, T, k, pos, n);
    MarcoConserva(a, Colocada(a.tabla, pos, Paginas(n, T), Entrada(k, n, 0)), T, k);
    SinNada(Mapa(a, T));
    assert Claves(a.tabla) - {} == Claves(a.tabla);
  }

  lemma LugarHecho(e: Motor, T: nat, modo: Modo, p: nat, fiel: bool)
    requires Bien(e.a, T) && Disposicion(e.a.tabla, T) && Multi(e.a.tabla, T)
    requires var vieja := MasVieja(e.a.tabla);
             && Cabe(e.a.tabla, p, vieja)
             && (!fiel || Apta(e.a.tabla, T, modo) || BuscarEspacioLibre(e.a.tabla, p) != -1
                 || (e.flag && BuscarEspacioLibre(Desalojar(e.a.tabla, vieja), p) != -1))
    ensures var vieja := MasVieja(e.a.tabla);
            var r, V := HacerLugar(e, T, modo, p, vieja), Victimas(e, p, vieja);
            && Disposicion(r.a.tabla, T)
            && Claves(r.a.tabla) == Claves(e.a.tabla) - V
            && (fiel ==> Mapa(r.a, T) == Mapa(e.a, T) - V)
  {
    var vieja := MasVieja(e.a.tabla);
    HacerLugarConserva(e, T, modo, p, vieja);
    if fiel {
      if Apta(e.a.tabla, T, modo) {
        HacerLugarMapa(e, T, modo, p, vieja);
      } else {
        HacerLugarSinCompactar(e, T, modo, p, vieja);
      }
    }
  }

  /** The bytes survive the compactions of this SET. */
  ghost predicate Confiable(m: Motor, T: nat, modo: Modo, k: string, n: nat)
    requires Bien(m.a, T)
  {
    Apta(m.a.tabla, T, modo) || !Compacta(m, T, k, n)
  }

  lemma Combina(a: Almacen, b: Almacen, r: Almacen, T: nat, k: string, pos: nat, n: nat, V: set<string>, fiel: bool)
    requires Bien(a, T) && Bien(b, T) && Bien(r, T)
    requires Claves(b.tabla) == Claves(a.tabla) - V && (fiel ==> Mapa(b, T) == Mapa(a, T) - V)
    requires BienPreparado(b, r, T, k, pos, n, {}, true)
    ensures BienPreparado(a, r, T, k, pos, n, V, fiel)
  {
    SinNada(Mapa(b, T));
    assert Claves(b.tabla) - {} == Claves(b.tabla);
  }

  /** The table a SET leaves, and the arena before the write: the layout holds, the slots of
      the key are the value's, and the other keys are those not evicted, unchanged. */
  lemma PreparadoActualiza(m: Motor, T: nat, modo: Modo, k: string, n: nat)
    requires Bien(m.a, T) && Disposicion(m.a.tabla, T) && k != VACIO && !Crece(m.a.tabla, T, k, n)
    requires ConsultarTabla(Envejecer(m.a.tabla, T), k) != -1
    ensures var (r, pos) := Preparado(m, T, modo, k, n);
            BienPreparado(m.a, r.a, T, k, pos, n, {}, true)
  {
    var e := Envejecido(m, T).a;
    var q := ConsultarTabla(e.tabla, k);
    EnvejecerConserva(m.a, T);
    CorridaEnmarcada(m.a.tabla, e.tabla, T, k);
    assert e.tabla[q].clave in Claves(e.tabla);
    assert Claves(e.tabla) == Mapa(e, T).Keys == Claves(m.a.tabla);
    ActualizadaConserva(e, T, k, n);
    SinNada(Mapa(m.a, T));
    Combina(m.a, e, Preparado(m, T, modo, k, n).0.a, T, k, q, n, {}, true);
  }

  lemma PreparadoInserta(m: Motor, T: nat, modo: Modo, k: string, n: nat)
    requires Bien(m.a, T) && Disposicion(m.a.tabla, T) && k != VACIO && Puede(m, T, k, n)
    requires ConsultarTabla(Envejecer(m.a.tabla, T), k) == -1
    ensures var (r, pos) := Preparado(m, T, modo, k, n);
            BienPreparado(m.a, r.a, T, k, pos, n, Desalojadas(m, T, k, n), Confiable(m, T, modo, k, n))
  {
    var e, p, fiel := Envejecido(m, T), Paginas(n, T), Confiable(m, T, modo, k, n);
    var vieja := MasVieja(e.a.tabla);
    EnvejecerConserva(m.a, T);
    EnvejecerMulti(m.a.tabla, T);
    assert Claves(e.a.tabla) == Mapa(e.a, T).Keys == Claves(m.a.tabla);
    assert Apta(m.a.tabla, T, modo) ==> Apta(e.a.tabla, T, modo);
    LugarHecho(e, T, modo, p, fiel);
    var r := HacerLugar(e, T, modo, p, vieja);
    var pos := BuscarEspacioLibre(r.a.tabla, p);
    ColocadaConserva(r.a, T, k, pos, n);
    Combina(m.a, r.a, Preparado(m, T, modo, k, n).0.a, T, k, pos, n, Victimas(e, p, vieja), fiel);
  }

  lemma PreparadoConserva(m: Motor, T: nat, modo: Modo, k: string, n: nat)
    requires Bien(m.a, T) && Disposicion(m.a.tabla, T) && k != VACIO
    requires Puede(m, T, k, n) && !Crece(m.a.tabla, T, k, n)
    ensures var (r, pos) := Preparado(m, T, modo, k, n);
            BienPreparado(m.a, r.a, T, k, pos, n, Desalojadas(m, T, k, n), Confiable(m, T, modo, k, n))
  {
    if ConsultarTabla(Envejecer(m.a.tabla, T), k) != -1 {
      PreparadoActualiza(m, T, modo, k, n);
    } else {
      PreparadoInserta(m, T, modo, k, n);
    }
  }

  /** The terminator of the value just stored under `k` falls on a live slot. */
  ghost predicate Pisa(t: seq<Entrada>, T: nat, k: string, n: nat)
    requires T > 0
  {
    n > 0 && ConsultarTabla(t, k) != -1 && PisaVecino(t, T, ConsultarTabla(t, k), n)
  }

  /** The terminator of the value, written where the SET puts it, changes no live slot. */
  ghost predicate Inocua(m: Motor, T: nat, modo: Modo, k: string, n: nat)
    requires Bien(m.a, T) && Puede(m, T, k, n)
  {
    var (b, pos) := Preparado(m, T, modo, k, n);
    NulInocuo(b.a, T, pos, n)
  }

  /** The map a SET should leave: the victims go, the key takes the value (an empty value
      removes the key). */
  ghost function Esperado(m: map<string, string>, V: set<string>, k: string, v: string): map<string, string> {
    if v == "" then m - V - {k} else (m - V)[k := v]
  }

  lemma EsperadoDesde(m: map<string, string>, b: map<string, string>, V: set<string>, k: string, v: string)
    requires b - {k} == m - V - {k} && (v == "" ==> k !in b)
    ensures (if v == "" then b else b[k := v]) == Esperado(m, V, k, v)
  {
    if v == "" {
      assert b - {k} == b;
    } else {
      assert b[k := v] == (b - {k})[k := v];
      assert (m - V)[k := v] == (m - V - {k})[k := v];
    }
  }

  /** Where the value stands. */
  lemma PosicionFinal(t: seq<Entrada>, T: nat, k: string, pos: nat, n: nat)
    requires T > 0 && Reservado(t, T, k, pos, n)
    ensures Pisa(t, T, k, n) == PisaVecino(t, T, pos, n)
  {
    if n > 0 { PrimeroDeTramo(t, k, pos, Paginas(n, T)); }
  }

  /** A SET that grows no key in place refines the update of the map exactly when its terminator
      changes no live slot; so it does whenever the terminator falls on none. */
  lemma SetSinCrecer(m: Motor, T: nat, modo: Modo, k: string, v: string)
    requires Bien(m.a, T) && Disposicion(m.a.tabla, T) && k != VACIO
    requires Puede(m, T, k, |v|) && !Crece(m.a.tabla, T, k, |v|) && Confiable(m, T, modo, k, |v|)
    ensures var r := SetLRU(m, T, modo, k, v);
            && (Mapa(r.a, T) == Esperado(Mapa(m.a, T), Desalojadas(m, T, k, |v|), k, v)
                <==> Inocua(m, T, modo, k, |v|))
            && (!Pisa(r.a.tabla, T, k, |v|) ==> Inocua(m, T, modo, k, |v|))
  {
    var (b, pos) := Preparado(m, T, modo, k, |v|);
    var V := Desalojadas(m, T, k, |v|);
    PreparadoConserva(m, T, modo, k, |v|);
    EscrituraMapa(b.a, T, k, pos, v);
    EsperadoDesde(Mapa(m.a, T), Mapa(b.a, T), V, k, v);
    PosicionFinal(b.a.tabla, T, k, pos, |v|);
  }

  /** The flag after a SET, which decides whether the next insertion that finds no hole evicts
      without compacting first: an update leaves it, and an insertion leaves it, sets it or clears it
      as HacerLugarBandera says. */
  lemma SetBandera(m: Motor, T: nat, modo: Modo, k: string, v: string)
    requires Bien(m.a, T) && Puede(m, T, k, |v|)
    ensures var e, p := Envejecido(m, T), Paginas(|v|, T);
            var t, vieja := e.a.tabla, MasVieja(e.a.tabla);
            SetLRU(m, T, modo, k, v).flag
            <==> if ConsultarTabla(t, k) != -1 || BuscarEspacioLibre(t, p) != -1 then m.flag
                 else if !m.flag && Max(1, p) <= Libres(t) then true
                 else BuscarEspacioLibre(Desalojar(if m.flag then t else Compactar(e.a, T, modo).tabla, vieja), p) == -1
  {
    var e, p := Envejecido(m, T), Paginas(|v|, T);
    if ConsultarTabla(e.a.tabla, k) == -1 { HacerLugarBandera(e, T, modo, p, MasVieja(e.a.tabla)); }
  }

  /** A SET keeps the layout exactly when it does not grow the key in place. */
  lemma SetDisposicion(m: Motor, T: nat, modo: Modo, k: string, v: string)
    requires Bien(m.a, T) && Disposicion(m.a.tabla, T) && k != VACIO && Puede(m, T, k, |v|)
    ensures Disposicion(SetLRU(m, T, modo, k, v).a.tabla, T) <==> !Crece(m.a.tabla, T, k, |v|)
  {
    if Crece(m.a.tabla, T, k, |v|) {
      var t := Envejecer(m.a.tabla, T);
      EnvejecerConserva(m.a, T);
      CorridaEnmarcada(m.a.tabla, t, T, k);
      assert t[ConsultarTabla(t, k)].clave in Claves(t);
      CreceRompe(t, T, k, |v|);
    } else {
      PreparadoConserva(m, T, modo, k, |v|);
    }
  }

  /** The keys a SET leaves: those it had, less the victims, and the one set. */
  lemma SetClaves(m: Motor, T: nat, modo: Modo, k: string, v: string)
    requires Bien(m.a, T) && Disposicion(m.a.tabla, T) && k != VACIO
    requires Puede(m, T, k, |v|)
    ensures Claves(SetLRU(m, T, modo, k, v).a.tabla)
         == Claves(m.a.tabla) - Desalojadas(m, T, k, |v|) - {k} + (if v == "" then {} else {k})
  {
    if Crece(m.a.tabla, T, k, |v|) {
      CreceClaves(m, T, modo, k, v);
    } else {
      PreparadoConserva(m, T, modo, k, |v|);
      PreparadoClaves(m, T, modo, k, |v|);
    }
  }

  lemma PreparadoClaves(m: Motor, T: nat, modo: Modo, k: string, n: nat)
    requires Bien(m.a, T) && Puede(m, T, k, n) && k != VACIO
    requires var (r, pos) := Preparado(m, T, modo, k, n);
             BienPreparado(m.a, r.a, T, k, pos, n, Desalojadas(m, T, k, n), Confiable(m, T, modo, k, n))
    ensures Claves(Preparado(m, T, modo, k, n).0.a.tabla)
         == Claves(m.a.tabla) - Desalojadas(m, T, k, n) - {k} + (if n == 0 then {} else {k})
  {
    var (r, pos) := Preparado(m, T, modo, k, n);
    var t := r.a.tabla;
    if n > 0 { assert t[pos].clave == k; }
    assert Claves(t) == Claves(t) - {k} + (if n == 0 then {} else {k});
  }

  /** Growing a key in place names no other slot. */
  lemma CreceClaves(m: Motor, T: nat, modo: Modo, k: string, v: string)
    requires Bien(m.a, T) && Disposicion(m.a.tabla, T) && k != VACIO
    requires Puede(m, T, k, |v|) && Crece(m.a.tabla, T, k, |v|)
    ensures v != "" && k in Claves(m.a.tabla) && Desalojadas(m, T, k, |v|) == {}
    ensures Claves(SetLRU(m, T, modo, k, v).a.tabla) == Claves(m.a.tabla)
  {
    CreceEnvejecida(m.a.tabla, T, k, |v|);
    CreceTabla(Envejecer(m.a.tabla, T), T, k, |v|);
  }

  lemma CreceEnvejecida(t: seq<Entrada>, T: nat, k: string, n: nat)
    requires T > 0 && Disposicion(t, T) && k != VACIO && Crece(t, T, k, n)
    ensures var u := Envejecer(t, T);
            k in Claves(t) && Claves(u) == Claves(t) && Corrida(u, T, k) && Crece(u, T, k, n)
  {
    var u := Envejecer(t, T);
    assert t[ConsultarTabla(t, k)].clave in Claves(t);
    NombresIguales(t, u);
    CorridaEnmarcada(t, u, T, k);
  }

  /** Past the slots of the key the update finds none to free. */
  lemma CreceTabla(t: seq<Entrada>, T: nat, k: string, n: nat)
    requires T > 0 && k != VACIO && Corrida(t, T, k) && Crece(t, T, k, n)
    ensures var q := ConsultarTabla(t, k);
            && Actualizada(t, q, Paginas(n, T), k, n) == t[q := t[q].(tamanio := n, age := 0)]
            && Claves(Actualizada(t, q, Paginas(n, T), k, n)) == Claves(t)
  {
    var q, p := ConsultarTabla(t, k), Paginas(n, T);
    var u := t[q := t[q].(tamanio := n, age := 0)];
    if q + p < |t| { assert t[q + p].clave != k && u[q + p].clave != k; }
    NombresIguales(t, u);
  }

  lemma NombresIguales(t: seq<Entrada>, r: seq<Entrada>)
    requires |t| == |r| && forall i | 0 <= i < |t| :: r[i].clave == t[i].clave
    ensures Claves(r) == Claves(t)
  {
    forall x | x in Claves(t) ensures x in Claves(r) {
      var i :| 0 <= i < |t| && Viva(t[i]) && t[i].clave == x;
      assert Viva(r[i]) && r[i].clave == x;
    }
    forall x | x in Claves(r) ensures x in Claves(t) {
      var i :| 0 <= i < |r| && Viva(r[i]) && r[i].clave == x;
      assert Viva(t[i]) && t[i].clave == x;
    }
  }

  /** A value `w` that stands at byte `de` reads the same after `v` and its NUL go to byte `at`. */
  ghost predicate Intacto(w: string, de: int, at: int, v: string) {
    forall i | 0 <= i < |w| && at <= de + i <= at + |v| :: w[i] == (v + [NUL])[de + i - at]
  }

  /** The value of `x` stands where writing `v` at slot `q` does not change it. */
  ghost predicate Conserva(a: Almacen, T: nat, q: nat, v: string, x: string)
    requires Bien(a, T) && x in Claves(a.tabla)
  {
    Intacto(Mapa(a, T)[x], ConsultarTabla(a.tabla, x) * T, q * T, v)
  }

  ghost function Conservadas(a: Almacen, T: nat, q: nat, v: string): set<string>
    requires Bien(a, T)
  {
    set x | x in Claves(a.tabla) && Conserva(a, T, q, v, x)
  }

  /** What the growth writes agrees with the bytes of the other values that it runs over, and does
      not run out of the arena. */
  ghost predicate Coincide(a: Almacen, T: nat, k: string, v: string)
    requires Bien(a, T) && k in Claves(a.tabla)
  {
    var q := ConsultarTabla(a.tabla, k);
    q >= 0 && q * T + |v| <= |a.mem| && Claves(a.tabla) <= Conservadas(a, T, q, v) + {k}
  }

  lemma LeeEncima(mem: seq<char>, de: nat, n: nat, at: nat, bytes: seq<char>, i: nat)
    requires de <= |mem| && at <= |mem| && i < |Leer(mem, de, n)|
    ensures |Leer(Escribir(mem, at, bytes), de, n)| == |Leer(mem, de, n)|
    ensures Leer(Escribir(mem, at, bytes), de, n)[i]
         == if at <= de + i < at + |bytes| then bytes[de + i - at] else Leer(mem, de, n)[i]
  {}

  lemma LeeIntacto(mem: seq<char>, de: nat, n: nat, at: nat, v: string)
    requires de <= |mem| && at <= |mem|
    ensures Leer(Escribir(mem, at, v + [NUL]), de, n) == Leer(mem, de, n) <==> Intacto(Leer(mem, de, n), de, at, v)
  {
    var w, r := Leer(mem, de, n), Leer(Escribir(mem, at, v + [NUL]), de, n);
    forall i | 0 <= i < |w|
      ensures |r| == |w| && r[i] == if at <= de + i <= at + |v| then (v + [NUL])[de + i - at] else w[i]
    {
      LeeEncima(mem, de, n, at, v + [NUL], i);
    }
    assert |r| == |w|;
    assert r == w <==> forall i | 0 <= i < |w| :: r[i] == w[i];
  }

  lemma LeePropio(mem: seq<char>, at: nat, v: string)
    requires at <= |mem|
    ensures Leer(Escribir(mem, at, v + [NUL]), at, |v|) == v <==> at + |v| <= |mem|
  {
    var r := Leer(Escribir(mem, at, v + [NUL]), at, |v|);
    if at + |v| <= |mem| { assert r == v; } else { assert |r| < |v|; }
  }

  lemma MismosNombres(t: seq<Entrada>, u: seq<Entrada>, k: string)
    requires |t| == |u| && forall i | 0 <= i < |t| :: u[i].clave == t[i].clave
    ensures ConsultarTabla(t, k) == ConsultarTabla(u, k)
  {}

  /** The table and the arena that the growth of `k`, at slot `q`, leaves. */
  ghost predicate Crecido(a: Almacen, r: Almacen, T: nat, q: nat, v: string)
    requires Bien(a, T) && Bien(r, T)
  {
    && q < |a.tabla| && |r.tabla| == |a.tabla|
    && (forall i | 0 <= i < |a.tabla| :: r.tabla[i].clave == a.tabla[i].clave)
    && (forall i | 0 <= i < |a.tabla| :: r.tabla[i].tamanio == if i == q then |v| else a.tabla[i].tamanio)
    && 0 <= q * T <= |a.mem| && r.mem == Escribir(a.mem, q * T, v + [NUL])
  }

  lemma CrecidoPropio(a: Almacen, r: Almacen, T: nat, q: nat, v: string, k: string)
    requires Bien(a, T) && Bien(r, T) && Crecido(a, r, T, q, v) && ConsultarTabla(a.tabla, k) == q
    ensures GetValue(r, T, k).Some? && (GetValue(r, T, k).value == v <==> q * T + |v| <= |a.mem|)
  {
    MismosNombres(a.tabla, r.tabla, k);
    LeePropio(a.mem, q * T, v);
    assert GetValue(r, T, k) == Some(Leer(r.mem, q * T, |v|));
  }

  lemma CrecidoAjeno(a: Almacen, r: Almacen, T: nat, q: nat, v: string, x: string)
    requires Bien(a, T) && Bien(r, T) && Crecido(a, r, T, q, v)
    requires ConsultarTabla(a.tabla, x) != -1 && ConsultarTabla(a.tabla, x) != q
    ensures GetValue(r, T, x).Some? && GetValue(a, T, x).Some?
    ensures GetValue(r, T, x) == GetValue(a, T, x)
            <==> Intacto(GetValue(a, T, x).value, ConsultarTabla(a.tabla, x) * T, q * T, v)
  {
    var p := ConsultarTabla(a.tabla, x);
    MismosNombres(a.tabla, r.tabla, x);
    Orden(p, |a.tabla|, T);
    LeeIntacto(a.mem, p * T, a.tabla[p].tamanio, q * T, v);
    assert GetValue(r, T, x) == Some(Leer(r.mem, p * T, a.tabla[p].tamanio));
    assert GetValue(a, T, x) == Some(Leer(a.mem, p * T, a.tabla[p].tamanio));
  }

  lemma CrecidoOtra(a: Almacen, r: Almacen, T: nat, q: nat, v: string, x: string)
    requires Bien(a, T) && Bien(r, T) && Crecido(a, r, T, q, v)
    requires x in Claves(a.tabla) && x in Claves(r.tabla) && x != a.tabla[q].clave
    ensures Mapa(r, T)[x] == Mapa(a, T)[x] <==> Conserva(a, T, q, v, x)
  {
    var i :| 0 <= i < |a.tabla| && Viva(a.tabla[i]) && a.tabla[i].clave == x;
    CrecidoAjeno(a, r, T, q, v, x);
  }

  lemma IgualesSii(n: map<string, string>, m: map<string, string>, k: string, v: string,
                   propia: bool, ajenas: set<string>)
    requires n.Keys == m.Keys && k in m && (n[k] == v <==> propia)
    requires forall x | x in m && x != k :: n[x] == m[x] <==> x in ajenas
    ensures n == m[k := v] <==> propia && m.Keys <= ajenas + {k}
  {
    var e := m[k := v];
    assert n == e <==> forall x | x in m :: n[x] == e[x];
  }

  lemma CrecidoMapa(a: Almacen, r: Almacen, T: nat, k: string, v: string)
    requires Bien(a, T) && Bien(r, T) && k in Claves(a.tabla) && ConsultarTabla(a.tabla, k) != -1
    requires Crecido(a, r, T, ConsultarTabla(a.tabla, k), v)
    ensures Mapa(r, T) == Mapa(a, T)[k := v] <==> Coincide(a, T, k, v)
  {
    var q := ConsultarTabla(a.tabla, k);
    NombresIguales(a.tabla, r.tabla);
    CrecidoPropio(a, r, T, q, v, k);
    var ajenas := Conservadas(a, T, q, v);
    forall x | x in Mapa(a, T) && x != k
      ensures Mapa(r, T)[x] == Mapa(a, T)[x] <==> x in ajenas
    {
      CrecidoOtra(a, r, T, q, v, x);
    }
    IgualesSii(Mapa(r, T), Mapa(a, T), k, v, q * T + |v| <= |a.mem|, ajenas);
  }

  /** The growth changes one entry. */
  lemma CrecidaUna(t: seq<Entrada>, T: nat, k: string, n: nat)
    requires T > 0 && Disposicion(t, T) && k != VACIO && Crece(t, T, k, n)
    ensures var q, u := ConsultarTabla(t, k), Envejecer(t, T);
            && k in Claves(t) && ConsultarTabla(u, k) == q >= 0
            && Actualizada(u, q, Paginas(n, T), k, n) == u[q := u[q].(tamanio := n, age := 0)]
  {
    CreceEnvejecida(t, T, k, n);
    MismosNombres(t, Envejecer(t, T), k);
    CreceTabla(Envejecer(t, T), T, k, n);
  }

  lemma CrecidoDe(a: Almacen, T: nat, q: nat, v: string)
    requires Bien(a, T) && q < |a.tabla|
    ensures var u := Envejecer(a.tabla, T);
            Crecido(a, EscribirValor(a.(tabla := u[q := u[q].(tamanio := |v|, age := 0)]), T, q, v), T, q, v)
  {
    Orden(q, |a.tabla|, T);
  }

  lemma CrecidaEs(m: Motor, T: nat, modo: Modo, k: string, v: string)
    requires Bien(m.a, T) && Disposicion(m.a.tabla, T) && k != VACIO && Crece(m.a.tabla, T, k, |v|)
    ensures k in Claves(m.a.tabla) && Puede(m, T, k, |v|)
    ensures Crecido(m.a, SetLRU(m, T, modo, k, v).a, T, ConsultarTabla(m.a.tabla, k), v)
  {
    CrecidaUna(m.a.tabla, T, k, |v|);
    CrecidoDe(m.a, T, ConsultarTabla(m.a.tabla, k), v);
  }

  /** A SET that grows its key in place refines the update of the map exactly when the bytes it
      writes over other values are the ones already there and stay inside the arena. */
  lemma SetCrece(m: Motor, T: nat, modo: Modo, k: string, v: string)
    requires Bien(m.a, T) && Disposicion(m.a.tabla, T) && k != VACIO && Crece(m.a.tabla, T, k, |v|)
    ensures k in Claves(m.a.tabla) && Puede(m, T, k, |v|)
    ensures Mapa(SetLRU(m, T, modo, k, v).a, T) == Mapa(m.a, T)[k := v] <==> Coincide(m.a, T, k, v)
  {
    CrecidaEs(m, T, modo, k, v);
    CrecidoMapa(m.a, SetLRU(m, T, modo, k, v).a, T, k, v);
  }

  /** A SET refines the update of the map, values of any number of slots, whatever it has to
      compact or evict and whatever the stored values hold, exactly when its terminator changes no
      live slot, or, if it grows its key in place, when what it writes past its own slots is what
      is already there. */
  lemma SetRefina(m: Motor, T: nat, modo: Modo, k: string, v: string)
    requires Bien(m.a, T) && Disposicion(m.a.tabla, T) && k != VACIO && Puede(m, T, k, |v|)
    requires Confiable(m, T, modo, k, |v|)
    ensures Crece(m.a.tabla, T, k, |v|) ==> k in Claves(m.a.tabla)
    ensures var r := SetLRU(m, T, modo, k, v);
            && (Mapa(r.a, T) == Esperado(Mapa(m.a, T), Desalojadas(m, T, k, |v|), k, v)
                <==> if Crece(m.a.tabla, T, k, |v|) then Coincide(m.a, T, k, v) else Inocua(m, T, modo, k, |v|))
            && (!Crece(m.a.tabla, T, k, |v|) && !Pisa(r.a.tabla, T, k, |v|) ==> Inocua(m, T, modo, k, |v|))
  {
    if Crece(m.a.tabla, T, k, |v|) {
      SetCrece(m, T, modo, k, v);
      CreceClaves(m, T, modo, k, v);
      SinNada(Mapa(m.a, T));
    } else {
      SetSinCrecer(m, T, modo, k, v);
    }
  }

  /** Growing in place can destroy a neighbour: with slots of two bytes, "a" = "xy" beside
      "b" = "z", setting "a" to "pqr" leaves "b" reading "r". */
  lemma CrecerPisa()
    ensures var m := Motor(Almacen([Entrada("a", 2, 1), Entrada("b", 1, 0)], "xyz0"), false);
            && Bien(m.a, 2) && Disposicion(m.a.tabla, 2) && Puede(m, 2, "a", 3)
            && GetValue(m.a, 2, "b") == Some("z")
            && GetValue(SetLRU(m, 2, PorTamanio, "a", "pqr").a, 2, "b") == Some("r")
  {
    var t := [Entrada("a", 2, 1), Entrada("b", 1, 0)];
    var m := Motor(Almacen(t, "xyz0"), false);
    PrimeroDeTramo(t, "a", 0, 1);
    PrimeroDeTramo(t, "b", 1, 1);
    assert Leer("xyz0", 2, 1) == "z";
    var r := CrecidaTabla();
    PrimeroDeTramo(r, "b", 1, 1);
    assert Escribir("xyz0", 0, "pqr" + [NUL]) == "pqr" + [NUL];
    assert Leer("pqr" + [NUL], 2, 1) == "r";
  }

  lemma CrecidaTabla() returns (r: seq<Entrada>)
    ensures r == [Entrada("a", 3, 0), Entrada("b", 1, 1)]
    ensures var u := Envejecer([Entrada("a", 2, 1), Entrada("b", 1, 0)], 2);
            ConsultarTabla(u, "a") == 0 && Paginas(3, 2) == 2 && Actualizada(u, 0, 2, "a", 3) == r
  {
    var u := Envejecer([Entrada("a", 2, 1), Entrada("b", 1, 0)], 2);
    assert u == [Entrada("a", 2, 2), Entrada("b", 1, 1)];
    PrimeroDeTramo(u, "a", 0, 1);
    r := Actualizada(u, 0, 2, "a", 3);
    assert r == [Entrada("a", 3, 0), Entrada("b", 1, 1)];
  }
}
