/** CIRC with values of any number of slots, until the index first comes to the end of the table: the
    values lie end to end, and the index and comienzoDeEntradasLibres stand behind the last. */
module Tendidos {
  import opened Opciones
  import opened Tabla
  import opened Arena
  import opened LRUSet
  import opened LRURefina
  import opened Circular
  import opened Compactacion
  import opened Recencia

  /** The index and comienzoDeEntradasLibres agree, and no slot from there on was ever used. */
  ghost predicate Tendida(s: Anillo, T: nat) {
    && Bien(s.a, T) && Disposicion(s.a.tabla, T)
    && s.indice == s.comienzo <= |s.a.tabla|
    && forall i | s.indice <= i < |s.a.tabla| :: s.a.tabla[i] == LIMPIA
  }

  /** The scan that stops at comienzoDeEntradasLibres misses nothing. */
  lemma CortaExacta(s: Anillo, T: nat, k: string)
    requires Tendida(s, T) && k != VACIO
    ensures ConsultarCorta(s.a.tabla, s.comienzo, k) == ConsultarTabla(s.a.tabla, k)
    ensures k in Claves(s.a.tabla) <==> ConsultarTabla(s.a.tabla, k) != -1
  {
    var t, u := s.a.tabla, s.a.tabla[..s.comienzo];
    var q, r := ConsultarTabla(t, k), ConsultarTabla(u, k);
    if q != -1 { assert u[q].clave == k; }
    if r != -1 { assert t[r].clave == k; }
  }

  // ---- an update ----

  lemma ActualizadaCircTramo(t: seq<Entrada>, T: nat, k: string, n: nat)
    requires T > 0 && k != VACIO && Corrida(t, T, k) && !Crece(t, T, k, n)
    ensures var q, p := ConsultarTabla(t, k), Paginas(n, T);
            var r := ActualizadaCirc(t, q, p, k, n);
            forall i | 0 <= i < |t| ::
              r[i] == if i == q then (if p == 0 then Entrada(VACIO, n, t[q].age) else Entrada(k, n, t[q].age))
                      else if q + p <= i < q + Paginas(t[q].tamanio, T) then t[i].(clave := VACIO)
                      else t[i]
  {
    var q, p := ConsultarTabla(t, k), Paginas(n, T);
    var u := t[q := t[q].(tamanio := n)];
    var f := FinDeClave(u, q + p, k);
    var P := Paginas(t[q].tamanio, T);
    assert forall i | 0 <= i < |t| :: u[i].clave == t[i].clave;
    assert q + P < |t| ==> u[q + P].clave != k;
    assert f == q + P;
  }

  lemma MismaForma(l: seq<Entrada>, r: seq<Entrada>, T: nat, k: string, q: nat, n: nat)
    requires T > 0 && |l| == |r| && forall i | 0 <= i < |l| :: r[i].clave == l[i].clave && r[i].tamanio == l[i].tamanio
    requires Reservado(l, T, k, q, n) && (n > 0 ==> Corrida(l, T, k))
    ensures Reservado(r, T, k, q, n) && (n > 0 ==> Corrida(r, T, k))
  {
    NombresIguales(l, r);
    CorridaEnmarcada(l, r, T, k);
  }

  /** The same names and sizes as the update under LRU, which differs in the ages. */
  lemma FormasIguales(t: seq<Entrada>, T: nat, k: string, n: nat)
    requires T > 0 && k != VACIO && Corrida(t, T, k) && !Crece(t, T, k, n)
    ensures var q, p := ConsultarTabla(t, k), Paginas(n, T);
            var r, l := ActualizadaCirc(t, q, p, k, n), Actualizada(t, q, p, k, n);
            forall i | 0 <= i < |t| :: r[i].clave == l[i].clave && r[i].tamanio == l[i].tamanio
  {
    ActualizadaCircTramo(t, T, k, n);
    ActualizadaTramo(t, T, k, n);
  }

  lemma CircMarco(t: seq<Entrada>, T: nat, k: string, n: nat)
    requires T > 0 && k != VACIO && Corrida(t, T, k) && !Crece(t, T, k, n)
    ensures var q := ConsultarTabla(t, k);
            Marco(t, ActualizadaCirc(t, q, Paginas(n, T), k, n), k)
  {
    ActualizadaCircTramo(t, T, k, n);
  }

  /** What an update that does not grow its key leaves, before the value is written. */
  lemma CircConserva(a: Almacen, T: nat, k: string, n: nat)
    requires Bien(a, T) && Disposicion(a.tabla, T) && k in Claves(a.tabla) && !Crece(a.tabla, T, k, n)
    ensures var q := ConsultarTabla(a.tabla, k);
            BienPreparado(a, a.(tabla := ActualizadaCirc(a.tabla, q, Paginas(n, T), k, n)), T, k, q, n, {}, true)
  {
    var t, q, p := a.tabla, ConsultarTabla(a.tabla, k), Paginas(n, T);
    var r := ActualizadaCirc(t, q, p, k, n);
    assert Corrida(t, T, k);
    FormasIguales(t, T, k, n);
    ActualizadaPropia(t, T, k, n);
    MismaForma(Actualizada(t, q, p, k, n), r, T, k, q, n);
    CircMarco(t, T, k, n);
    MarcoConserva(a, r, T, k);
    SinNada(Mapa(a, T));
    assert Claves(t) - {} == Claves(t);
  }

  // ---- a SET ----

  /** A SET that neither grows its key in place nor, of a new key, passes the end of the table. */
  ghost predicate Entra(s: Anillo, T: nat, k: string, v: string)
    requires T > 0
  {
    && k != VACIO
    && if k in Claves(s.a.tabla) then !Crece(s.a.tabla, T, k, |v|)
       else v != "" && s.indice + Paginas(|v|, T) <= |s.a.tabla|
  }

  /** Where the value goes. */
  ghost function Asiento(s: Anillo, k: string): nat {
    if k in Claves(s.a.tabla) then
      var q := ConsultarTabla(s.a.tabla, k);
      if q == -1 then 0 else q
    else s.indice
  }

  /** The terminator changes no live slot: it could only where the new value of a stored key fills all
      the slots that the old one took. */
  ghost predicate Inofensiva(s: Anillo, T: nat, k: string, v: string)
    requires Bien(s.a, T)
  {
    k in Claves(s.a.tabla) && Paginas(|v|, T) == Paginas(s.a.tabla[Asiento(s, k)].tamanio, T) ==>
      NulInocuo(s.a, T, Asiento(s, k), |v|)
  }

  /** The table that a SET leaves. */
  ghost function Puesta(s: Anillo, T: nat, k: string, n: nat): seq<Entrada>
    requires T > 0
  {
    if k in Claves(s.a.tabla) && ConsultarTabla(s.a.tabla, k) != -1
    then ActualizadaCirc(s.a.tabla, ConsultarTabla(s.a.tabla, k), Paginas(n, T), k, n)
    else Colocada(s.a.tabla, s.indice, Paginas(n, T), Entrada(k, n, 0))
  }

  /** How far the index goes. */
  ghost function Avance(s: Anillo, T: nat, k: string, n: nat): nat
    requires T > 0
  {
    if k in Claves(s.a.tabla) then 0 else Paginas(n, T)
  }

  lemma PonerEs(s: Anillo, T: nat, modo: Modo, k: string, v: string)
    requires Tendida(s, T) && Entra(s, T, k, v)
    ensures Circular.Puede(s, T, modo, k, v) && Asiento(s, k) < |s.a.tabla| && |Puesta(s, T, k, |v|)| == |s.a.tabla|
    ensures var i := s.indice + Avance(s, T, k, |v|);
            SetCIRC(s, T, modo, k, v)
            == Anillo(EscribirValor(s.a.(tabla := Puesta(s, T, k, |v|)), T, Asiento(s, k), v), s.flag, i, i)
  {
    CortaExacta(s, T, k);
    var t, p := s.a.tabla, Paginas(|v|, T);
    if k !in Claves(t) {
      assert t[s.indice] == LIMPIA;
      assert Camina(t, T, p, s.indice);
      assert Ubicar(s, T, modo, p) == s;
    }
  }

  lemma PuestaBien(s: Anillo, T: nat, k: string, v: string)
    requires Tendida(s, T) && Entra(s, T, k, v)
    ensures |Puesta(s, T, k, |v|)| == |s.a.tabla| && Bien(s.a.(tabla := Puesta(s, T, k, |v|)), T)
    ensures BienPreparado(s.a, s.a.(tabla := Puesta(s, T, k, |v|)), T, k, Asiento(s, k), |v|, {}, true)
  {
    CortaExacta(s, T, k);
    if k in Claves(s.a.tabla) {
      CircConserva(s.a, T, k, |v|);
    } else {
      assert Hueco(s.a.tabla, s.indice, Max(1, Paginas(|v|, T)));
      ColocadaConserva(s.a, T, k, s.indice, |v|);
    }
  }

  /** Only slots of the key or free ones change, and none behind the new index. */
  lemma PuestaMarco(s: Anillo, T: nat, k: string, v: string)
    requires Tendida(s, T) && Entra(s, T, k, v)
    ensures var r, i := Puesta(s, T, k, |v|), s.indice + Avance(s, T, k, |v|);
            && Marco(s.a.tabla, r, k) && i <= |r| && forall j | i <= j < |r| :: r[j] == LIMPIA
  {
    CortaExacta(s, T, k);
    var t := s.a.tabla;
    if k in Claves(t) {
      CircMarco(t, T, k, |v|);
      ActualizadaCircTramo(t, T, k, |v|);
      var q := ConsultarTabla(t, k);
      assert q + Paginas(t[q].tamanio, T) <= s.indice by {
        var f := q + Paginas(t[q].tamanio, T) - 1;
        assert t[f].clave == k;
      }
    }
  }

  /** The other keys stay where they are. */
  lemma OtrasQuietas(t: seq<Entrada>, r: seq<Entrada>, k: string, x: string)
    requires Marco(t, r, k) && x != k && x != VACIO
    ensures ConsultarTabla(r, x) == ConsultarTabla(t, x)
    ensures ConsultarTabla(t, x) != -1 ==> r[ConsultarTabla(t, x)] == t[ConsultarTabla(t, x)]
  {
    forall i | 0 <= i < |t| ensures r[i].clave == x <==> t[i].clave == x {}
    var q, q' := ConsultarTabla(t, x), ConsultarTabla(r, x);
    if q != -1 { assert r[q].clave == x; }
    if q' != -1 { assert t[q'].clave == x; }
  }

  lemma InofensivaEs(s: Anillo, T: nat, k: string, v: string)
    requires Tendida(s, T) && Entra(s, T, k, v)
    requires Bien(s.a.(tabla := Puesta(s, T, k, |v|)), T)
    ensures NulInocuo(s.a.(tabla := Puesta(s, T, k, |v|)), T, Asiento(s, k), |v|) <==> Inofensiva(s, T, k, v)
  {
    CortaExacta(s, T, k);
    var t, r, q, p := s.a.tabla, Puesta(s, T, k, |v|), Asiento(s, k), Paginas(|v|, T);
    if k in Claves(t) {
      ActualizadaCircTramo(t, T, k, |v|);
      assert Corrida(t, T, k);
      var P := Paginas(t[q].tamanio, T);
      if p == P && q + p < |t| { assert r[q + p] == t[q + p]; }
      if p < P { assert !Viva(r[q + p]); }
    }
  }

  /** The map that a SET should leave. */
  function ConValor(m: map<string, string>, k: string, v: string): map<string, string> {
    if v == "" then m - {k} else m[k := v]
  }

  /** The key keeps its place and its size. */
  ghost predicate Quieta(s: Anillo, r: Anillo, x: string) {
    var q := ConsultarTabla(s.a.tabla, x);
    |r.a.tabla| == |s.a.tabla| && q == ConsultarTabla(r.a.tabla, x) && (q != -1 ==> r.a.tabla[q] == s.a.tabla[q])
  }

  /** What a SET does to the table: the key has the slots of its value, and the others keep theirs. */
  ghost predicate Tiende(s: Anillo, r: Anillo, T: nat, k: string, v: string)
    requires T > 0
  {
    && Tendida(r, T) && |r.a.tabla| == |s.a.tabla| && r.flag == s.flag
    && r.indice == s.indice + (if k in Claves(s.a.tabla) then 0 else Paginas(|v|, T))
    && Claves(r.a.tabla) == Claves(s.a.tabla) - {k} + (if v == "" then {} else {k})
    && (v != "" ==>
          Tramo(r.a.tabla, k, Asiento(s, k), Paginas(|v|, T)) && r.a.tabla[Asiento(s, k)].tamanio == |v|)
    && forall x | x != k && x in Claves(s.a.tabla) :: Quieta(s, r, x)
  }

  /** A SET lays a new value behind the others, and writes one of a stored key over the old one; what
      is not free stays laid out. The map changes as it should exactly when the terminator changes
      no live slot. */
  lemma PonerTiende(s: Anillo, T: nat, modo: Modo, k: string, v: string)
    requires Tendida(s, T) && Entra(s, T, k, v)
    ensures Circular.Puede(s, T, modo, k, v)
    ensures var r := SetCIRC(s, T, modo, k, v);
            && Tiende(s, r, T, k, v)
            && (Mapa(r.a, T) == ConValor(Mapa(s.a, T), k, v) <==> Inofensiva(s, T, k, v))
  {
    PonerEs(s, T, modo, k, v);
    PuestaBien(s, T, k, v);
    PuestaMarco(s, T, k, v);
    InofensivaEs(s, T, k, v);
    var b := s.a.(tabla := Puesta(s, T, k, |v|));
    PuestaClaves(s.a, b, T, k, Asiento(s, k), |v|);
    EscrituraMapa(b, T, k, Asiento(s, k), v);
    SinNada(Mapa(s.a, T));
    EsperadoDesde(Mapa(s.a, T), Mapa(b, T), {}, k, v);
    assert Esperado(Mapa(s.a, T), {}, k, v) == ConValor(Mapa(s.a, T), k, v);
    forall x | x != k && x in Claves(s.a.tabla) ensures Quieta(s, SetCIRC(s, T, modo, k, v), x) {
      OtrasQuietas(s.a.tabla, b.tabla, k, x);
    }
  }

  lemma PuestaClaves(a: Almacen, b: Almacen, T: nat, k: string, pos: nat, n: nat)
    requires Bien(a, T) && Bien(b, T) && BienPreparado(a, b, T, k, pos, n, {}, true) && k != VACIO
    ensures Claves(b.tabla) == Claves(a.tabla) - {k} + (if n == 0 then {} else {k})
  {
    if n > 0 { assert b.tabla[pos].clave == k; }
    assert Claves(a.tabla) - {} - {k} == Claves(a.tabla) - {k};
    assert Claves(b.tabla) == Claves(b.tabla) - {k} + (if n == 0 then {} else {k});
  }

  // ---- runs ----

  /** The last SET of the key had a value. */
  predicate Guardada(os: seq<Mensaje>, k: string) { Ultimo(os, k).Some? && Ultimo(os, k).value != "" }

  /** The slots of all the values inserted: every SET of a key that was not stored. */
  function Ocupados(os: seq<Mensaje>, T: nat): nat
    requires T > 0
  {
    if |os| == 0 then 0
    else
      var previas, o := os[..|os| - 1], os[|os| - 1];
      Ocupados(previas, T) + if o.Poner? && !Guardada(previas, o.clave) then Paginas(|o.valor|, T) else 0
  }

  /** The slots inserted before the key was, the last time. */
  function Lugar(os: seq<Mensaje>, T: nat, k: string): nat
    requires T > 0
  {
    if |os| == 0 then 0
    else
      var previas, o := os[..|os| - 1], os[|os| - 1];
      if o.Poner? && o.clave == k && !Guardada(previas, k) then Ocupados(previas, T) else Lugar(previas, T, k)
  }

  /** The next message is a SET that does not grow its key, or that inserts a value of a key that is
      not stored in what is left of the table. */
  predicate Sigue(os: seq<Mensaje>, o: Mensaje, N: nat, T: nat)
    requires T > 0
  {
    && o.Poner? && o.clave != VACIO
    && if Guardada(os, o.clave) then Paginas(|o.valor|, T) <= Paginas(|Ultimo(os, o.clave).value|, T)
       else o.valor != "" && Ocupados(os, T) + Paginas(|o.valor|, T) <= N
  }

  /** Every message of the run does. */
  predicate SinVuelta(os: seq<Mensaje>, N: nat, T: nat)
    requires T > 0
  {
    |os| == 0 || (SinVuelta(os[..|os| - 1], N, T) && Sigue(os[..|os| - 1], os[|os| - 1], N, T))
  }

  /** The key stands where the run says, and nowhere else. */
  ghost predicate EnSuLugar(s: Anillo, T: nat, os: seq<Mensaje>, k: string)
    requires T > 0
  {
    && (k in Claves(s.a.tabla) <==> Guardada(os, k))
    && (Guardada(os, k) ==>
          && Lugar(os, T, k) < |s.a.tabla| && ConsultarTabla(s.a.tabla, k) == Lugar(os, T, k)
          && s.a.tabla[Lugar(os, T, k)].tamanio == |Ultimo(os, k).value|)
  }

  ghost predicate Refleja(s: Anillo, T: nat, os: seq<Mensaje>)
    requires T > 0
  {
    s.indice == Ocupados(os, T) && forall k | k != VACIO :: EnSuLugar(s, T, os, k)
  }

  lemma SigueEntra(s: Anillo, T: nat, os: seq<Mensaje>, o: Mensaje)
    requires Tendida(s, T) && Refleja(s, T, os) && Sigue(os, o, |s.a.tabla|, T)
    ensures Entra(s, T, o.clave, o.valor) && (o.clave in Claves(s.a.tabla) <==> Guardada(os, o.clave))
    ensures Asiento(s, o.clave) == if Guardada(os, o.clave) then Lugar(os, T, o.clave) else Ocupados(os, T)
  {
    assert EnSuLugar(s, T, os, o.clave);
  }

  lemma Ultimos(os: seq<Mensaje>, k: string, v: string, x: string)
    ensures Ultimo(os + [Poner(k, v)], x) == if x == k then Some(v) else Ultimo(os, x)
  {
    assert (os + [Poner(k, v)])[..|os|] == os;
  }

  lemma Sumas(os: seq<Mensaje>, T: nat, k: string, v: string, x: string)
    requires T > 0
    ensures var ps := os + [Poner(k, v)];
            && Ocupados(ps, T) == Ocupados(os, T) + (if Guardada(os, k) then 0 else Paginas(|v|, T))
            && Lugar(ps, T, x) == if x == k && !Guardada(os, k) then Ocupados(os, T) else Lugar(os, T, x)
  {
    assert (os + [Poner(k, v)])[..|os|] == os;
  }

  /** Where the key of a SET stands after it, and any other. */
  lemma EnLugarPropio(s: Anillo, r: Anillo, T: nat, os: seq<Mensaje>, k: string, v: string)
    requires T > 0 && k != VACIO && |r.a.tabla| == |s.a.tabla| && EnSuLugar(s, T, os, k)
    requires k in Claves(r.a.tabla) <==> v != ""
    requires var i := if Guardada(os, k) then Lugar(os, T, k) else Ocupados(os, T);
             v != "" ==> Tramo(r.a.tabla, k, i, Paginas(|v|, T)) && r.a.tabla[i].tamanio == |v|
    ensures EnSuLugar(r, T, os + [Poner(k, v)], k)
  {
    Ultimos(os, k, v, k);
    Sumas(os, T, k, v, k);
    if v != "" {
      PrimeroDeTramo(r.a.tabla, k, if Guardada(os, k) then Lugar(os, T, k) else Ocupados(os, T), Paginas(|v|, T));
    }
  }

  lemma EnLugarAjeno(s: Anillo, r: Anillo, T: nat, os: seq<Mensaje>, k: string, v: string, x: string)
    requires T > 0 && x != VACIO && x != k && |r.a.tabla| == |s.a.tabla| && EnSuLugar(s, T, os, x)
    requires x in Claves(r.a.tabla) <==> x in Claves(s.a.tabla)
    requires x in Claves(s.a.tabla) ==> Quieta(s, r, x)
    ensures EnSuLugar(r, T, os + [Poner(k, v)], x)
  {
    Ultimos(os, k, v, x);
    Sumas(os, T, k, v, x);
  }

  lemma TiendeEnSuLugar(s: Anillo, r: Anillo, T: nat, os: seq<Mensaje>, k: string, v: string, x: string)
    requires Tendida(s, T) && Refleja(s, T, os) && Sigue(os, Poner(k, v), |s.a.tabla|, T)
    requires Tiende(s, r, T, k, v) && x != VACIO
    ensures EnSuLugar(r, T, os + [Poner(k, v)], x)
  {
    SigueEntra(s, T, os, Poner(k, v));
    assert EnSuLugar(s, T, os, x);
    if x == k { EnLugarPropio(s, r, T, os, k, v); } else { EnLugarAjeno(s, r, T, os, k, v, x); }
  }

  lemma TiendeRefleja(s: Anillo, r: Anillo, T: nat, os: seq<Mensaje>, k: string, v: string)
    requires Tendida(s, T) && Refleja(s, T, os) && Sigue(os, Poner(k, v), |s.a.tabla|, T)
    requires Tiende(s, r, T, k, v)
    ensures Refleja(r, T, os + [Poner(k, v)])
  {
    SigueEntra(s, T, os, Poner(k, v));
    Sumas(os, T, k, v, k);
    forall x | x != VACIO ensures EnSuLugar(r, T, os + [Poner(k, v)], x) { TiendeEnSuLugar(s, r, T, os, k, v, x); }
  }

  lemma SigueRefleja(s: Anillo, T: nat, modo: Modo, os: seq<Mensaje>, k: string, v: string)
    requires Tendida(s, T) && Refleja(s, T, os) && Sigue(os, Poner(k, v), |s.a.tabla|, T)
    ensures Entra(s, T, k, v) && Circular.Puede(s, T, modo, k, v)
    ensures var r := SetCIRC(s, T, modo, k, v);
            Tendida(r, T) && Refleja(r, T, os + [Poner(k, v)]) && |r.a.tabla| == |s.a.tabla|
  {
    SigueEntra(s, T, os, Poner(k, v));
    PonerTiende(s, T, modo, k, v);
    TiendeRefleja(s, SetCIRC(s, T, modo, k, v), T, os, k, v);
  }

  ghost function Vacia(N: nat, basura: seq<char>): Anillo {
    Anillo(Almacen(seq(N, _ => LIMPIA), basura), false, 0, 0)
  }

  lemma VaciaTendida(N: nat, T: nat, basura: seq<char>)
    requires T > 0 && |basura| == N * T
    ensures Tendida(Vacia(N, basura), T) && Refleja(Vacia(N, basura), T, [])
  {}

  /** The engine after the run; the index never has to turn back. */
  ghost function Tender(os: seq<Mensaje>, N: nat, T: nat, modo: Modo, basura: seq<char>): (s: Anillo)
    requires T > 0 && |basura| == N * T && SinVuelta(os, N, T)
    ensures Tendida(s, T) && Refleja(s, T, os) && |s.a.tabla| == N
    decreases |os|
  {
    if |os| == 0 then
      VaciaTendida(N, T, basura);
      Vacia(N, basura)
    else
      var previas, o := os[..|os| - 1], os[|os| - 1];
      var s := Tender(previas, N, T, modo, basura);
      SigueRefleja(s, T, modo, previas, o.clave, o.valor);
      assert os == previas + [Poner(o.clave, o.valor)];
      SetCIRC(s, T, modo, o.clave, o.valor)
  }

  /** After any such run the index and comienzoDeEntradasLibres stand behind all the slots ever
      inserted, the stored keys are those whose last SET had a value, each on just the slots that its
      value takes, from the place where it was inserted; and the short scan finds each. */
  lemma TendidosSiempre(os: seq<Mensaje>, N: nat, T: nat, modo: Modo, basura: seq<char>, k: string)
    requires T > 0 && |basura| == N * T && SinVuelta(os, N, T) && k != VACIO
    ensures var s := Tender(os, N, T, modo, basura);
            && s.indice == s.comienzo == Ocupados(os, T) <= N
            && (k in Claves(s.a.tabla) <==> Guardada(os, k))
            && ConsultarCorta(s.a.tabla, s.comienzo, k) == (if Guardada(os, k) then Lugar(os, T, k) else -1)
            && (Guardada(os, k) ==> Tramo(s.a.tabla, k, Lugar(os, T, k), Paginas(|Ultimo(os, k).value|, T)))
            && forall i | s.indice <= i < N :: !Viva(s.a.tabla[i])
  {
    var s := Tender(os, N, T, modo, basura);
    assert EnSuLugar(s, T, os, k);
    CortaExacta(s, T, k);
    if Guardada(os, k) { assert Corrida(s.a.tabla, T, k); }
  }

  /** No terminator of the run changes a live slot. */
  ghost predicate Inofensivas(os: seq<Mensaje>, N: nat, T: nat, modo: Modo, basura: seq<char>)
    requires T > 0 && |basura| == N * T && SinVuelta(os, N, T)
    decreases |os|
  {
    |os| == 0
    || (var previas, o := os[..|os| - 1], os[|os| - 1];
        && Inofensivas(previas, N, T, modo, basura)
        && Inofensiva(Tender(previas, N, T, modo, basura), T, o.clave, o.valor))
  }

  /** And then every stored key reads the last value SET under it. */
  lemma {:induction false} TendidosAlDia(os: seq<Mensaje>, N: nat, T: nat, modo: Modo, basura: seq<char>)
    requires T > 0 && |basura| == N * T && SinVuelta(os, N, T) && Inofensivas(os, N, T, modo, basura)
    ensures AlDia(Mapa(Tender(os, N, T, modo, basura).a, T), os)
    decreases |os|
  {
    if |os| > 0 {
      var previas, o := os[..|os| - 1], os[|os| - 1];
      TendidosAlDia(previas, N, T, modo, basura);
      assert os == previas + [Poner(o.clave, o.valor)];
      SigueAlDia(Tender(previas, N, T, modo, basura), T, modo, previas, o.clave, o.valor);
    }
  }

  lemma SigueAlDia(s: Anillo, T: nat, modo: Modo, os: seq<Mensaje>, k: string, v: string)
    requires Tendida(s, T) && Refleja(s, T, os) && Sigue(os, Poner(k, v), |s.a.tabla|, T)
    requires Inofensiva(s, T, k, v) && AlDia(Mapa(s.a, T), os)
    ensures Circular.Puede(s, T, modo, k, v)
    ensures AlDia(Mapa(SetCIRC(s, T, modo, k, v).a, T), os + [Poner(k, v)])
  {
    SigueEntra(s, T, os, Poner(k, v));
    PonerTiende(s, T, modo, k, v);
    ValorAlDia(Mapa(s.a, T), os, k, v);
  }

  lemma ValorAlDia(m: map<string, string>, os: seq<Mensaje>, k: string, v: string)
    requires AlDia(m, os)
    ensures AlDia(ConValor(m, k, v), os + [Poner(k, v)])
  {
    forall x | x in ConValor(m, k, v) ensures Ultimo(os + [Poner(k, v)], x) == Some(ConValor(m, k, v)[x]) {
      Ultimos(os, k, v, x);
    }
  }
}
