/** What a SET does to the stored map and to the layout, under LRU. */
module LRUSet {
  import opened Opciones
  import opened Tabla
  import opened Arena
  import opened Compactacion
  import opened LRU

  // ---- the steps that touch no byte ----

  lemma MismaLectura(a: Almacen, b: Almacen, T: nat, k: string)
    requires Bien(a, T) && Bien(b, T) && a.mem == b.mem && |a.tabla| == |b.tabla|
    requires forall i | 0 <= i < |a.tabla| :: a.tabla[i].clave == k <==> b.tabla[i].clave == k
    requires forall i | 0 <= i < |a.tabla| && a.tabla[i].clave == k :: a.tabla[i].tamanio == b.tabla[i].tamanio
    ensures GetValue(a, T, k) == GetValue(b, T, k)
    ensures Corrida(a.tabla, T, k) ==> Corrida(b.tabla, T, k)
  {
    CorridaEnmarcada(a.tabla, b.tabla, T, k);
  }

  lemma EnvejecerConserva(a: Almacen, T: nat)
    requires Bien(a, T)
    ensures var b := a.(tabla := Envejecer(a.tabla, T));
            && Bien(b, T) && Mapa(b, T) == Mapa(a, T)
            && (Disposicion(a.tabla, T) ==> Disposicion(b.tabla, T))
  {
    var b := a.(tabla := Envejecer(a.tabla, T));
    assert Claves(b.tabla) == Claves(a.tabla) by {
      assert forall i | 0 <= i < |a.tabla| :: b.tabla[i].clave == a.tabla[i].clave;
      forall k | k in Claves(a.tabla) ensures k in Claves(b.tabla) {
        var i :| 0 <= i < |a.tabla| && Viva(a.tabla[i]) && a.tabla[i].clave == k;
        assert b.tabla[i].clave == k;
      }
    }
    forall k | k in Claves(a.tabla)
      ensures GetValue(b, T, k) == GetValue(a, T, k)
      ensures Corrida(a.tabla, T, k) ==> Corrida(b.tabla, T, k)
    {
      MismaLectura(a, b, T, k);
    }
  }

  /** A slot that records more than T bytes is never of an evictable age. */
  ghost predicate Multi(t: seq<Entrada>, T: nat) {
    forall e | e in t && Viva(e) && e.tamanio > T :: e.age == -1
  }

  /** The keys an eviction of age `vieja` drops. */
  ghost function Viejas(t: seq<Entrada>, vieja: int): set<string> {
    set i | 0 <= i < |t| && Viva(t[i]) && t[i].age == vieja :: t[i].clave
  }

  /** A key with a slot of the evicted age owns that slot only. */
  lemma ViejaDeUnSlot(t: seq<Entrada>, T: nat, vieja: int, i: nat, j: nat)
    requires T > 0 && Disposicion(t, T) && Multi(t, T) && 0 <= vieja
    requires i < |t| && Viva(t[i]) && t[i].age == vieja
    requires j < |t| && t[j].clave == t[i].clave
    ensures j == i && t[i].tamanio <= T
  {
    var k := t[i].clave;
    assert t[i] in t;
    assert k in Claves(t);
    assert Corrida(t, T, k);
  }

  /** The keys that an eviction leaves, and what each reads. */
  lemma DesalojarClave(a: Almacen, T: nat, vieja: int, k: string)
    requires Bien(a, T) && Disposicion(a.tabla, T) && Multi(a.tabla, T) && 0 <= vieja
    ensures var b := a.(tabla := Desalojar(a.tabla, vieja));
            && (k in Claves(b.tabla) <==> k in Claves(a.tabla) && k !in Viejas(a.tabla, vieja))
            && (k in Claves(b.tabla) ==> Corrida(b.tabla, T, k) && GetValue(b, T, k) == GetValue(a, T, k))
  {
    var b := a.(tabla := Desalojar(a.tabla, vieja));
    if k in Claves(a.tabla) && k !in Viejas(a.tabla, vieja) {
      var i :| 0 <= i < |a.tabla| && Viva(a.tabla[i]) && a.tabla[i].clave == k;
      assert b.tabla[i].clave == k;
      MismaLectura(a, b, T, k);
    }
    if k in Claves(b.tabla) {
      var j :| 0 <= j < |b.tabla| && Viva(b.tabla[j]) && b.tabla[j].clave == k;
      assert a.tabla[j].clave == k && a.tabla[j].age != vieja;
      if k in Viejas(a.tabla, vieja) {
        var i :| 0 <= i < |a.tabla| && Viva(a.tabla[i]) && a.tabla[i].age == vieja && a.tabla[i].clave == k;
        ViejaDeUnSlot(a.tabla, T, vieja, i, j);
      }
    }
  }

  lemma DesalojarMulti(t: seq<Entrada>, T: nat, vieja: int)
    requires Multi(t, T)
    ensures Multi(Desalojar(t, vieja), T)
  {
    var r := Desalojar(t, vieja);
    forall e | e in r && Viva(e) && e.tamanio > T
      ensures e.age == -1
    {
      var i :| 0 <= i < |r| && r[i] == e;
      assert t[i] in t;
    }
  }

  lemma DesalojarConserva(a: Almacen, T: nat, vieja: int)
    requires Bien(a, T) && Disposicion(a.tabla, T) && Multi(a.tabla, T) && 0 <= vieja
    ensures var b := a.(tabla := Desalojar(a.tabla, vieja));
            && Bien(b, T) && Disposicion(b.tabla, T) && Multi(b.tabla, T)
            && Mapa(b, T) == Mapa(a, T) - Viejas(a.tabla, vieja)
  {
    var b := a.(tabla := Desalojar(a.tabla, vieja));
    DesalojarMulti(a.tabla, T, vieja);
    forall k
      ensures k in Claves(b.tabla) <==> k in Claves(a.tabla) && k !in Viejas(a.tabla, vieja)
      ensures k in Claves(b.tabla) ==> Corrida(b.tabla, T, k) && GetValue(b, T, k) == GetValue(a, T, k)
    {
      DesalojarClave(a, T, vieja, k);
    }
    assert Claves(b.tabla) == Claves(a.tabla) - Viejas(a.tabla, vieja);
  }

  lemma VivasMiembros(t: seq<Entrada>, e: Entrada)
    ensures e in Vivas(t) <==> e in t && Viva(e)
  {}

  lemma CompactarMulti(a: Almacen, T: nat, modo: Modo, vieja: int)
    requires Bien(a, T) && Multi(a.tabla, T)
    ensures var r := Compactar(a, T, modo).tabla;
            Multi(r, T) && Viejas(r, vieja) == Viejas(a.tabla, vieja)
  {
    var r := Compactar(a, T, modo).tabla;
    CompactarTabla(a, T, modo);
    forall e: Entrada ensures e in r && Viva(e) <==> e in a.tabla && Viva(e) {
      VivasMiembros(r, e);
      VivasMiembros(a.tabla, e);
    }
    assert Viejas(r, vieja) == set e | e in r && Viva(e) && e.age == vieja :: e.clave;
    assert Viejas(a.tabla, vieja) == set e | e in a.tabla && Viva(e) && e.age == vieja :: e.clave;
  }

  // ---- the whole recursion of guardarEnTablaLRU, up to the write ----

  /** An insertion evicts when it finds no hole and either the last insertion left
      flagCompactar set or there are not free slots enough even after compacting. */
  ghost predicate Desaloja(m: Motor, p: nat) {
    BuscarEspacioLibre(m.a.tabla, p) == -1 && (m.flag || Max(1, p) > Libres(m.a.tabla))
  }

  ghost function Victimas(m: Motor, p: nat, vieja: int): set<string> {
    if Desaloja(m, p) then Viejas(m.a.tabla, vieja) else {}
  }

  lemma AptaTrasDesalojar(t: seq<Entrada>, T: nat, modo: Modo, vieja: int)
    requires Apta(t, T, modo)
    ensures Apta(Desalojar(t, vieja), T, modo)
  {}

  /** A retry leaves the keys it does not evict, and the evictions still due. */
  lemma ReintentoVictimas(m: Motor, T: nat, modo: Modo, p: nat, vieja: int)
    requires Bien(m.a, T) && Cabe(m.a.tabla, p, vieja) && 0 <= vieja
    requires Disposicion(m.a.tabla, T) && Multi(m.a.tabla, T)
    requires BuscarEspacioLibre(m.a.tabla, p) == -1
    ensures var r := Reintento(m, T, modo, vieja);
            && Disposicion(r.a.tabla, T) && Multi(r.a.tabla, T)
            && Victimas(r, p, vieja) == (if m.flag then {} else Victimas(m, p, vieja))
            && Claves(r.a.tabla) == Claves(m.a.tabla) - (if m.flag then Viejas(m.a.tabla, vieja) else {})
  {
    if m.flag {
      DesalojarConserva(m.a, T, vieja);
      var b := m.a.(tabla := Desalojar(m.a.tabla, vieja));
      assert Claves(b.tabla) == Mapa(b, T).Keys;
    } else {
      CompactarDisposicion(m.a, T, modo);
      CompactarMulti(m.a, T, modo, vieja);
      CompactarTabla(m.a, T, modo);
      BuscarEnApretada(Compactar(m.a, T, modo).tabla, p);
    }
  }

  lemma ReintentoMapa(m: Motor, T: nat, modo: Modo, vieja: int)
    requires Bien(m.a, T) && 0 <= vieja && Apta(m.a.tabla, T, modo)
    requires Disposicion(m.a.tabla, T) && Multi(m.a.tabla, T)
    ensures var r := Reintento(m, T, modo, vieja);
            && Apta(r.a.tabla, T, modo)
            && Mapa(r.a, T) == Mapa(m.a, T) - (if m.flag then Viejas(m.a.tabla, vieja) else {})
  {
    if m.flag {
      DesalojarConserva(m.a, T, vieja);
      AptaTrasDesalojar(m.a.tabla, T, modo, vieja);
    } else {
      CompactarConserva(m.a, T, modo);
    }
  }

  lemma {:induction false} HacerLugarConserva(m: Motor, T: nat, modo: Modo, p: nat, vieja: int)
    requires Bien(m.a, T) && Cabe(m.a.tabla, p, vieja) && 0 <= vieja
    requires Disposicion(m.a.tabla, T) && Multi(m.a.tabla, T)
    ensures Disposicion(HacerLugar(m, T, modo, p, vieja).a.tabla, T)
    ensures Claves(HacerLugar(m, T, modo, p, vieja).a.tabla) == Claves(m.a.tabla) - Victimas(m, p, vieja)
    decreases Intentos(m, p)
  {
    if BuscarEspacioLibre(m.a.tabla, p) == -1 {
      ReintentoAvanza(m, T, modo, p, vieja);
      ReintentoVictimas(m, T, modo, p, vieja);
      HacerLugarConserva(Reintento(m, T, modo, vieja), T, modo, p, vieja);
    }
  }

  lemma SinNada(m: map<string, string>)
    ensures m - {} == m
  {}

  lemma {:induction false} HacerLugarMapa(m: Motor, T: nat, modo: Modo, p: nat, vieja: int)
    requires Bien(m.a, T) && Cabe(m.a.tabla, p, vieja) && 0 <= vieja
    requires Disposicion(m.a.tabla, T) && Multi(m.a.tabla, T) && Apta(m.a.tabla, T, modo)
    ensures Apta(HacerLugar(m, T, modo, p, vieja).a.tabla, T, modo)
    ensures Mapa(HacerLugar(m, T, modo, p, vieja).a, T) == Mapa(m.a, T) - Victimas(m, p, vieja)
    decreases Intentos(m, p)
  {
    if BuscarEspacioLibre(m.a.tabla, p) == -1 {
      ReintentoAvanza(m, T, modo, p, vieja);
      ReintentoVictimas(m, T, modo, p, vieja);
      ReintentoMapa(m, T, modo, vieja);
      var r := Reintento(m, T, modo, vieja);
      HacerLugarMapa(r, T, modo, p, vieja);
      SinNada(Mapa(r.a, T));
      SinNada(Mapa(m.a, T));
      assert HacerLugar(m, T, modo, p, vieja) == HacerLugar(r, T, modo, p, vieja);
    } else {
      SinNada(Mapa(m.a, T));
    }
  }

  // ---- the write ----

  /** The value fills its slots exactly, so its NUL falls on the next slot, and that is live. */
  ghost predicate PisaVecino(t: seq<Entrada>, T: nat, pos: nat, n: nat)
    requires T > 0
  {
    && n == Paginas(n, T) * T
    && pos + Paginas(n, T) < |t|
    && Viva(t[pos + Paginas(n, T)])
  }

  /** The NUL after a value of n bytes at `pos` changes the first byte of no live slot: it falls on
      none, or on one that already starts with a NUL. */
  ghost predicate NulInocuo(a: Almacen, T: nat, pos: nat, n: nat)
    requires Bien(a, T)
  {
    PisaVecino(a.tabla, T, pos, n) ==> 0 <= pos * T + n < |a.mem| && a.mem[pos * T + n] == NUL
  }

  /** The slots of `k` are those a value of n bytes takes at `pos` (none for an empty value). */
  ghost predicate Reservado(t: seq<Entrada>, T: nat, k: string, pos: nat, n: nat)
    requires T > 0
  {
    && pos < |t| && pos + Paginas(n, T) <= |t|
    && (n > 0 ==> Tramo(t, k, pos, Paginas(n, T)) && t[pos].tamanio == n)
    && (n == 0 ==> k !in Claves(t) && !Viva(t[pos]))
  }

  ghost function EscribirValor(a: Almacen, T: nat, pos: nat, v: string): (b: Almacen)
    requires Bien(a, T) && pos < |a.tabla|
    ensures Bien(b, T) && b.tabla == a.tabla
  {
    Orden(pos, |a.tabla|, T);
    a.(mem := Escribir(a.mem, pos * T, v + [NUL]))
  }

  lemma EscribirAjeno(mem: seq<char>, at: nat, bytes: seq<char>, b: nat, n: nat)
    requires at <= |mem| && b + n <= |mem| && (b + n <= at || at + |bytes| <= b)
    ensures Escribir(mem, at, bytes)[b..b + n] == mem[b..b + n]
  {}

  lemma EscribirPropio(mem: seq<char>, at: nat, v: string)
    requires at + |v| <= |mem|
    ensures Escribir(mem, at, v + [NUL])[at..at + |v|] == v
    ensures at + |v| < |mem| ==> Escribir(mem, at, v + [NUL])[at + |v|] == NUL
  {}

  /** The bytes of the slots that a value of n bytes takes at `pos`. */
  lemma CotaDeReserva(a: Almacen, T: nat, pos: nat, n: nat)
    requires Bien(a, T) && pos + Paginas(n, T) <= |a.tabla|
    ensures pos * T + n <= (pos + Paginas(n, T)) * T <= |a.mem|
    ensures n != Paginas(n, T) * T ==> pos * T + n < (pos + Paginas(n, T)) * T
    ensures n == Paginas(n, T) * T ==> pos * T + n == (pos + Paginas(n, T)) * T
  {
    var p := Paginas(n, T);
    PaginasEsTecho(n, T);
    assert (pos + p) * T == pos * T + p * T;
    CotaIndice(pos + p, |a.tabla|, T);
  }

  lemma LeeLoEscrito(a: Almacen, T: nat, k: string, pos: nat, v: string)
    requires Bien(a, T) && v != "" && Reservado(a.tabla, T, k, pos, |v|)
    ensures GetValue(EscribirValor(a, T, pos, v), T, k) == Some(v)
  {
    PrimeroDeTramo(a.tabla, k, pos, Paginas(|v|, T));
    CotaDeReserva(a, T, pos, |v|);
    EscribirPropio(a.mem, pos * T, v);
  }

  /** Where the run of another key can stand. */
  lemma Separadas(t: seq<Entrada>, T: nat, k: string, pos: nat, n: nat, k': string)
    requires T > 0 && Reservado(t, T, k, pos, n) && k' != k && k' != VACIO && Corrida(t, T, k')
    ensures var q := ConsultarTabla(t, k');
            q + Paginas(t[q].tamanio, T) <= pos || pos + Paginas(n, T) <= q
  {
    var q := ConsultarTabla(t, k');
    assert t[pos].clave != k';
    assert t[q].clave != k;
  }

  lemma BytesSeparados(a: Almacen, T: nat, pos: nat, n: nat, q: nat, m: nat)
    requires Bien(a, T) && pos + Paginas(n, T) <= |a.tabla| && q + Paginas(m, T) <= |a.tabla|
    requires q + Paginas(m, T) <= pos || pos + Paginas(n, T) <= q
    requires q != pos + Paginas(n, T) || n != Paginas(n, T) * T
    ensures 0 <= q * T && q * T + m <= |a.mem| && 0 <= pos * T <= |a.mem|
    ensures q * T + m <= pos * T || pos * T + n + 1 <= q * T
  {
    CotaDeReserva(a, T, pos, n);
    CotaDeReserva(a, T, q, m);
    if q + Paginas(m, T) <= pos {
      CotaIndice(q + Paginas(m, T), pos, T);
    } else if q > pos + Paginas(n, T) {
      Orden(pos + Paginas(n, T), q, T);
    }
  }

  /** A write leaves alone every key but its own and the one standing where the NUL falls. */
  lemma EscrituraAjena(a: Almacen, T: nat, k: string, pos: nat, v: string, k': string)
    requires Bien(a, T) && Reservado(a.tabla, T, k, pos, |v|)
    requires k' != k && k' != VACIO && Corrida(a.tabla, T, k')
    requires ConsultarTabla(a.tabla, k') != pos + Paginas(|v|, T) || |v| != Paginas(|v|, T) * T
    ensures GetValue(EscribirValor(a, T, pos, v), T, k') == GetValue(a, T, k')
  {
    var q := ConsultarTabla(a.tabla, k');
    Separadas(a.tabla, T, k, pos, |v|, k');
    LeeIgual(a, T, pos, v, q, a.tabla[q].tamanio);
  }

  lemma LeeIgual(a: Almacen, T: nat, pos: nat, v: string, q: nat, m: nat)
    requires Bien(a, T) && pos < |a.tabla| && pos + Paginas(|v|, T) <= |a.tabla| && q + Paginas(m, T) <= |a.tabla|
    requires q + Paginas(m, T) <= pos || pos + Paginas(|v|, T) <= q
    requires q != pos + Paginas(|v|, T) || |v| != Paginas(|v|, T) * T
    ensures q * T <= |a.mem| && Leer(EscribirValor(a, T, pos, v).mem, q * T, m) == Leer(a.mem, q * T, m)
  {
    BytesSeparados(a, T, pos, |v|, q, m);
    var at, b, bytes := pos * T, q * T, v + [NUL];
    assert b + m <= at || at + |bytes| <= b;
    EscribirAjeno(a.mem, at, bytes, b, m);
    assert EscribirValor(a, T, pos, v).mem == Escribir(a.mem, at, bytes);
  }

  /** The neighbour starts at the slot where the NUL falls. */
  lemma Vecino(t: seq<Entrada>, T: nat, k: string, pos: nat, n: nat) returns (k': string)
    requires T > 0 && Disposicion(t, T) && Reservado(t, T, k, pos, n) && PisaVecino(t, T, pos, n)
    ensures k' != k && k' in Claves(t) && ConsultarTabla(t, k') == pos + Paginas(n, T)
    ensures t[pos + Paginas(n, T)].tamanio > 0
  {
    var s := pos + Paginas(n, T);
    k' := t[s].clave;
    assert k' in Claves(t);
    assert Corrida(t, T, k');
    Separadas(t, T, k, pos, n, k');
  }

  lemma PrimerByte(a: Almacen, T: nat, k: string, q: nat, at: nat)
    requires Bien(a, T) && ConsultarTabla(a.tabla, k) == q && a.tabla[q].tamanio > 0 && at == q * T < |a.mem|
    ensures GetValue(a, T, k).value != "" && GetValue(a, T, k).value[0] == a.mem[at]
  {
    ValorEn(a, T, k, q);
  }

  /** The key whose first byte a NUL changes loses its value. */
  lemma EscrituraPisa(a: Almacen, T: nat, k: string, pos: nat, v: string) returns (k': string)
    requires Bien(a, T) && Disposicion(a.tabla, T) && Reservado(a.tabla, T, k, pos, |v|)
    requires !NulInocuo(a, T, pos, |v|)
    ensures k' != k && k' in Claves(a.tabla)
    ensures GetValue(a, T, k') != GetValue(EscribirValor(a, T, pos, v), T, k')
  {
    k' := Vecino(a.tabla, T, k, pos, |v|);
    ByteDelNul(a, T, pos, |v|);
    VecinaCambia(a, EscribirValor(a, T, pos, v), T, pos + Paginas(|v|, T), k', pos * T, v);
  }

  lemma VecinaCambia(a: Almacen, b: Almacen, T: nat, q: nat, k': string, at: nat, v: string)
    requires Bien(a, T) && Bien(b, T) && b.tabla == a.tabla && ConsultarTabla(a.tabla, k') == q
    requires a.tabla[q].tamanio > 0
    requires at + |v| == q * T < |a.mem| && a.mem[at + |v|] != NUL && b.mem == Escribir(a.mem, at, v + [NUL])
    ensures GetValue(b, T, k') != GetValue(a, T, k')
  {
    EscribirPropio(a.mem, at, v);
    PrimerByte(a, T, k', q, at + |v|);
    PrimerByte(b, T, k', q, at + |v|);
  }

  /** The NUL falls on the first byte of the slot after the value. */
  lemma ByteDelNul(a: Almacen, T: nat, pos: nat, n: nat)
    requires Bien(a, T) && PisaVecino(a.tabla, T, pos, n)
    ensures 0 <= pos * T <= |a.mem| && pos * T + n == (pos + Paginas(n, T)) * T < |a.mem|
  {
    CotaDeReserva(a, T, pos, n);
    Orden(pos + Paginas(n, T), |a.tabla|, T);
    CotaIndice(0, pos, T);
  }

  /** A NUL over a NUL changes nothing past the value. */
  lemma NulSobreNul(mem: seq<char>, at: nat, v: string, n: nat)
    requires at + |v| < |mem| && mem[at + |v|] == NUL
    ensures Leer(Escribir(mem, at, v + [NUL]), at + |v|, n) == Leer(mem, at + |v|, n)
  {}

  lemma VecinaLee(a: Almacen, b: Almacen, T: nat, q: nat, k': string, at: nat, v: string)
    requires Bien(a, T) && Bien(b, T) && b.tabla == a.tabla && ConsultarTabla(a.tabla, k') == q
    requires at + |v| == q * T < |a.mem| && a.mem[at + |v|] == NUL && b.mem == Escribir(a.mem, at, v + [NUL])
    ensures GetValue(b, T, k') == GetValue(a, T, k')
  {
    ValorEn(a, T, k', q);
    ValorEn(b, T, k', q);
    NulSobreNul(a.mem, at, v, a.tabla[q].tamanio);
  }

  lemma EscrituraVecina(a: Almacen, T: nat, pos: nat, v: string, k': string)
    requires Bien(a, T) && pos < |a.tabla| && PisaVecino(a.tabla, T, pos, |v|) && NulInocuo(a, T, pos, |v|)
    requires ConsultarTabla(a.tabla, k') == pos + Paginas(|v|, T)
    ensures GetValue(EscribirValor(a, T, pos, v), T, k') == GetValue(a, T, k')
  {
    ByteDelNul(a, T, pos, |v|);
    VecinaLee(a, EscribirValor(a, T, pos, v), T, pos + Paginas(|v|, T), k', pos * T, v);
  }

  lemma EscrituraFiel(a: Almacen, T: nat, k: string, pos: nat, v: string)
    requires Bien(a, T) && Disposicion(a.tabla, T) && Reservado(a.tabla, T, k, pos, |v|) && k != VACIO
    requires NulInocuo(a, T, pos, |v|)
    ensures Mapa(EscribirValor(a, T, pos, v), T) == if v == "" then Mapa(a, T) else Mapa(a, T)[k := v]
  {
    var b := EscribirValor(a, T, pos, v);
    if v != "" {
      LeeLoEscrito(a, T, k, pos, v);
      assert a.tabla[pos].clave == k;
    }
    forall k' | k' in Claves(a.tabla) && k' != k
      ensures GetValue(b, T, k') == GetValue(a, T, k')
    {
      assert Corrida(a.tabla, T, k');
      EscrituraOtra(a, T, k, pos, v, k');
    }
    MapaTrasEscribir(a, b, T, k, v);
  }

  lemma EscrituraOtra(a: Almacen, T: nat, k: string, pos: nat, v: string, k': string)
    requires Bien(a, T) && Reservado(a.tabla, T, k, pos, |v|) && NulInocuo(a, T, pos, |v|)
    requires k' != k && k' != VACIO && Corrida(a.tabla, T, k')
    ensures GetValue(EscribirValor(a, T, pos, v), T, k') == GetValue(a, T, k')
  {
    var q := ConsultarTabla(a.tabla, k');
    if q == pos + Paginas(|v|, T) && |v| == Paginas(|v|, T) * T {
      assert a.tabla[q].clave == k';
      EscrituraVecina(a, T, pos, v, k');
    } else {
      EscrituraAjena(a, T, k, pos, v, k');
    }
  }

  lemma MapaTrasEscribir(a: Almacen, b: Almacen, T: nat, k: string, v: string)
    requires Bien(a, T) && Bien(b, T) && b.tabla == a.tabla
    requires if v == "" then k !in Claves(a.tabla) else k in Claves(a.tabla) && GetValue(b, T, k) == Some(v)
    requires forall k' | k' in Claves(a.tabla) && k' != k :: GetValue(b, T, k') == GetValue(a, T, k')
    ensures Mapa(b, T) == if v == "" then Mapa(a, T) else Mapa(a, T)[k := v]
  {}

  /** The exact effect of the write: the map gains `v`, and nothing else changes, if and only
      if its terminator changes no live slot. */
  lemma EscrituraMapa(a: Almacen, T: nat, k: string, pos: nat, v: string)
    requires Bien(a, T) && Disposicion(a.tabla, T) && Reservado(a.tabla, T, k, pos, |v|) && k != VACIO
    ensures Mapa(EscribirValor(a, T, pos, v), T)
         == (if v == "" then Mapa(a, T) else Mapa(a, T)[k := v])
       <==> NulInocuo(a, T, pos, |v|)
  {
    if NulInocuo(a, T, pos, |v|) {
      EscrituraFiel(a, T, k, pos, v);
    } else {
      var k' := EscrituraPisa(a, T, k, pos, v);
      MapaDifiere(a, EscribirValor(a, T, pos, v), T, k, v, k');
    }
  }

  lemma MapaDifiere(a: Almacen, b: Almacen, T: nat, k: string, v: string, k': string)
    requires Bien(a, T) && Bien(b, T) && b.tabla == a.tabla && k' in Claves(a.tabla) && k' != k
    requires GetValue(a, T, k') != GetValue(b, T, k')
    ensures Mapa(b, T) != Mapa(a, T) && Mapa(b, T) != Mapa(a, T)[k := v]
  {
    assert Mapa(a, T)[k := v][k'] == Mapa(a, T)[k'];
    assert ConsultarTabla(a.tabla, k') != -1;
  }
}
