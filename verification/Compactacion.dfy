/** compactar: free slots are bubbled to the end of the table, a block of as many slots as
    the gap is long at a time. The source copies `tamanio` bytes for every slot it moves
    (PorTamanio); PorSlot is the same loop copying the T bytes of the slot. */
module Compactacion {
  import opened Tabla
  import opened Arena

  datatype Modo = PorTamanio | PorSlot

  const LIMPIA := Entrada(VACIO, 0, 0)

  function BytesCopiados(e: Entrada, T: nat, modo: Modo): nat {
    if modo.PorTamanio? then e.tamanio else T
  }

  /** Slot x+c goes to slot x. */
  ghost function MoverSlot(a: Almacen, T: nat, modo: Modo, x: nat, c: nat): (r: Almacen)
    requires Bien(a, T) && x + c < |a.tabla|
    ensures Bien(r, T) && |r.tabla| == |a.tabla|
  {
    Orden(x + c, |a.tabla|, T);
    CotaIndice(x, x + c, T);
    Almacen(a.tabla[x := a.tabla[x + c]][x + c := LIMPIA],
            Copiar(a.mem, x * T, (x + c) * T, BytesCopiados(a.tabla[x + c], T, modo)))
  }

  /** Slots x.. below `k` each take the entry c places to their right, where there is one. */
  ghost function MoverBloque(a: Almacen, T: nat, modo: Modo, x: nat, k: nat, c: nat): (r: Almacen)
    requires Bien(a, T)
    ensures Bien(r, T) && |r.tabla| == |a.tabla|
    decreases k - x
  {
    if x >= k then a
    else MoverBloque(if x + c < |a.tabla| then MoverSlot(a, T, modo, x, c) else a, T, modo, x + 1, k, c)
  }

  /** Length of the stretch of free slots that starts at slot i. */
  function LargoVacio(t: seq<Entrada>, i: nat): (c: nat)
    requires i <= |t|
    ensures i + c <= |t|
    ensures forall j | i <= j < i + c :: !Viva(t[j])
    ensures i + c < |t| ==> Viva(t[i + c])
    decreases |t| - i
  {
    if i == |t| || Viva(t[i]) then 0 else 1 + LargoVacio(t, i + 1)
  }

  /** The outer loop of compactar, from slot i. */
  ghost function CompactarDesde(a: Almacen, T: nat, modo: Modo, i: nat): (r: Almacen)
    requires Bien(a, T)
    ensures Bien(r, T) && |r.tabla| == |a.tabla|
    decreases |a.tabla| - i
  {
    if i >= |a.tabla| then a
    else if Viva(a.tabla[i]) then CompactarDesde(a, T, modo, i + 1)
    else
      var c := LargoVacio(a.tabla, i);
      CompactarDesde(MoverBloque(a, T, modo, i, i + c, c), T, modo, i + 1)
  }

  ghost function Compactar(a: Almacen, T: nat, modo: Modo): (r: Almacen)
    requires Bien(a, T)
    ensures Bien(r, T) && |r.tabla| == |a.tabla|
  {
    CompactarDesde(a, T, modo, 0)
  }

  /** The value of comienzoDeEntradasLibres and indexCircular after a compaction. */
  function PrimeraLibre(t: seq<Entrada>): (e: nat)
    ensures e <= |t|
    ensures forall j | 0 <= j < e :: Viva(t[j])
    ensures e < |t| ==> !Viva(t[e])
  {
    if |t| == 0 || !Viva(t[0]) then 0 else 1 + PrimeraLibre(t[1..])
  }

  /** The non-empty cells, in order. */
  ghost function Ocupadas(c: seq<Celda>): seq<Celda> {
    if |c| == 0 then [] else (if c[0].Libre? then [] else [c[0]]) + Ocupadas(c[1..])
  }

  lemma OcupadasConcat(a: seq<Celda>, b: seq<Celda>)
    ensures Ocupadas(a + b) == Ocupadas(a) + Ocupadas(b)
  {
    if |a| == 0 {
      assert a + b == b;
    } else {
      assert (a + b)[1..] == a[1..] + b;
    }
  }

  lemma OcupadasDeLibres(c: seq<Celda>)
    requires forall i | 0 <= i < |c| :: c[i].Libre?
    ensures Ocupadas(c) == []
  {}

  lemma OcupadasDeVivas(c: seq<Celda>)
    requires forall i | 0 <= i < |c| :: c[i].Ocupada?
    ensures Ocupadas(c) == c
  {}

  /** A cell that crosses free cells does not change the sequence of occupied ones. */
  lemma CruzaLibres(c: seq<Celda>, x: nat, y: nat)
    requires x < y < |c|
    requires forall j | x <= j < y :: c[j].Libre?
    ensures Ocupadas(c[x := c[y]][y := Libre]) == Ocupadas(c)
  {
    var d := c[x := c[y]][y := Libre];
    var A, E, B := c[..x], c[x..y], c[y + 1..];
    assert c == A + (E + ([c[y]] + B));
    assert d == A + ([c[y]] + (d[x + 1..y + 1] + B));
    OcupadasDeLibres(E);
    OcupadasDeLibres(d[x + 1..y + 1]);
    OcupadasConcat(A, E + ([c[y]] + B));
    OcupadasConcat(E, [c[y]] + B);
    OcupadasConcat(A, [c[y]] + (d[x + 1..y + 1] + B));
    OcupadasConcat([c[y]], d[x + 1..y + 1] + B);
    OcupadasConcat([c[y]], B);
    OcupadasConcat(d[x + 1..y + 1], B);
  }

  /** When the copy of every slot is sure not to reach the slots still to be moved: the
      gap is at least one slot, so a copy of at most 2T bytes ends before its source does. */
  predicate Apta(t: seq<Entrada>, T: nat, modo: Modo) {
    modo.PorSlot? || forall i | 0 <= i < |t| :: t[i].tamanio <= 2 * T
  }

  lemma CopiarAjeno(mem: seq<char>, dst: nat, src: nat, n: nat, at: nat, m: nat)
    requires dst <= src <= |mem| && at + m <= |mem|
    requires at + m <= dst || dst + n <= at
    ensures Copiar(mem, dst, src, n)[at..at + m] == mem[at..at + m]
  {}

  lemma CopiarPropio(mem: seq<char>, dst: nat, src: nat, n: nat, m: nat)
    requires dst <= src && src + m <= |mem| && m <= n
    ensures Copiar(mem, dst, src, n)[dst..dst + m] == mem[src..src + m]
  {}

  /** The copy does not reach slot z. */
  lemma LejosDeLaCopia(T: nat, x: nat, c: nat, z: nat, n: nat, m: nat, N: nat)
    requires x + c < N && c >= 1 && n <= 2 * T && m <= T && (z < x || x + c < z < N)
    ensures 0 <= x * T <= (x + c) * T <= N * T && 0 <= z * T && z * T + m <= N * T
    ensures z * T + m <= x * T || x * T + n <= z * T
  {
    CotaIndice(0, z, T);
    CotaIndice(0, x, T);
    Orden(z, N, T);
    Orden(x + c, N, T);
    Orden(x, x + c, T);
    if z < x { Orden(z, x, T); } else { Orden(x + c, z, T); }
  }

  lemma CeldaIgual(a: Almacen, r: Almacen, T: nat, z: nat, z': nat)
    requires Bien(a, T) && Bien(r, T) && z < |a.tabla| && z' < |r.tabla| && r.tabla[z'] == a.tabla[z]
    requires var m := Min(T, a.tabla[z].tamanio);
             && 0 <= z * T && z * T + m <= |a.mem| && 0 <= z' * T && z' * T + m <= |r.mem|
             && r.mem[z' * T..z' * T + m] == a.mem[z * T..z * T + m]
    ensures CeldaEn(r, T, z') == CeldaEn(a, T, z)
  {}

  /** A move leaves alone every slot but the two it names and the gap between them. */
  lemma MoverSlotAjeno(a: Almacen, T: nat, modo: Modo, x: nat, c: nat, z: nat)
    requires Bien(a, T) && x + c < |a.tabla| && c >= 1 && BytesCopiados(a.tabla[x + c], T, modo) <= 2 * T
    requires z < x || x + c < z < |a.tabla|
    ensures CeldaEn(MoverSlot(a, T, modo, x, c), T, z) == CeldaEn(a, T, z)
  {
    var n, m := BytesCopiados(a.tabla[x + c], T, modo), Min(T, a.tabla[z].tamanio);
    LejosDeLaCopia(T, x, c, z, n, m, |a.tabla|);
    CopiarAjeno(a.mem, x * T, (x + c) * T, n, z * T, m);
    CeldaIgual(a, MoverSlot(a, T, modo, x, c), T, z, z);
  }

  lemma MoverSlotPropio(a: Almacen, T: nat, modo: Modo, x: nat, c: nat)
    requires Bien(a, T) && x + c < |a.tabla| && c >= 1
    ensures CeldaEn(MoverSlot(a, T, modo, x, c), T, x) == CeldaEn(a, T, x + c)
  {
    Orden(x + c, |a.tabla|, T);
    Orden(x, x + c, T);
    CotaIndice(0, x, T);
    var n, m := BytesCopiados(a.tabla[x + c], T, modo), Min(T, a.tabla[x + c].tamanio);
    CopiarPropio(a.mem, x * T, (x + c) * T, n, m);
    CeldaIgual(a, MoverSlot(a, T, modo, x, c), T, x + c, x);
  }

  lemma MoverSlotCeldas(a: Almacen, T: nat, modo: Modo, x: nat, c: nat)
    requires Bien(a, T) && x + c < |a.tabla| && c >= 1 && Apta(a.tabla, T, modo)
    requires forall j | x <= j < x + c :: !Viva(a.tabla[j])
    ensures var r := MoverSlot(a, T, modo, x, c);
            && Celdas(r, T) == Celdas(a, T)[x := Celdas(a, T)[x + c]][x + c := Libre]
            && Apta(r.tabla, T, modo)
  {
    var r, d := MoverSlot(a, T, modo, x, c), Celdas(a, T)[x := Celdas(a, T)[x + c]][x + c := Libre];
    forall z | 0 <= z < |d|
      ensures Celdas(r, T)[z] == d[z]
    {
      if z == x { MoverSlotPropio(a, T, modo, x, c); }
      else if z < x || x + c < z { MoverSlotAjeno(a, T, modo, x, c, z); }
    }
  }

  /** Live slots first, then free ones. */
  predicate Apretada(t: seq<Entrada>) {
    forall j | PrimeraLibre(t) <= j < |t| :: !Viva(t[j])
  }

  lemma {:induction false} MoverBloqueCeldas(a: Almacen, T: nat, modo: Modo, x: nat, k: nat, c: nat)
    requires Bien(a, T) && c >= 1 && Apta(a.tabla, T, modo)
    requires x <= k && x + c <= |a.tabla|
    requires forall j | x <= j < x + c :: !Viva(a.tabla[j])
    ensures var r := MoverBloque(a, T, modo, x, k, c);
            && Ocupadas(Celdas(r, T)) == Ocupadas(Celdas(a, T))
            && Apta(r.tabla, T, modo)
            && (forall j | 0 <= j < x :: r.tabla[j] == a.tabla[j])
            && (x < k && x + c < |a.tabla| ==> r.tabla[x] == a.tabla[x + c])
            && (x + c >= |a.tabla| ==> r == a)
    decreases k - x
  {
    if x < k {
      if x + c < |a.tabla| {
        MoverSlotCeldas(a, T, modo, x, c);
        CruzaLibres(Celdas(a, T), x, x + c);
        MoverBloqueCeldas(MoverSlot(a, T, modo, x, c), T, modo, x + 1, k, c);
      } else {
        MoverBloqueQuieto(a, T, modo, x, k, c);
      }
    }
  }

  lemma MoverBloqueQuieto(a: Almacen, T: nat, modo: Modo, x: nat, k: nat, c: nat)
    requires Bien(a, T) && x + c >= |a.tabla|
    ensures MoverBloque(a, T, modo, x, k, c) == a
    decreases k - x
  {
    if x < k { MoverBloqueQuieto(a, T, modo, x + 1, k, c); }
  }

  lemma {:induction false} CompactarDesdeQuieta(a: Almacen, T: nat, modo: Modo, i: nat)
    requires Bien(a, T) && Apretada(a.tabla)
    ensures CompactarDesde(a, T, modo, i) == a
    decreases |a.tabla| - i
  {
    if i < |a.tabla| {
      if !Viva(a.tabla[i]) {
        var c := LargoVacio(a.tabla, i);
        assert i >= PrimeraLibre(a.tabla);
        MoverBloqueQuieto(a, T, modo, i, i + c, c);
      }
      CompactarDesdeQuieta(a, T, modo, i + 1);
    }
  }

  /** The first gap is filled. */
  lemma HuecoCeldas(a: Almacen, T: nat, modo: Modo, i: nat) returns (b: Almacen)
    requires Bien(a, T) && Apta(a.tabla, T, modo) && i < |a.tabla| && !Viva(a.tabla[i])
    requires i + LargoVacio(a.tabla, i) < |a.tabla| && forall j | 0 <= j < i :: Viva(a.tabla[j])
    ensures Bien(b, T) && b == MoverBloque(a, T, modo, i, i + LargoVacio(a.tabla, i), LargoVacio(a.tabla, i))
    ensures Ocupadas(Celdas(b, T)) == Ocupadas(Celdas(a, T)) && Apta(b.tabla, T, modo)
    ensures |b.tabla| == |a.tabla| && forall j | 0 <= j < i + 1 :: Viva(b.tabla[j])
  {
    var c := LargoVacio(a.tabla, i);
    b := MoverBloque(a, T, modo, i, i + c, c);
    MoverBloqueCeldas(a, T, modo, i, i + c, c);
  }

  lemma Desenrolla(a: Almacen, T: nat, modo: Modo, i: nat)
    requires Bien(a, T) && i < |a.tabla| && !Viva(a.tabla[i])
    ensures var c := LargoVacio(a.tabla, i);
            CompactarDesde(a, T, modo, i) == CompactarDesde(MoverBloque(a, T, modo, i, i + c, c), T, modo, i + 1)
  {}

  lemma ApretadaDesde(t: seq<Entrada>, i: nat)
    requires i <= |t| && (forall j | 0 <= j < i :: Viva(t[j])) && forall j | i <= j < |t| :: !Viva(t[j])
    ensures Apretada(t)
  {
    var e := PrimeraLibre(t);
    assert e < |t| ==> !Viva(t[e]);
    assert e >= i;
  }

  /** `r` holds the same occupied cells as `a`, at the start of its table. */
  ghost predicate Juntada(a: Almacen, r: Almacen, T: nat, modo: Modo)
    requires Bien(a, T) && Bien(r, T)
  {
    Ocupadas(Celdas(r, T)) == Ocupadas(Celdas(a, T)) && Apta(r.tabla, T, modo) && Apretada(r.tabla)
  }

  lemma {:induction false} CompactarDesdeCeldas(a: Almacen, T: nat, modo: Modo, i: nat, r: Almacen)
    requires Bien(a, T) && Apta(a.tabla, T, modo) && i <= |a.tabla|
    requires forall j | 0 <= j < i :: Viva(a.tabla[j])
    requires r == CompactarDesde(a, T, modo, i)
    ensures Juntada(a, r, T, modo)
    decreases |a.tabla| - i
  {
    if i == |a.tabla| {
    } else if Viva(a.tabla[i]) {
      CompactarDesdeCeldas(a, T, modo, i + 1, r);
    } else if i + LargoVacio(a.tabla, i) == |a.tabla| {
      ApretadaDesde(a.tabla, i);
      CompactarDesdeQuieta(a, T, modo, i);
    } else {
      var b := HuecoCeldas(a, T, modo, i);
      Desenrolla(a, T, modo, i);
      CompactarDesdeCeldas(b, T, modo, i + 1, r);
      JuntadaTras(a, b, r, T, modo);
    }
  }

  lemma JuntadaTras(a: Almacen, b: Almacen, r: Almacen, T: nat, modo: Modo)
    requires Bien(a, T) && Bien(b, T) && Bien(r, T) && Juntada(b, r, T, modo)
    requires Ocupadas(Celdas(b, T)) == Ocupadas(Celdas(a, T))
    ensures Juntada(a, r, T, modo)
  {}

  lemma OcupadasMiembros(c: seq<Celda>, x: Celda)
    ensures x in Ocupadas(c) <==> x in c && x.Ocupada?
  {}

  lemma CeldasApretadas(a: Almacen, T: nat)
    requires Bien(a, T) && Apretada(a.tabla)
    ensures Celdas(a, T)[..PrimeraLibre(a.tabla)] == Ocupadas(Celdas(a, T))
  {
    var c, e := Celdas(a, T), PrimeraLibre(a.tabla);
    OcupadasDeVivas(c[..e]);
    OcupadasDeLibres(c[e..]);
    OcupadasConcat(c[..e], c[e..]);
    assert c == c[..e] + c[e..];
  }

  lemma ClaveEnCeldas(a: Almacen, T: nat, k: string)
    requires Bien(a, T) && k != VACIO
    ensures k in Claves(a.tabla) <==> exists x :: x in Ocupadas(Celdas(a, T)) && x.Ocupada? && x.entrada.clave == k
  {
    var c := Celdas(a, T);
    if k in Claves(a.tabla) {
      var i :| 0 <= i < |a.tabla| && a.tabla[i].clave == k;
      OcupadasMiembros(c, c[i]);
    }
    if x :| x in Ocupadas(c) && x.Ocupada? && x.entrada.clave == k {
      OcupadasMiembros(c, x);
    }
  }

  /** Cell i belongs to key `k`. */
  ghost predicate De(x: Celda, k: string) { x.Ocupada? && x.entrada.clave == k }

  lemma OcupadasAjenas(c: seq<Celda>, k: string)
    requires forall i | 0 <= i < |c| :: !De(c[i], k)
    ensures forall i | 0 <= i < |Ocupadas(c)| :: !De(Ocupadas(c)[i], k)
  {
    forall i | 0 <= i < |Ocupadas(c)|
      ensures !De(Ocupadas(c)[i], k)
    {
      OcupadasMiembros(c, Ocupadas(c)[i]);
    }
  }

  /** A run lies whole, and alone, in the sequence of occupied cells. */
  lemma OcupadasTres(A: seq<Celda>, B: seq<Celda>, C: seq<Celda>)
    requires forall i | 0 <= i < |B| :: B[i].Ocupada?
    ensures Ocupadas(A + (B + C)) == Ocupadas(A) + (B + Ocupadas(C))
  {
    OcupadasConcat(A, B + C);
    OcupadasConcat(B, C);
    OcupadasDeVivas(B);
  }

  lemma OcupadasPartidas(A: seq<Celda>, B: seq<Celda>, C: seq<Celda>, k: string)
    requires forall i | 0 <= i < |A| :: !De(A[i], k)
    requires forall i | 0 <= i < |B| :: De(B[i], k)
    requires forall i | 0 <= i < |C| :: !De(C[i], k)
    ensures var o := Ocupadas(A + (B + C));
            && |Ocupadas(A)| + |B| <= |o| && o[|Ocupadas(A)|..|Ocupadas(A)| + |B|] == B
            && forall i | 0 <= i < |o| :: De(o[i], k) <==> |Ocupadas(A)| <= i < |Ocupadas(A)| + |B|
  {
    OcupadasTres(A, B, C);
    OcupadasAjenas(A, k);
    OcupadasAjenas(C, k);
    Encajada(Ocupadas(A), B, Ocupadas(C), k);
  }

  lemma CorridaEnOcupadas(c: seq<Celda>, q: nat, P: nat, k: string) returns (q': nat)
    requires q + P <= |c|
    requires forall i | 0 <= i < |c| :: De(c[i], k) <==> q <= i < q + P
    ensures q' + P <= |Ocupadas(c)|
    ensures Ocupadas(c)[q'..q' + P] == c[q..q + P]
    ensures forall i | 0 <= i < |Ocupadas(c)| :: De(Ocupadas(c)[i], k) <==> q' <= i < q' + P
  {
    var A, B, C := c[..q], c[q..q + P], c[q + P..];
    assert c == A + (B + C);
    OcupadasPartidas(A, B, C, k);
    q' := |Ocupadas(A)|;
  }

  lemma Encajada(a: seq<Celda>, b: seq<Celda>, c: seq<Celda>, k: string)
    requires forall i | 0 <= i < |a| :: !De(a[i], k)
    requires forall i | 0 <= i < |b| :: De(b[i], k)
    requires forall i | 0 <= i < |c| :: !De(c[i], k)
    ensures (a + (b + c))[|a|..|a| + |b|] == b
    ensures forall i | 0 <= i < |a + (b + c)| :: De((a + (b + c))[i], k) <==> |a| <= i < |a| + |b|
  {}

  /** In a tight arena the run of `k` stands where the occupied cells say. */
  lemma CorridaApretada(a: Almacen, r: Almacen, T: nat, k: string) returns (q': nat)
    requires Bien(a, T) && Bien(r, T) && Apretada(r.tabla) && k != VACIO
    requires Ocupadas(Celdas(a, T)) == Ocupadas(Celdas(r, T))
    requires Corrida(a.tabla, T, k)
    ensures var q := ConsultarTabla(a.tabla, k);
            var P := Paginas(a.tabla[q].tamanio, T);
            && Tramo(r.tabla, k, q', P)
            && Celdas(r, T)[q'..q' + P] == Celdas(a, T)[q..q + P]
  {
    var q := ConsultarTabla(a.tabla, k);
    q' := TramoJuntado(a, r, T, k, q, Paginas(a.tabla[q].tamanio, T));
  }

  /** A stretch of one key, among the occupied cells of a tight arena. */
  lemma TramoJuntado(a: Almacen, r: Almacen, T: nat, k: string, q: nat, P: nat) returns (q': nat)
    requires Bien(a, T) && Bien(r, T) && Apretada(r.tabla) && k != VACIO
    requires Ocupadas(Celdas(a, T)) == Ocupadas(Celdas(r, T)) && Tramo(a.tabla, k, q, P) && P >= 1
    ensures Tramo(r.tabla, k, q', P)
    ensures Celdas(r, T)[q'..q' + P] == Celdas(a, T)[q..q + P]
  {
    CeldasDeTramo(a, T, k, q, P);
    q' := CorridaEnOcupadas(Celdas(a, T), q, P, k);
    CeldasApretadas(r, T);
    TramoApretado(r, T, k, q', P);
  }

  lemma CeldasDeTramo(a: Almacen, T: nat, k: string, q: nat, P: nat)
    requires Bien(a, T) && k != VACIO && Tramo(a.tabla, k, q, P)
    ensures forall i | 0 <= i < |a.tabla| :: De(Celdas(a, T)[i], k) <==> q <= i < q + P
  {}

  lemma TramoApretado(r: Almacen, T: nat, k: string, q: nat, P: nat)
    requires Bien(r, T) && Apretada(r.tabla) && k != VACIO
    requires var o := Celdas(r, T)[..PrimeraLibre(r.tabla)];
             1 <= P && q + P <= |o| && forall i | 0 <= i < |o| :: De(o[i], k) <==> q <= i < q + P
    ensures Tramo(r.tabla, k, q, P)
    ensures Celdas(r, T)[q..q + P] == Celdas(r, T)[..PrimeraLibre(r.tabla)][q..q + P]
  {
    var d, e := Celdas(r, T), PrimeraLibre(r.tabla);
    forall i | 0 <= i < |r.tabla|
      ensures r.tabla[i].clave == k <==> q <= i < q + P
    {
      if i < e {
        assert d[i] == d[..e][i] == CeldaEn(r, T, i);
        assert De(d[i], k) <==> r.tabla[i].clave == k;
      } else {
        assert !Viva(r.tabla[i]);
      }
    }
    assert d[q..q + P] == d[..e][q..q + P];
  }

  /** Equal cells hold equal entries. */
  lemma EntradaDeCelda(a: Almacen, r: Almacen, T: nat, q: nat, q': nat, P: nat, i: nat)
    requires Bien(a, T) && Bien(r, T) && q + P <= |a.tabla| && q' + P <= |r.tabla|
    requires Celdas(a, T)[q..q + P] == Celdas(r, T)[q'..q' + P]
    requires q' <= i < q' + P && Viva(r.tabla[i])
    ensures r.tabla[i] == a.tabla[q + (i - q')]
  {
    var c, d := Celdas(a, T), Celdas(r, T);
    assert d[i] == d[q'..q' + P][i - q'] == c[q..q + P][i - q'] == c[q + (i - q')];
  }

  lemma CorridaLlena(t: seq<Entrada>, T: nat, k: string)
    requires T > 0 && k != VACIO && Corrida(t, T, k)
    ensures var q := ConsultarTabla(t, k);
            forall i | q <= i < q + Paginas(t[q].tamanio, T) ::
              i < |t| && Viva(t[i]) && Min(T, t[q].tamanio) <= t[i].tamanio
  {}

  lemma BytesDeCorrida(a: Almacen, r: Almacen, T: nat, k: string, q: nat, q': nat)
    requires Bien(a, T) && Bien(r, T) && k != VACIO && Corrida(a.tabla, T, k) && ConsultarTabla(a.tabla, k) == q
    requires var P := Paginas(a.tabla[q].tamanio, T);
             && q + P <= |a.tabla| && q' + P <= |r.tabla|
             && Celdas(r, T)[q'..q' + P] == Celdas(a, T)[q..q + P]
    ensures var n := a.tabla[q].tamanio;
            && 0 <= q * T && q * T + n <= |a.mem| && 0 <= q' * T && q' * T + n <= |r.mem|
            && Leer(a.mem, q * T, n) == Leer(r.mem, q' * T, n)
  {
    var n := a.tabla[q].tamanio;
    CorridaLlena(a.tabla, T, k);
    MismosBytes(a, r, T, q, q', n);
    CotaIndice(0, q, T);
    CotaIndice(0, q', T);
    LeerIgual(a.mem, r.mem, q * T, q' * T, n);
  }

  lemma ValorDeCorrida(a: Almacen, r: Almacen, T: nat, k: string, q': nat)
    requires Bien(a, T) && Bien(r, T) && k != VACIO && Corrida(a.tabla, T, k)
    requires var q := ConsultarTabla(a.tabla, k);
             var P := Paginas(a.tabla[q].tamanio, T);
             && q' + P <= |r.tabla|
             && Celdas(r, T)[q'..q' + P] == Celdas(a, T)[q..q + P]
             && ConsultarTabla(r.tabla, k) == q'
             && r.tabla[q'].tamanio == a.tabla[q].tamanio
    ensures GetValue(r, T, k) == GetValue(a, T, k)
  {
    var q := ConsultarTabla(a.tabla, k);
    BytesDeCorrida(a, r, T, k, q, q');
    ValorEn(a, T, k, q);
    ValorEn(r, T, k, q');
  }

  lemma LeerIgual(m: seq<char>, m': seq<char>, at: nat, at': nat, n: nat)
    requires at + n <= |m| && at' + n <= |m'| && m[at..at + n] == m'[at'..at' + n]
    ensures Leer(m, at, n) == Leer(m', at', n)
  {}

  /** A run copied whole is a run. */
  lemma CorridaMovida(a: Almacen, r: Almacen, T: nat, k: string, q: nat, q': nat, P: nat)
    requires Bien(a, T) && Bien(r, T) && k != VACIO && Corrida(a.tabla, T, k)
    requires q == ConsultarTabla(a.tabla, k) && P == Paginas(a.tabla[q].tamanio, T) && q + P <= |a.tabla|
    requires P >= 1 && q' + P <= |r.tabla| && Tramo(r.tabla, k, q', P)
    requires Celdas(r, T)[q'..q' + P] == Celdas(a, T)[q..q + P]
    ensures ConsultarTabla(r.tabla, k) == q' && r.tabla[q'].tamanio == a.tabla[q].tamanio
    ensures Corrida(r.tabla, T, k)
  {
    PrimeroDeTramo(r.tabla, k, q', P);
    forall i | q' <= i < q' + P
      ensures r.tabla[i] == a.tabla[q + (i - q')]
    {
      EntradaDeCelda(a, r, T, q, q', P, i);
    }
  }

  /** Two arenas with the same occupied cells, the second one tight, agree on `k`. */
  lemma MismaCorrida(a: Almacen, r: Almacen, T: nat, k: string)
    requires Bien(a, T) && Bien(r, T) && Apretada(r.tabla) && k != VACIO
    requires Ocupadas(Celdas(a, T)) == Ocupadas(Celdas(r, T))
    requires Corrida(a.tabla, T, k)
    ensures Corrida(r.tabla, T, k) && GetValue(r, T, k) == GetValue(a, T, k)
  {
    var q := ConsultarTabla(a.tabla, k);
    var P := Paginas(a.tabla[q].tamanio, T);
    var q' := CorridaApretada(a, r, T, k);
    CorridaMovida(a, r, T, k, q, q', P);
    ValorDeCorrida(a, r, T, k, q');
  }

  lemma MismasClaves(a: Almacen, r: Almacen, T: nat)
    requires Bien(a, T) && Bien(r, T) && Ocupadas(Celdas(a, T)) == Ocupadas(Celdas(r, T))
    ensures Claves(a.tabla) == Claves(r.tabla)
  {
    forall k | k in Claves(a.tabla) + Claves(r.tabla)
      ensures k in Claves(a.tabla) && k in Claves(r.tabla)
    {
      ClaveEnCeldas(a, T, k);
      ClaveEnCeldas(r, T, k);
    }
  }

  lemma MismoMapa(a: Almacen, r: Almacen, T: nat)
    requires Bien(a, T) && Bien(r, T) && Apretada(r.tabla) && Disposicion(a.tabla, T)
    requires Ocupadas(Celdas(a, T)) == Ocupadas(Celdas(r, T))
    ensures Disposicion(r.tabla, T) && Mapa(r, T) == Mapa(a, T)
  {
    MismasClaves(a, r, T);
    forall k | k in Claves(a.tabla)
      ensures Corrida(r.tabla, T, k) && GetValue(r, T, k) == GetValue(a, T, k)
    {
      MismaCorrida(a, r, T, k);
    }
  }

  lemma LibresDeOcupadas(a: Almacen, T: nat)
    requires Bien(a, T)
    ensures |Ocupadas(Celdas(a, T))| + Libres(a.tabla) == |a.tabla|
  {
    LibresDesde(a, T, 0);
  }

  lemma LibresDesde(a: Almacen, T: nat, i: nat)
    requires Bien(a, T) && i <= |a.tabla|
    ensures |Ocupadas(Celdas(a, T)[i..])| + Libres(a.tabla[i..]) == |a.tabla| - i
    decreases |a.tabla| - i
  {
    if i < |a.tabla| {
      LibresDesde(a, T, i + 1);
      assert Celdas(a, T)[i..][1..] == Celdas(a, T)[i + 1..];
      assert a.tabla[i..][1..] == a.tabla[i + 1..];
    } else {
      assert Celdas(a, T)[i..] == [];
    }
  }

  /** Compaction keeps the meaning of the arena: the layout, the map, every entry with its age,
      and their order; what is left is the live entries followed by free slots. */
  lemma CompactarConserva(a: Almacen, T: nat, modo: Modo)
    requires Bien(a, T) && Disposicion(a.tabla, T) && Apta(a.tabla, T, modo)
    ensures var r := Compactar(a, T, modo);
            && Celdas(r, T)[..PrimeraLibre(r.tabla)] == Ocupadas(Celdas(a, T))
            && Apretada(r.tabla) && Disposicion(r.tabla, T) && Apta(r.tabla, T, modo)
            && PrimeraLibre(r.tabla) == |a.tabla| - Libres(a.tabla)
            && Libres(r.tabla) == Libres(a.tabla)
            && Mapa(r, T) == Mapa(a, T)
  {
    var r := Compactar(a, T, modo);
    CompactarDesdeCeldas(a, T, modo, 0, Compactar(a, T, modo));
    CeldasApretadas(r, T);
    LibresDeOcupadas(a, T);
    LibresDeOcupadas(r, T);
    MismoMapa(a, r, T);
  }

  /** MoverBloque, for the table alone. */
  function MoverFilas(t: seq<Entrada>, x: nat, k: nat, c: nat): (r: seq<Entrada>)
    ensures |r| == |t|
    decreases k - x
  {
    if x >= k then t
    else MoverFilas(if x + c < |t| then t[x := t[x + c]][x + c := LIMPIA] else t, x + 1, k, c)
  }

  lemma {:induction false} MoverBloqueFilas(a: Almacen, T: nat, modo: Modo, x: nat, k: nat, c: nat)
    requires Bien(a, T)
    ensures MoverBloque(a, T, modo, x, k, c).tabla == MoverFilas(a.tabla, x, k, c)
    decreases k - x
  {
    if x < k {
      MoverBloqueFilas(if x + c < |a.tabla| then MoverSlot(a, T, modo, x, c) else a, T, modo, x + 1, k, c);
    }
  }

  /** A turn of the outer loop; what it does to the table depends on the table alone. */
  lemma Vuelta(a: Almacen, T: nat, modo: Modo, i: nat) returns (b: Almacen)
    requires Bien(a, T) && i < |a.tabla|
    ensures Bien(b, T) && CompactarDesde(a, T, modo, i) == CompactarDesde(b, T, modo, i + 1)
    ensures b.tabla == if Viva(a.tabla[i]) then a.tabla
                       else MoverFilas(a.tabla, i, i + LargoVacio(a.tabla, i), LargoVacio(a.tabla, i))
  {
    if Viva(a.tabla[i]) {
      b := a;
    } else {
      var c := LargoVacio(a.tabla, i);
      Desenrolla(a, T, modo, i);
      MoverBloqueFilas(a, T, modo, i, i + c, c);
      b := MoverBloque(a, T, modo, i, i + c, c);
    }
  }

  /** CompactarDesde, for the table alone. */
  function Filas(t: seq<Entrada>, i: nat): seq<Entrada>
    decreases |t| - i
  {
    if i >= |t| then t
    else Filas(if Viva(t[i]) then t else MoverFilas(t, i, i + LargoVacio(t, i), LargoVacio(t, i)), i + 1)
  }

  /** What a compaction does to the table does not depend on the bytes nor on how many are copied. */
  lemma {:induction false} CompactarDesdeTabla(a: Almacen, T: nat, modo: Modo, i: nat)
    requires Bien(a, T)
    ensures CompactarDesde(a, T, modo, i).tabla == Filas(a.tabla, i)
    decreases |a.tabla| - i
  {
    if i < |a.tabla| {
      var b := Vuelta(a, T, modo, i);
      CompactarDesdeTabla(b, T, modo, i + 1);
    }
  }

  /** The live entries, in order. */
  function Vivas(t: seq<Entrada>): seq<Entrada> {
    if |t| == 0 then [] else (if Viva(t[0]) then [t[0]] else []) + Vivas(t[1..])
  }

  ghost function Entradas(c: seq<Celda>): seq<Entrada>
    requires forall i | 0 <= i < |c| :: c[i].Ocupada?
  {
    seq(|c|, i requires 0 <= i < |c| => c[i].entrada)
  }

  lemma OcupadasOcupadas(c: seq<Celda>)
    ensures forall i | 0 <= i < |Ocupadas(c)| :: Ocupadas(c)[i].Ocupada?
  {}

  lemma {:induction false} VivasDeCeldas(a: Almacen, T: nat, i: nat)
    requires Bien(a, T) && i <= |a.tabla|
    ensures (OcupadasOcupadas(Celdas(a, T)[i..]); Entradas(Ocupadas(Celdas(a, T)[i..])) == Vivas(a.tabla[i..]))
    decreases |a.tabla| - i
  {
    var c := Celdas(a, T);
    OcupadasOcupadas(c[i..]);
    if i < |a.tabla| {
      VivasDeCeldas(a, T, i + 1);
      OcupadasOcupadas(c[i + 1..]);
      assert c[i..][1..] == c[i + 1..];
      assert a.tabla[i..][1..] == a.tabla[i + 1..];
    } else {
      assert c[i..] == [];
    }
  }

  /** On the table alone compaction is right whatever the sizes: a stable filter. */
  lemma CompactarTabla(a: Almacen, T: nat, modo: Modo)
    requires Bien(a, T)
    ensures var r := Compactar(a, T, modo).tabla;
            && Vivas(r) == Vivas(a.tabla) && Apretada(r)
            && Libres(r) == Libres(a.tabla) && PrimeraLibre(r) == |a.tabla| - Libres(a.tabla)
  {
    var b := Compactar(a, T, PorSlot);
    CompactarDesdeTabla(a, T, modo, 0);
    CompactarDesdeTabla(a, T, PorSlot, 0);
    CompactarDesdeCeldas(a, T, PorSlot, 0, Compactar(a, T, PorSlot));
    CeldasApretadas(b, T);
    LibresDeOcupadas(a, T);
    LibresDeOcupadas(b, T);
    VivasDeCeldas(a, T, 0);
    VivasDeCeldas(b, T, 0);
    assert Celdas(a, T)[0..] == Celdas(a, T) && Celdas(b, T)[0..] == Celdas(b, T);
    assert a.tabla[0..] == a.tabla && b.tabla[0..] == b.tabla;
  }

  /** A second compaction changes nothing, whatever the layout and the sizes. */
  lemma CompactarIdempotente(a: Almacen, T: nat, modo: Modo)
    requires Bien(a, T)
    ensures Compactar(Compactar(a, T, modo), T, modo) == Compactar(a, T, modo)
  {
    CompactarTabla(a, T, modo);
    CompactarDesdeQuieta(Compactar(a, T, modo), T, modo, 0);
  }

  lemma CompactarDisposicion(a: Almacen, T: nat, modo: Modo)
    requires Bien(a, T) && Disposicion(a.tabla, T)
    ensures Disposicion(Compactar(a, T, modo).tabla, T)
    ensures Claves(Compactar(a, T, modo).tabla) == Claves(a.tabla)
  {
    CompactarDesdeTabla(a, T, modo, 0);
    CompactarDesdeTabla(a, T, PorSlot, 0);
    CompactarConserva(a, T, PorSlot);
    assert Mapa(a, T).Keys == Mapa(Compactar(a, T, PorSlot), T).Keys;
  }
}
