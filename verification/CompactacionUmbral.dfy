/** How far the copy of `tamanio` bytes a slot can be trusted: up to values of two slots. */
module CompactacionUmbral {
  import opened Tabla
  import opened Arena
  import opened Compactacion

  /** compactar, copying as the source does, keeps the map of every arena whose slots all
      record at most B bytes. */
  ghost predicate Fiel(B: nat, T: nat)
    requires T > 0
  {
    forall a: Almacen | Bien(a, T) && Disposicion(a.tabla, T) && (forall e | e in a.tabla :: e.tamanio <= B) ::
      Mapa(Compactar(a, T, PorTamanio), T) == Mapa(a, T)
  }

  function Bytes(c: char, n: nat): seq<char> { seq(n, _ => c) }

  /** One free slot, then a value of 2T+1 bytes over three slots. */
  function TablaTestigo(T: nat): seq<Entrada> {
    var e := Entrada("k", 2 * T + 1, -1);
    [LIMPIA, e, e, e]
  }

  /** The value has a 'b' where its second slot begins and a 'c' where its third does. */
  ghost predicate EsTestigo(a: Almacen, T: nat) {
    Bien(a, T) && a.tabla == TablaTestigo(T) && |a.mem| == 4 * T && a.mem[2 * T] == 'b' && a.mem[3 * T] == 'c'
  }

  lemma TestigoBien(a: Almacen, T: nat)
    requires EsTestigo(a, T)
    ensures "k" in Mapa(a, T) && |Mapa(a, T)["k"]| == 2 * T + 1 && Mapa(a, T)["k"][T] == 'b'
  {
    TestigoTabla(T);
    assert Mapa(a, T)["k"] == Leer(a.mem, T, 2 * T + 1) == a.mem[T..T + (2 * T + 1)];
    assert a.mem[T..T + (2 * T + 1)][T] == a.mem[2 * T];
  }

  lemma TestigoTabla(T: nat)
    requires T > 0
    ensures var t := TablaTestigo(T);
            Paginas(2 * T + 1, T) == 3 && Disposicion(t, T) && ConsultarTabla(t, "k") == 1 && "k" in Claves(t)
  {
    var t := TablaTestigo(T);
    assert Paginas(2 * T + 1, T) == 1 + Paginas(T + 1, T) == 2 + Paginas(1, T) == 3;
    assert Tramo(t, "k", 1, 3);
    PrimeroDeTramo(t, "k", 1, 3);
    assert t[1].clave in Claves(t);
  }

  lemma ByteMovido(a: Almacen, T: nat, x: nat, b: nat)
    requires Bien(a, T) && x + 1 < |a.tabla| && x * T <= b && b + T < |a.mem|
    ensures MoverSlot(a, T, PorTamanio, x, 1).mem[b]
         == if b < x * T + a.tabla[x + 1].tamanio then a.mem[b + T] else a.mem[b]
  {
    assert (x + 1) * T == x * T + T;
  }

  /** The second slot of the value is overwritten before it is moved. */
  lemma TestigoCompactado(a: Almacen, T: nat)
    requires EsTestigo(a, T)
    ensures var r := Compactar(a, T, PorTamanio);
            r.tabla[0].clave == "k" && r.tabla[0].tamanio == 2 * T + 1 && r.mem[T] == 'c'
  {
    var M := PorTamanio;
    var a1 := MoverSlot(a, T, M, 0, 1);
    var a2 := MoverSlot(a1, T, M, 1, 1);
    DosMovidas(a, T);
    Paso(a, a1, T, M, 0);
    Paso(a1, a2, T, M, 1);
    UltimaMovida(a2, T);
  }

  /** The third move leaves what the first two slots hold. */
  lemma UltimaMovida(a: Almacen, T: nat)
    requires Bien(a, T) && |a.tabla| == 4
    requires Viva(a.tabla[0]) && Viva(a.tabla[1]) && !Viva(a.tabla[2]) && Viva(a.tabla[3])
    ensures var r := CompactarDesde(a, T, PorTamanio, 2);
            r.tabla[0] == a.tabla[0] && r.mem[T] == a.mem[T]
  {
    var b := MoverSlot(a, T, PorTamanio, 2, 1);
    Paso(a, b, T, PorTamanio, 2);
    CompactarDesdeQuieta(b, T, PorTamanio, 3);
    assert 2 * T > T;
  }

  /** Two moves bring the last byte of the value to its second slot. */
  lemma DosMovidas(a: Almacen, T: nat)
    requires EsTestigo(a, T)
    ensures var a1 := MoverSlot(a, T, PorTamanio, 0, 1);
            var a2 := MoverSlot(a1, T, PorTamanio, 1, 1);
            a1.mem[2 * T] == 'c' && a2.mem[T] == 'c'
  {
    var a1 := MoverSlot(a, T, PorTamanio, 0, 1);
    ByteMovido(a, T, 0, 2 * T);
    ByteMovido(a1, T, 1, T);
  }

  /** One turn of compactar on a gap of a single slot. */
  lemma Paso(a: Almacen, b: Almacen, T: nat, M: Modo, i: nat)
    requires Bien(a, T) && i + 1 < |a.tabla| && !Viva(a.tabla[i]) && Viva(a.tabla[i + 1])
    requires b == MoverSlot(a, T, M, i, 1)
    ensures CompactarDesde(a, T, M, i) == CompactarDesde(b, T, M, i + 1)
  {
    assert LargoVacio(a.tabla, i) == 1 + LargoVacio(a.tabla, i + 1) == 1;
    assert MoverBloque(a, T, M, i, i + 1, 1) == MoverBloque(b, T, M, i + 1, i + 1, 1) == b;
  }

  /** The stored value changes. */
  lemma TestigoCorrompido(a: Almacen, T: nat)
    requires EsTestigo(a, T)
    ensures var r := Compactar(a, T, PorTamanio);
            "k" in Mapa(a, T) && "k" in Mapa(r, T) && Mapa(r, T)["k"] != Mapa(a, T)["k"]
  {
    TestigoBien(a, T);
    TestigoCompactado(a, T);
    LeeCorrupto(Compactar(a, T, PorTamanio), T);
  }

  /** For every slot size, an arena with a value of 2T+1 bytes that a compaction corrupts. */
  lemma ContraEjemplo(T: nat) returns (a: Almacen)
    requires T > 0
    ensures Bien(a, T) && Disposicion(a.tabla, T)
    ensures forall e | e in a.tabla :: e.tamanio <= 2 * T + 1
    ensures Mapa(Compactar(a, T, PorTamanio), T) != Mapa(a, T)
  {
    a := Almacen(TablaTestigo(T), Bytes('x', T) + Bytes('a', T) + Bytes('b', T) + Bytes('c', T));
    assert EsTestigo(a, T);
    TestigoTabla(T);
    TestigoCorrompido(a, T);
  }

  lemma LeeCorrupto(r: Almacen, T: nat)
    requires Bien(r, T) && |r.tabla| == 4
    requires r.tabla[0].clave == "k" && r.tabla[0].tamanio == 2 * T + 1 && r.mem[T] == 'c'
    ensures "k" in Mapa(r, T) && |Mapa(r, T)["k"]| == 2 * T + 1 && Mapa(r, T)["k"][T] == 'c'
  {
    assert ConsultarTabla(r.tabla, "k") == 0;
    assert 2 * T + 1 <= |r.mem|;
    assert Leer(r.mem, 0, 2 * T + 1)[T] == 'c';
    assert r.tabla[0].clave in Claves(r.tabla);
  }

  lemma FielHastaDosSlots(B: nat, T: nat)
    requires 0 < T && B <= 2 * T
    ensures Fiel(B, T)
  {
    forall a: Almacen | Bien(a, T) && Disposicion(a.tabla, T) && (forall e | e in a.tabla :: e.tamanio <= B)
      ensures Mapa(Compactar(a, T, PorTamanio), T) == Mapa(a, T)
    {
      CompactarConserva(a, T, PorTamanio);
    }
  }

  /** Two slots is the exact bound, for every slot size. */
  lemma UmbralDeCompactar(B: nat, T: nat)
    requires T > 0
    ensures Fiel(B, T) <==> B <= 2 * T
  {
    if B <= 2 * T {
      FielHastaDosSlots(B, T);
    } else {
      var a := ContraEjemplo(T);
    }
  }

  // ---- a wide first gap is no help ----

  const UNO := Entrada("a", 1, 0)
  const CINCO := Entrada("b", 5, 0)

  /** With slots of one byte: four free, "a", one free, and "b" over five. */
  const ANCHA := [LIMPIA, LIMPIA, LIMPIA, LIMPIA, UNO, LIMPIA, CINCO, CINCO, CINCO, CINCO, CINCO]
  const ANCHA1 := [UNO, LIMPIA, LIMPIA, LIMPIA, LIMPIA, LIMPIA, CINCO, CINCO, CINCO, CINCO, CINCO]
  const ANCHA2 := [UNO, LIMPIA, CINCO, LIMPIA, LIMPIA, LIMPIA, LIMPIA, CINCO, CINCO, CINCO, CINCO]
  const ANCHA3 := [UNO, LIMPIA, CINCO, CINCO, LIMPIA, LIMPIA, LIMPIA, LIMPIA, CINCO, CINCO, CINCO]
  const ANCHA4 := [UNO, CINCO, LIMPIA, CINCO, LIMPIA, LIMPIA, LIMPIA, LIMPIA, CINCO, CINCO, CINCO]
  const ANCHA5 := [UNO, CINCO, CINCO, LIMPIA, LIMPIA, LIMPIA, LIMPIA, LIMPIA, CINCO, CINCO, CINCO]

  /** The first `i` slots and their bytes are the same. */
  ghost predicate MismoAntes(a: Almacen, r: Almacen, i: nat) {
    && |r.tabla| == |a.tabla| && |r.mem| == |a.mem|
    && (forall j | 0 <= j < i && j < |a.tabla| :: r.tabla[j] == a.tabla[j])
    && (forall j | 0 <= j < i && j < |a.mem| :: r.mem[j] == a.mem[j])
  }

  lemma AntesTransitivo(a: Almacen, b: Almacen, r: Almacen, i: nat)
    requires MismoAntes(a, b, i) && MismoAntes(b, r, i + 1)
    ensures MismoAntes(a, r, i)
  {}

  lemma MoverSlotAntes(a: Almacen, modo: Modo, x: nat, c: nat)
    requires Bien(a, 1) && x + c < |a.tabla|
    ensures MismoAntes(a, MoverSlot(a, 1, modo, x, c), x)
  {}

  lemma {:induction false} MoverBloqueAntes(a: Almacen, modo: Modo, x: nat, k: nat, c: nat)
    requires Bien(a, 1)
    ensures MismoAntes(a, MoverBloque(a, 1, modo, x, k, c), x)
    decreases k - x
  {
    if x < k {
      var b := if x + c < |a.tabla| then MoverSlot(a, 1, modo, x, c) else a;
      if x + c < |a.tabla| { MoverSlotAntes(a, modo, x, c); }
      MoverBloqueAntes(b, modo, x + 1, k, c);
      AntesTransitivo(a, b, MoverBloque(a, 1, modo, x, k, c), x);
    }
  }

  /** compactar, from slot i on, leaves what comes before it. */
  lemma {:induction false} CompactarAntes(a: Almacen, modo: Modo, i: nat)
    requires Bien(a, 1)
    ensures MismoAntes(a, CompactarDesde(a, 1, modo, i), i)
    decreases |a.tabla| - i
  {
    if i < |a.tabla| {
      if Viva(a.tabla[i]) {
        CompactarAntes(a, modo, i + 1);
        AntesTransitivo(a, a, CompactarDesde(a, 1, modo, i), i);
      } else {
        var c := LargoVacio(a.tabla, i);
        var b := MoverBloque(a, 1, modo, i, i + c, c);
        MoverBloqueAntes(a, modo, i, i + c, c);
        CompactarAntes(b, modo, i + 1);
        AntesTransitivo(a, b, CompactarDesde(b, 1, modo, i + 1), i);
      }
    }
  }

  ghost predicate Con(a: Almacen, t: seq<Entrada>, b: nat, x: char) {
    Bien(a, 1) && a.tabla == t && |a.mem| == 11 && b < 11 && a.mem[b] == x
  }

  /** The gap of four: "a" moves, then a free slot, then two of the slots of "b". */
  lemma HuecoCuatro(a: Almacen, x: char)
    requires Con(a, ANCHA, 8, x)
    ensures Con(MoverBloque(a, 1, PorTamanio, 0, 4, 4), ANCHA3, 4, x)
  {
    var b := MoverSlot(a, 1, PorTamanio, 0, 4);
    assert Con(b, ANCHA1, 8, x);
    var d := MoverSlot(b, 1, PorTamanio, 1, 4);
    assert Con(d, ANCHA1, 8, x);
    DosDeB(d, x);
  }

  lemma DosDeB(a: Almacen, x: char)
    requires Con(a, ANCHA1, 8, x)
    ensures Con(MoverBloque(a, 1, PorTamanio, 2, 4, 4), ANCHA3, 4, x)
  {
    var b := MoverSlot(a, 1, PorTamanio, 2, 4);
    assert Con(b, ANCHA2, 8, x);
    assert Con(MoverSlot(b, 1, PorTamanio, 3, 4), ANCHA3, 4, x);
  }

  /** One more gap of one slot opens among what was moved, and the copy for it overwrites the second
      byte of "b" before its own slot is moved. */
  lemma HuecosDeUno(a: Almacen, x: char)
    requires Con(a, ANCHA3, 4, x)
    ensures var r := CompactarDesde(a, 1, PorTamanio, 1);
            r.tabla[..3] == [UNO, CINCO, CINCO] && r.mem[2] == x
  {
    var b := MoverSlot(a, 1, PorTamanio, 1, 1);
    assert Con(b, ANCHA4, 3, x);
    var d := MoverSlot(b, 1, PorTamanio, 2, 1);
    assert Con(d, ANCHA5, 2, x);
    Paso(a, b, 1, PorTamanio, 1);
    Paso(b, d, 1, PorTamanio, 2);
    CompactarAntes(d, PorTamanio, 3);
  }

  /** The bound of two slots cannot be raised by the width of the first gap. Here it has four slots
      and no value is longer than five, so that no copy of that gap reaches a slot not yet moved;
      and the compaction changes "b" all the same. */
  lemma HuecoAncho(a: Almacen)
    requires Bien(a, 1) && a.tabla == ANCHA && |a.mem| == 11 && a.mem[7] != a.mem[8]
    ensures Disposicion(a.tabla, 1) && LargoVacio(a.tabla, 0) == 4
    ensures var r := Compactar(a, 1, PorTamanio);
            GetValue(a, 1, "b").Some? && GetValue(r, 1, "b") != GetValue(a, 1, "b")
  {
    AnchaPuesta();
    AnchaB();
    AnchaVacia();
    var x, b := a.mem[8], MoverBloque(a, 1, PorTamanio, 0, 4, 4);
    HuecoCuatro(a, x);
    HuecosDeUno(b, x);
    var r := Compactar(a, 1, PorTamanio);
    assert r == CompactarDesde(b, 1, PorTamanio, 1);
    assert r.tabla[0] == r.tabla[..3][0] && r.tabla[1] == r.tabla[..3][1];
    assert ConsultarTabla(r.tabla, "b") == 1;
    assert Leer(r.mem, 1, 5)[1] == x;
    assert Leer(a.mem, 6, 5)[1] == a.mem[7];
  }

  lemma AnchaPuesta()
    ensures Disposicion(ANCHA, 1)
  {
    forall k | k in Claves(ANCHA) ensures Corrida(ANCHA, 1, k) { AnchaCorrida(k); }
  }

  lemma AnchaCorrida(k: string)
    requires k in Claves(ANCHA)
    ensures Corrida(ANCHA, 1, k)
  {
    var i :| 0 <= i < |ANCHA| && Viva(ANCHA[i]) && ANCHA[i].clave == k;
    AnchaSlot(i);
    if k == "a" { AnchaA(); } else { AnchaB(); }
  }

  lemma AnchaSlot(i: nat)
    requires i < |ANCHA| && Viva(ANCHA[i])
    ensures ANCHA[i].clave == "a" || ANCHA[i].clave == "b"
  {}

  lemma AnchaA()
    ensures Corrida(ANCHA, 1, "a")
  {
    PrimeroDeTramo(ANCHA, "a", 4, 1);
  }

  lemma AnchaB()
    ensures Corrida(ANCHA, 1, "b") && ConsultarTabla(ANCHA, "b") == 6
  {
    PrimeroDeTramo(ANCHA, "b", 6, 5);
    assert Paginas(5, 1) == 5;
  }

  lemma AnchaVacia()
    ensures LargoVacio(ANCHA, 0) == 4
  {
    assert LargoVacio(ANCHA, 4) == 0 && LargoVacio(ANCHA, 2) == 2;
  }
}
