/** Which insertions LRU can serve in a state that a run reaches, and small runs that reach what
    goes wrong. */
module Cabida {
  import opened Opciones
  import opened Tabla
  import opened Arena
  import opened Compactacion
  import opened CompactacionUmbral
  import opened LRU
  import opened LRUSet
  import opened LRURefina
  import opened Recencia
  import opened Volcado
  import opened Archivos

  // ---- how much room an insertion can get ----

  predicate DeUnSlot(e: Entrada, T: nat) { Viva(e) && e.tamanio <= T }

  /** One slot freed. */
  lemma {:induction false} LibresUnaMas(t: seq<Entrada>, r: seq<Entrada>, i: nat)
    requires |t| == |r| && i < |t| && Viva(t[i]) && !Viva(r[i])
    requires forall j | 0 <= j < |t| && j != i :: Viva(t[j]) == Viva(r[j])
    ensures Libres(r) == Libres(t) + 1
  {
    if i == 0 { MismasLibres(t[1..], r[1..]); } else { LibresUnaMas(t[1..], r[1..], i - 1); }
  }

  /** With exact ages no two live slots share one above 0. */
  lemma EdadUnica(t: seq<Entrada>, T: nat, os: seq<Mensaje>, i: nat, j: nat)
    requires T > 0 && Disposicion(t, T) && Recientes(t, T, os)
    requires i < |t| && DeUnSlot(t[i], T) && j < |t| && DeUnSlot(t[j], T) && t[i].age == t[j].age
    ensures i == j
  {
    assert t[i] in t && t[j] in t;
    EdadInyectiva(os, t[i].clave, t[j].clave);
    assert t[i].clave in Claves(t);
    assert Corrida(t, T, t[i].clave);
  }

  lemma EdadUnicaTras(t: seq<Entrada>, T: nat, os: seq<Mensaje>, i: nat, j: nat)
    requires T > 0 && Disposicion(t, T) && Recientes(t, T, os) && i < |t| && j < |t|
    requires var u := Envejecer(t, T);
             Viva(u[i]) && Viva(u[j]) && u[i].age == u[j].age >= 0
    ensures i == j
  {
    EdadUnica(t, T, os, i, j);
  }

  lemma AlgunaVieja(t: seq<Entrada>, T: nat, os: seq<Mensaje>, e: Entrada) returns (i: nat)
    requires Recientes(t, T, os) && LibresSinEdad(t) && e in t && DeUnSlot(e, T)
    ensures var u := Envejecer(t, T);
            i < |u| && Viva(u[i]) && u[i].age == MasVieja(u)
  {
    var u := Envejecer(t, T);
    HayVieja(t, T, os, e);
    var x :| x in Viejas(u, MasVieja(u));
    i :| 0 <= i < |u| && Viva(u[i]) && u[i].age == MasVieja(u) && u[i].clave == x;
  }

  /** With a single-slot key stored, an eviction frees its oldest one's slot and no other. */
  lemma LibraUna(t: seq<Entrada>, T: nat, os: seq<Mensaje>, e: Entrada)
    requires T > 0 && Disposicion(t, T) && Recientes(t, T, os) && LibresSinEdad(t)
    requires e in t && DeUnSlot(e, T)
    ensures var u := Envejecer(t, T);
            Libres(Desalojar(u, MasVieja(u))) == Libres(u) + 1
  {
    var u := Envejecer(t, T);
    var i := AlgunaVieja(t, T, os, e);
    forall j | 0 <= j < |u| && j != i && Viva(u[j]) ensures u[j].age != MasVieja(u) {
      if u[j].age == MasVieja(u) { EdadUnicaTras(t, T, os, i, j); }
    }
    LibresUnaMas(u, Desalojar(u, MasVieja(u)), i);
  }

  /** Slots of larger values are never freed. */
  lemma LibraNinguna(t: seq<Entrada>, T: nat)
    requires forall e | e in t && Viva(e) :: e.tamanio > T
    ensures var u := Envejecer(t, T);
            Libres(Desalojar(u, MasVieja(u))) == Libres(u)
  {
    var u := Envejecer(t, T);
    forall j | 0 <= j < |u| && Viva(u[j]) ensures u[j].age == -1 {
      assert t[j] in t;
    }
    MismasLibres(u, Desalojar(u, MasVieja(u)));
  }

  /** The room an insertion can get: the free slots, and one more where a single-slot key is stored. */
  lemma LibresAlDesalojar(t: seq<Entrada>, T: nat, os: seq<Mensaje>)
    requires T > 0 && Disposicion(t, T) && Recientes(t, T, os) && LibresSinEdad(t)
    ensures var u := Envejecer(t, T);
            Alcanzable(u, MasVieja(u)) == Libres(t) + if exists e :: e in t && DeUnSlot(e, T) then 1 else 0
  {
    MismasLibres(t, Envejecer(t, T));
    if e :| e in t && DeUnSlot(e, T) { LibraUna(t, T, os, e); } else { LibraNinguna(t, T); }
  }

  /** In every state that a run reaches, a SET of a new key returns exactly when the value takes
      at most the free slots, and one more if some single-slot key is stored: a SET that needs two
      slots more than are free makes the Instancia recurse for ever. */
  lemma PuedeSii(os: seq<Mensaje>, m: Motor, N: nat, T: nat, modo: Modo, limpia: bool, k: string, n: nat)
    requires Alcanza(os, m, N, T, modo, limpia) && k != VACIO
    ensures Bien(m.a, T)
    ensures k !in Claves(m.a.tabla) ==>
              (Puede(m, T, k, n)
               <==> Max(1, Paginas(n, T))
                    <= Libres(m.a.tabla) + if exists e :: e in m.a.tabla && DeUnSlot(e, T) then 1 else 0)
  {
    CorridaConserva(os, m, N, T, modo, limpia);
    CorridaLibres(os, m, N, T, modo, limpia);
    LibresAlDesalojar(m.a.tabla, T, os);
    EnvejecerConserva(m.a, T);
    if k !in Claves(m.a.tabla) { Ausente(Envejecer(m.a.tabla, T), k); }
  }

  // ---- small runs ----

  /** A SET of a new key that finds a hole at once. */
  lemma PonerEnHueco(m: Motor, T: nat, modo: Modo, k: string, v: string, pos: nat)
    requires Bien(m.a, T)
    requires var t := Envejecer(m.a.tabla, T);
             ConsultarTabla(t, k) == -1 && BuscarEspacioLibre(t, Paginas(|v|, T)) == pos
    ensures pos < |m.a.tabla| && Puede(m, T, k, |v|)
    ensures SetLRU(m, T, modo, k, v)
         == m.(a := EscribirValor(m.a.(tabla := Colocada(Envejecer(m.a.tabla, T), pos, Paginas(|v|, T),
                                                         Entrada(k, |v|, 0))), T, pos, v))
  {
    var t, p := Envejecer(m.a.tabla, T), Paginas(|v|, T);
    HuecoAcota(t, pos, Max(1, p));
    AlcanzableSalvas(t, MasVieja(t));
  }

  lemma CompactarEnVano(m: Motor, T: nat, modo: Modo, p: nat, vieja: int)
    requires Bien(m.a, T) && !m.flag && Apretada(m.a.tabla)
    requires BuscarEspacioLibre(m.a.tabla, p) == -1
    requires BuscarEspacioLibre(Desalojar(m.a.tabla, vieja), p) != -1
    ensures Cabe(m.a.tabla, p, vieja)
    ensures HacerLugar(m, T, modo, p, vieja) == m.(a := m.a.(tabla := Desalojar(m.a.tabla, vieja)))
  {
    var u := Desalojar(m.a.tabla, vieja);
    HuecoAcota(u, BuscarEspacioLibre(u, p), Max(1, p));
    DesalojarDosVeces(m.a.tabla, vieja);
    CompactarDesdeQuieta(m.a, T, modo, 0);
    var f := Reintento(m, T, modo, vieja);
    assert f == m.(flag := true);
    var g := Reintento(f, T, modo, vieja);
    assert HacerLugar(g, T, modo, p, vieja) == g;
    assert HacerLugar(f, T, modo, p, vieja) == HacerLugar(g, T, modo, p, vieja);
  }

  /** A SET of a new key that compacts a tight table in vain and then evicts. */
  lemma PonerDesalojando(m: Motor, T: nat, modo: Modo, k: string, v: string, pos: nat)
    requires Bien(m.a, T) && !m.flag && Apretada(Envejecer(m.a.tabla, T))
    requires var t, p := Envejecer(m.a.tabla, T), Paginas(|v|, T);
             && ConsultarTabla(t, k) == -1 && BuscarEspacioLibre(t, p) == -1
             && BuscarEspacioLibre(Desalojar(t, MasVieja(t)), p) == pos
    ensures pos < |m.a.tabla| && Puede(m, T, k, |v|)
    ensures var t := Envejecer(m.a.tabla, T);
            SetLRU(m, T, modo, k, v)
            == m.(a := EscribirValor(m.a.(tabla := Colocada(Desalojar(t, MasVieja(t)), pos, Paginas(|v|, T),
                                                            Entrada(k, |v|, 0))), T, pos, v))
  {
    var t, p := Envejecer(m.a.tabla, T), Paginas(|v|, T);
    CompactarEnVano(Envejecido(m, T), T, modo, p, MasVieja(t));
  }

  // ---- two slots of one byte, full ----

  lemma PrimeraDeDos(m: Motor)
    requires Bien(m.a, 1) && m.a.tabla == [LIMPIA, LIMPIA]
    ensures Admite(m, 1, Poner("a", "x")) && Limpio(m, 1, PorTamanio, Poner("a", "x"))
    ensures var r := Aplicar(m, 1, PorTamanio, Poner("a", "x"));
            r.a.tabla == [Entrada("a", 1, 0), LIMPIA] && r.flag == m.flag
  {
    var t := Envejecer(m.a.tabla, 1);
    assert t == [LIMPIA, LIMPIA];
    assert Hueco(t, 0, 1);
    PonerEnHueco(m, 1, PorTamanio, "a", "x", 0);
    assert Colocada(t, 0, 1, Entrada("a", 1, 0)) == [Entrada("a", 1, 0), LIMPIA];
  }

  lemma SegundaDeDos(m: Motor)
    requires Bien(m.a, 1) && m.a.tabla == [Entrada("a", 1, 0), LIMPIA]
    ensures Admite(m, 1, Poner("b", "y")) && Limpio(m, 1, PorTamanio, Poner("b", "y"))
    ensures var r := Aplicar(m, 1, PorTamanio, Poner("b", "y"));
            r.a.tabla == [Entrada("a", 1, 1), Entrada("b", 1, 0)] && r.flag == m.flag
  {
    var t := Envejecer(m.a.tabla, 1);
    assert t == [Entrada("a", 1, 1), LIMPIA];
    assert Viva(t[0]);
    assert !Hueco(t, 0, 1) && Hueco(t, 1, 1);
    PonerEnHueco(m, 1, PorTamanio, "b", "y", 1);
    assert Colocada(t, 1, 1, Entrada("b", 1, 0)) == [Entrada("a", 1, 1), Entrada("b", 1, 0)];
  }

  lemma UnaLlena() returns (m: Motor)
    ensures Alcanza([Poner("a", "x")], m, 2, 1, PorTamanio, true)
    ensures Bien(m.a, 1) && m.a.tabla == [Entrada("a", 1, 0), LIMPIA]
  {
    var i := Recencia.Inicial(2, 1, "..");
    assert i.a.tabla == [LIMPIA, LIMPIA] && |".."| == 2;
    PrimeraDeDos(i);
    AlcanzaPaso([], i, 2, 1, PorTamanio, true, Poner("a", "x"));
    m := Aplicar(i, 1, PorTamanio, Poner("a", "x"));
    assert [] + [Poner("a", "x")] == [Poner("a", "x")];
  }

  lemma DosLlenas() returns (os: seq<Mensaje>, m: Motor)
    ensures os == [Poner("a", "x")] + [Poner("b", "y")] && Alcanza(os, m, 2, 1, PorTamanio, true)
    ensures Bien(m.a, 1) && m.a.tabla == [Entrada("a", 1, 1), Entrada("b", 1, 0)]
  {
    var p := UnaLlena();
    SegundaDeDos(p);
    os := [Poner("a", "x")] + [Poner("b", "y")];
    AlcanzaPaso([Poner("a", "x")], p, 2, 1, PorTamanio, true, Poner("b", "y"));
    m := Aplicar(p, 1, PorTamanio, Poner("b", "y"));
  }

  /** A clean run after which a SET never returns: two slots of one byte, "a" and "b" stored, and
      then a new key with a value of two bytes. */
  lemma SinLugarAlcanzable()
    ensures exists os, m ::
              && Alcanza(os, m, 2, 1, PorTamanio, true) && Bien(m.a, 1)
              && "c" !in Claves(m.a.tabla) && !Puede(m, 1, "c", 2)
  {
    var os, m := DosLlenas();
    assert Paginas(2, 1) == 2 && Libres(m.a.tabla) == 0;
    PuedeSii(os, m, 2, 1, PorTamanio, true, "c", 2);
  }

  /** In the same state a SET of "a" with one byte, which fills its slot, puts its terminator on
      the slot of "b", which then reads the terminator instead of its "y". */
  lemma PisaAlcanzable()
    ensures exists os, m ::
              && Alcanza(os, m, 2, 1, PorTamanio, true) && Bien(m.a, 1) && Admite(m, 1, Poner("a", "z"))
              && Ultimo(os, "b") == Some("y") == GetValue(m.a, 1, "b")
              && GetValue(Aplicar(m, 1, PorTamanio, Poner("a", "z")).a, 1, "b") == Some([NUL])
  {
    var os, m := DosLlenas();
    LeeSegunda(os, m);
    PisaDos(m);
  }

  lemma LeeSegunda(os: seq<Mensaje>, m: Motor)
    requires os == [Poner("a", "x")] + [Poner("b", "y")] && Alcanza(os, m, 2, 1, PorTamanio, true)
    requires Bien(m.a, 1) && m.a.tabla == [Entrada("a", 1, 1), Entrada("b", 1, 0)]
    ensures Ultimo(os, "b") == Some("y") == GetValue(m.a, 1, "b")
  {
    CorridaAlDia(os, m, 2, 1, PorTamanio);
    Segunda(m.a);
  }

  lemma Segunda(a: Almacen)
    requires Bien(a, 1) && a.tabla == [Entrada("a", 1, 1), Entrada("b", 1, 0)]
    ensures "b" in Mapa(a, 1) && GetValue(a, 1, "b") == Some(Mapa(a, 1)["b"])
  {
    PrimeroDeTramo(a.tabla, "b", 1, 1);
    assert a.tabla[1].clave == "b";
  }

  lemma PisaDos(m: Motor)
    requires Bien(m.a, 1) && m.a.tabla == [Entrada("a", 1, 1), Entrada("b", 1, 0)]
    ensures Admite(m, 1, Poner("a", "z"))
    ensures GetValue(Aplicar(m, 1, PorTamanio, Poner("a", "z")).a, 1, "b") == Some([NUL])
  {
    var t := Envejecer(m.a.tabla, 1);
    assert t == [Entrada("a", 1, 2), Entrada("b", 1, 1)];
    PrimeroDeTramo(t, "a", 0, 1);
    PrimeroDeTramo(m.a.tabla, "a", 0, 1);
    var r := Actualizada(t, 0, 1, "a", 1);
    assert r == [Entrada("a", 1, 0), Entrada("b", 1, 1)];
    PrimeroDeTramo(r, "b", 1, 1);
    assert Leer(Escribir(m.a.mem, 0, "z" + [NUL]), 1, 1) == [NUL];
  }

  // ---- a compaction that corrupts ----

  /** A value of 2T+1 bytes. */
  function Largo(T: nat): string { Bytes('a', T) + Bytes('b', T) + "c" }

  lemma PoneChica(m: Motor, T: nat)
    requires Bien(m.a, T) && m.a.tabla == seq(4, _ => LIMPIA)
    ensures Admite(m, T, Poner("a", "x")) && Limpio(m, T, PorTamanio, Poner("a", "x"))
    ensures Aplicar(m, T, PorTamanio, Poner("a", "x")).a.tabla == [Entrada("a", 1, 0), LIMPIA, LIMPIA, LIMPIA]
  {
    var t := Envejecer(m.a.tabla, T);
    assert t == m.a.tabla && Hueco(t, 0, 1) && Paginas(1, T) == 1;
    PonerEnHueco(m, T, PorTamanio, "a", "x", 0);
  }

  /** Beside "a", "k" holds that value. */
  ghost predicate ConLarga(a: Almacen, T: nat) {
    var e := Entrada("k", 2 * T + 1, 0);
    Bien(a, T) && a.tabla == [Entrada("a", 1, 1), e, e, e] && ByteLargos(a.mem, T)
  }

  predicate ByteLargos(mem: seq<char>, T: nat) {
    T > 0 && |mem| == 4 * T && mem[2 * T] == 'b' && mem[3 * T] == 'c'
  }

  lemma EscribeLarga(mem: seq<char>, T: nat)
    requires T > 0 && |mem| == 4 * T
    ensures ByteLargos(Escribir(mem, T, Largo(T) + [NUL]), T)
  {
    assert (Largo(T) + [NUL])[T] == 'b' && (Largo(T) + [NUL])[2 * T] == 'c';
  }

  lemma HuecoLargo(T: nat)
    requires T > 0
    ensures var t := [Entrada("a", 1, 1), LIMPIA, LIMPIA, LIMPIA];
            && Envejecer([Entrada("a", 1, 0), LIMPIA, LIMPIA, LIMPIA], T) == t
            && ConsultarTabla(t, "k") == -1 && BuscarEspacioLibre(t, Paginas(2 * T + 1, T)) == 1
  {
    var t := [Entrada("a", 1, 1), LIMPIA, LIMPIA, LIMPIA];
    TestigoTabla(T);
    assert Viva(t[0]) && !Hueco(t, 0, 3) && Hueco(t, 1, 3);
  }

  lemma ColocaLarga(T: nat)
    requires T > 0
    ensures var t, e := [Entrada("a", 1, 1), LIMPIA, LIMPIA, LIMPIA], Entrada("k", 2 * T + 1, 0);
            Colocada(t, 1, Paginas(2 * T + 1, T), e) == [Entrada("a", 1, 1), e, e, e]
  {
    TestigoTabla(T);
  }

  lemma PoneLarga(m: Motor, T: nat)
    requires Bien(m.a, T) && m.a.tabla == [Entrada("a", 1, 0), LIMPIA, LIMPIA, LIMPIA]
    ensures Admite(m, T, Poner("k", Largo(T))) && Limpio(m, T, PorTamanio, Poner("k", Largo(T)))
    ensures ConLarga(Aplicar(m, T, PorTamanio, Poner("k", Largo(T))).a, T)
  {
    TestigoTabla(T);
    HuecoLargo(T);
    ColocaLarga(T);
    PonerEnHueco(m, T, PorTamanio, "k", Largo(T), 1);
    EscribeLarga(m.a.mem, T);
  }

  lemma QuitaChica(m: Motor, T: nat)
    requires ConLarga(m.a, T)
    ensures Admite(m, T, Poner("a", "")) && Limpio(m, T, PorTamanio, Poner("a", ""))
    ensures EsTestigo(Aplicar(m, T, PorTamanio, Poner("a", "")).a, T)
  {
    var t, e := Envejecer(m.a.tabla, T), Entrada("k", 2 * T + 1, -1);
    assert t == [Entrada("a", 1, 2), e, e, e];
    PrimeroDeTramo(t, "a", 0, 1);
    PrimeroDeTramo(m.a.tabla, "a", 0, 1);
    var u := t[0 := Entrada("a", 0, 0)];
    assert FinDeClave(u, 0, "a") == 1;
    assert Actualizada(t, 0, 0, "a", 0) == TablaTestigo(T);
  }

  lemma TrasChica(T: nat) returns (os: seq<Mensaje>, m: Motor)
    requires T > 0
    ensures Alcanza(os, m, 4, T, PorTamanio, true) && Bien(m.a, T)
    ensures m.a.tabla == [Entrada("a", 1, 0), LIMPIA, LIMPIA, LIMPIA]
  {
    var i := Recencia.Inicial(4, T, Bytes('.', 4 * T));
    PoneChica(i, T);
    AlcanzaPaso([], i, 4, T, PorTamanio, true, Poner("a", "x"));
    os, m := [] + [Poner("a", "x")], Aplicar(i, T, PorTamanio, Poner("a", "x"));
  }

  lemma TrasLarga(T: nat) returns (os: seq<Mensaje>, m: Motor)
    requires T > 0
    ensures Alcanza(os, m, 4, T, PorTamanio, true) && ConLarga(m.a, T)
  {
    var xs, p := TrasChica(T);
    PoneLarga(p, T);
    AlcanzaPaso(xs, p, 4, T, PorTamanio, true, Poner("k", Largo(T)));
    os, m := xs + [Poner("k", Largo(T))], Aplicar(p, T, PorTamanio, Poner("k", Largo(T)));
  }

  lemma TrasVacia(T: nat) returns (os: seq<Mensaje>, m: Motor)
    requires T > 0
    ensures Alcanza(os, m, 4, T, PorTamanio, true) && EsTestigo(m.a, T)
  {
    var xs, p := TrasLarga(T);
    QuitaChica(p, T);
    AlcanzaPaso(xs, p, 4, T, PorTamanio, true, Poner("a", ""));
    os, m := xs + [Poner("a", "")], Aplicar(p, T, PorTamanio, Poner("a", ""));
  }

  /** For every slot size a clean run reaches an arena that the next compaction corrupts: four
      slots, "a" with one byte, "k" with 2T+1, and "a" again with none. */
  lemma CorrompeAlcanzable(T: nat)
    requires T > 0
    ensures exists os, m ::
              && Alcanza(os, m, 4, T, PorTamanio, true) && Bien(m.a, T)
              && "k" in Mapa(m.a, T)
              && var r := Mapa(Aplicar(m, T, PorTamanio, PedidoCompactar).a, T);
                 "k" in r && r["k"] != Mapa(m.a, T)["k"]
  {
    var os, m := TrasVacia(T);
    TestigoCorrompido(m.a, T);
  }

  // ---- a file shorter than its value ----

  lemma CuatroBytes(m: Motor, k: string, v: string)
    requires Bien(m.a, 1) && !m.flag && |m.a.tabla| == 4
    requires k != VACIO && Viva(m.a.tabla[0]) && m.a.tabla[0].clave != k
    requires m.a.tabla[0].tamanio == 1 && m.a.tabla[0].age == 0 && |v| == 4
    requires forall i | 1 <= i < 4 :: !Viva(m.a.tabla[i]) && m.a.tabla[i].age <= 0
    ensures Puede(m, 1, k, 4)
    ensures var r := SetLRU(m, 1, PorTamanio, k, v);
            !r.flag && r.a.mem == v && r.a.tabla == seq(4, _ => Entrada(k, 4, 0))
  {
    var t := Envejecer(m.a.tabla, 1);
    CuatroLibres(m.a.tabla);
    PonerDesalojando(m, 1, PorTamanio, k, v, 0);
    assert Colocada(Desalojar(t, 1), 0, 4, Entrada(k, 4, 0)) == seq(4, _ => Entrada(k, 4, 0));
    assert Escribir(m.a.mem, 0, v + [NUL]) == v;
  }

  /** Four slots with one live, aged: no hole of four until it is evicted. */
  lemma CuatroLibres(s: seq<Entrada>)
    requires |s| == 4 && Viva(s[0]) && s[0].tamanio == 1 && s[0].age == 0
    requires forall i | 1 <= i < 4 :: !Viva(s[i]) && s[i].age <= 0
    ensures var t := Envejecer(s, 1);
            && Apretada(t) && MasVieja(t) == 1
            && BuscarEspacioLibre(t, 4) == -1 && BuscarEspacioLibre(Desalojar(t, 1), 4) == 0
  {
    var t := Envejecer(s, 1);
    assert t[0].age == 1 && forall i | 0 <= i < 4 :: t[i].age <= 1;
    assert Hueco(Desalojar(t, 1), 0, 4) && !Hueco(t, 0, 4);
  }

  lemma PrimeraDeCuatro(m: Motor)
    requires Bien(m.a, 1) && m.a.tabla == seq(4, _ => LIMPIA)
    ensures Puede(m, 1, "a", 1)
    ensures var r := SetLRU(m, 1, PorTamanio, "a", "x");
            r.flag == m.flag && r.a.tabla == [Entrada("a", 1, 0), LIMPIA, LIMPIA, LIMPIA]
  {
    var t := Envejecer(m.a.tabla, 1);
    assert t == m.a.tabla && Hueco(t, 0, 1);
    PonerEnHueco(m, 1, PorTamanio, "a", "x", 0);
  }

  lemma Encoge(m: Motor)
    requires Bien(m.a, 1) && m.a.tabla == seq(4, _ => Entrada("b", 4, 0))
    ensures Puede(m, 1, "b", 1)
    ensures var r, libre := SetLRU(m, 1, PorTamanio, "b", "y"), Entrada(VACIO, 4, 0);
            r.flag == m.flag && r.a.tabla == [Entrada("b", 1, 0), libre, libre, libre]
  {
    var t := Envejecer(m.a.tabla, 1);
    assert t == seq(4, _ => Entrada("b", 4, -1));
    PrimeroDeTramo(t, "b", 0, 4);
    var u := t[0 := Entrada("b", 1, 0)];
    assert FinDeClave(u, 1, "b") == 4;
  }

  lemma CadenaMas(ds: seq<Disco>, xs: seq<Suceso>, es: seq<Disco>, ys: seq<Suceso>, T: nat, modo: Modo)
    requires Cadena(ds, xs, T, modo) && Cadena(es, ys, T, modo) && ds[|xs|] == es[0]
    ensures Cadena(ds + es[1..], xs + ys, T, modo)
  {
    var fs, zs := ds + es[1..], xs + ys;
    forall i | 0 <= i < |zs| ensures Eslabon(fs, zs, i, T, modo) {
      if i < |xs| {
        assert Eslabon(ds, xs, i, T, modo);
      } else {
        assert Eslabon(es, ys, i - |xs|, T, modo);
        assert fs[i] == es[i - |xs|];
      }
    }
  }

  /** A SET that ends, of a value that is not empty. */
  lemma Pone(d: Disco, k: string, v: string) returns (r: Disco)
    requires Bien(d.m.a, 1) && k != VACIO && v != "" && Puede(d.m, 1, k, |v|)
    ensures Cadena([d, r], [Envio(Poner(k, v))], 1, PorTamanio)
    ensures r.m == SetLRU(d.m, 1, PorTamanio, k, v) && Bien(r.m.a, 1)
    ensures k in r.c && forall x | x in d.c :: x in r.c && r.c[x] == d.c[x]
    ensures k !in d.c ==> |r.c[k]| == Paginas(|v|, 1) + 2
  {
    r := Disco(SetLRU(d.m, 1, PorTamanio, k, v), Abrir(d.c, k, |v|, 1));
  }

  /** "a" comes, and "bbbb" evicts it; its file stays. */
  lemma DosPuestas(d0: Disco) returns (ds: seq<Disco>)
    requires Bien(d0.m.a, 1) && d0.m.a.tabla == seq(4, _ => LIMPIA) && !d0.m.flag && d0.c == map[]
    ensures Cadena(ds, [Envio(Poner("a", "x"))] + [Envio(Poner("b", "bbbb"))], 1, PorTamanio) && ds[0] == d0
    ensures Bien(ds[2].m.a, 1) && ds[2].m.a.tabla == seq(4, _ => Entrada("b", 4, 0)) && !ds[2].m.flag
    ensures "a" in ds[2].c && |ds[2].c["a"]| == 3
  {
    PrimeraDeCuatro(d0.m);
    var d1 := Pone(d0, "a", "x");
    CuatroBytes(d1.m, "b", "bbbb");
    var d2 := Pone(d1, "b", "bbbb");
    ds := [d0, d1] + [d1, d2][1..];
    CadenaMas([d0, d1], [Envio(Poner("a", "x"))], [d1, d2], [Envio(Poner("b", "bbbb"))], 1, PorTamanio);
  }

  /** "b" shrinks, and "a" comes back longer than its file. */
  lemma OtrasDos(d2: Disco) returns (ds: seq<Disco>)
    requires Bien(d2.m.a, 1) && d2.m.a.tabla == seq(4, _ => Entrada("b", 4, 0)) && !d2.m.flag
    requires "a" in d2.c && |d2.c["a"]| == 3
    ensures Cadena(ds, [Envio(Poner("b", "y"))] + [Envio(Poner("a", "wxyz"))], 1, PorTamanio) && ds[0] == d2
    ensures var d4 := ds[2];
            && Bien(d4.m.a, 1) && d4.m.a.tabla == seq(4, _ => Entrada("a", 4, 0)) && d4.m.a.mem == "wxyz"
            && "a" in d4.c && |d4.c["a"]| == 3
  {
    Encoge(d2.m);
    var d3 := Pone(d2, "b", "y");
    CuatroBytes(d3.m, "a", "wxyz");
    var d4 := Pone(d3, "a", "wxyz");
    ds := [d2, d3] + [d3, d4][1..];
    CadenaMas([d2, d3], [Envio(Poner("b", "y"))], [d3, d4], [Envio(Poner("a", "wxyz"))], 1, PorTamanio);
  }

  lemma VuelcaUna(d: Disco)
    requires Bien(d.m.a, 1) && d.m.a.mem == "wxyz"
    requires d.m.a.tabla == seq(4, _ => Entrada("a", 4, 0)) && "a" in d.c && |d.c["a"]| == 3
    ensures Volcable(d) && "a" in Claves(d.m.a.tabla)
    ensures GetValue(d.m.a, 1, "a") == Some("wxyz") && Volcar(d.c, d.m.a, 1, 0)["a"] == "wxy"
  {
    var t := d.m.a.tabla;
    PrimeroDeTramo(t, "a", 0, 4);
    assert t[0].clave == "a";
    assert Leer(d.m.a.mem, 0, 4) == "wxyz";
    assert Pisar(d.c["a"], "wxyz") == "wxy";
    assert Paginas(4, 1) == 4;
  }

  lemma VuelveLarga() returns (ds: seq<Disco>, xs: seq<Suceso>)
    ensures xs == [Envio(Poner("a", "x"))] + [Envio(Poner("b", "bbbb"))]
                  + ([Envio(Poner("b", "y"))] + [Envio(Poner("a", "wxyz"))])
    ensures Historia(ds, xs, 4, 1, PorTamanio)
    ensures var d := ds[4];
            && Bien(d.m.a, 1) && d.m.a.mem == "wxyz" && d.m.a.tabla == seq(4, _ => Entrada("a", 4, 0))
            && "a" in d.c && |d.c["a"]| == 3
  {
    var d0 := Disco(Recencia.Inicial(4, 1, "...."), map[]);
    assert |"...."| == 4;
    var us, vs := [Envio(Poner("a", "x"))] + [Envio(Poner("b", "bbbb"))],
                  [Envio(Poner("b", "y"))] + [Envio(Poner("a", "wxyz"))];
    var ds1 := DosPuestas(d0);
    var ds2 := OtrasDos(ds1[2]);
    CadenaMas(ds1, us, ds2, vs, 1, PorTamanio);
    ds, xs := ds1 + ds2[1..], us + vs;
    assert ds[4] == ds2[2];
  }

  /** With slots of one byte, four of them: SET a x, SET b bbbb, which evicts a and keeps its file,
      SET b y, SET a wxyz, which evicts b. A dump then writes "wxy" alone, for the file of a was
      made for one byte. */
  lemma ArchivoCorto()
    ensures exists ds: seq<Disco>, xs ::
              && Historia(ds, xs, 4, 1, PorTamanio) && |xs| == 4
              && var d := ds[4];
                 && Bien(d.m.a, 1) && Volcable(d) && "a" in Claves(d.m.a.tabla)
                 && GetValue(d.m.a, 1, "a") == Some("wxyz") && Volcar(d.c, d.m.a, 1, 0)["a"] == "wxy"
  {
    var ds, xs := VuelveLarga();
    VuelcaUna(ds[4]);
  }
}
