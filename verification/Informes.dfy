/** The free slots of an LRU instance and the Coordinador's record of them, over every run. */
module Informes {
  import opened Tabla
  import opened Arena
  import opened Compactacion
  import opened Recencia
  import opened Archivos
  import opened Cabida

  import opened Coordinacion
  import R = Respuestas

  /** What the Coordinador asked for the event to happen; a dump is the instance's own. */
  function Pedida(d: Disco, x: Suceso, e: Disco): seq<R.Orden> {
    match x
    case Envio(Poner(k, v)) => [R.Poner(0, Libres(e.m.a.tabla))]
    case Envio(PedidoCompactar) => [R.Compactar]
    case Guarda(k) => [R.Almacenar(ConsultarTabla(d.m.a.tabla, k) != -1)]
    case Vuelca => []
  }

  /** The operations behind the first `n` events. */
  function Ordenes(ds: seq<Disco>, xs: seq<Suceso>, n: nat): seq<R.Orden>
    requires |ds| == |xs| + 1 && n <= |xs|
  {
    if n == 0 then [] else Ordenes(ds, xs, n - 1) + Pedida(ds[n - 1], xs[n - 1], ds[n])
  }

  predicate HuboSet(xs: seq<Suceso>, n: nat)
    requires n <= |xs|
  {
    exists i | 0 <= i < n :: xs[i].Envio? && xs[i].o.Poner?
  }

  /** Each of the first `n` events that is a STORE found its key in the table. */
  ghost predicate Halladas(ds: seq<Disco>, xs: seq<Suceso>, n: nat)
    requires |ds| == |xs| + 1 && n <= |xs|
  {
    forall i | 0 <= i < n && xs[i].Guarda? :: xs[i].clave in Claves(ds[i].m.a.tabla)
  }

  lemma OrdenesMas(os: seq<R.Orden>, o: R.Orden)
    ensures R.Ausentes(os + [o]) == R.Ausentes(os) + if o == R.Almacenar(false) then 1 else 0
    ensures R.UltimoInforme(os + [o]) == if o.Poner? then o.libres else R.UltimoInforme(os)
  {
    assert (os + [o])[..|os|] == os;
  }

  lemma AlmacenarHalla(t: seq<Entrada>, k: string)
    requires k != VACIO
    ensures ConsultarTabla(t, k) != -1 <==> k in Claves(t)
  {
    var q := ConsultarTabla(t, k);
    if q != -1 { assert t[q].clave in Claves(t); }
  }

  /** Only a SET changes how many slots are free. */
  lemma SucederLibres(d: Disco, T: nat, modo: Modo, x: Suceso, e: Disco)
    requires Sucede(d, T, modo, x, e) && !(x.Envio? && x.o.Poner?)
    ensures Libres(e.m.a.tabla) == Libres(d.m.a.tabla)
  {
    if x.Envio? { CompactarTabla(d.m.a, T, modo); }
  }

  lemma PedidaSigue(os: seq<R.Orden>, d: Disco, T: nat, modo: Modo, x: Suceso, e: Disco)
    requires Sucede(d, T, modo, x, e)
    ensures var ps := os + Pedida(d, x, e);
            && (R.Ausentes(ps) == 0 <==> R.Ausentes(os) == 0 && (x.Guarda? ==> x.clave in Claves(d.m.a.tabla)))
            && (if x.Envio? && x.o.Poner? then R.UltimoInforme(ps) == Libres(e.m.a.tabla)
                else R.UltimoInforme(ps) == R.UltimoInforme(os) && Libres(e.m.a.tabla) == Libres(d.m.a.tabla))
  {
    if x.Guarda? { AlmacenarHalla(d.m.a.tabla, x.clave); }
    if !(x.Envio? && x.o.Poner?) { SucederLibres(d, T, modo, x, e); }
    if x.Vuelca? { assert os + Pedida(d, x, e) == os; } else { OrdenesMas(os, Pedida(d, x, e)[0]); }
  }

  /** The STOREs of absent keys, and the last report while there is one. */
  lemma {:induction false} OrdenesSiguen(ds: seq<Disco>, xs: seq<Suceso>, T: nat, modo: Modo, n: nat)
    requires Cadena(ds, xs, T, modo) && n <= |xs|
    ensures R.Ausentes(Ordenes(ds, xs, n)) == 0 <==> Halladas(ds, xs, n)
    ensures R.UltimoInforme(Ordenes(ds, xs, n)) == if HuboSet(xs, n) then Libres(ds[n].m.a.tabla) else 999
  {
    if n > 0 {
      OrdenesSiguen(ds, xs, T, modo, n - 1);
      assert Eslabon(ds, xs, n - 1, T, modo);
      PedidaSigue(Ordenes(ds, xs, n - 1), ds[n - 1], T, modo, xs[n - 1], ds[n]);
      assert HuboSet(xs, n) <==> HuboSet(xs, n - 1) || (xs[n - 1].Envio? && xs[n - 1].o.Poner?);
    }
  }

  /** In every run of an LRU instance, the Coordinador has read all that it sent exactly when every
      STORE found its key; and then, under LSU, it knows how many slots are free, from the first
      SET on. */
  lemma InformeLRU(ds: seq<Disco>, xs: seq<Suceso>, N: nat, T: nat, modo: Modo)
    requires Historia(ds, xs, N, T, modo)
    ensures var c := R.Tras(LSU, Ordenes(ds, xs, |xs|));
            && c.Some?
            && (c.value.cola == [] <==> Halladas(ds, xs, |xs|))
            && (Halladas(ds, xs, |xs|) && HuboSet(xs, |xs|) ==> c.value.libre == Libres(ds[|xs|].m.a.tabla))
  {
    OrdenesSiguen(ds, xs, T, modo, |xs|);
    R.SiempreResponde(LSU, Ordenes(ds, xs, |xs|));
  }

  // ---- a run that leaves the record behind ----

  /** A STORE of a key that is not in the table. */
  lemma GuardaAusente(d: Disco, k: string)
    requires Bien(d.m.a, 1) && k != VACIO && ConsultarTabla(d.m.a.tabla, k) == -1
    ensures Cadena([d, d], [Guarda(k)], 1, PorTamanio)
  {}

  lemma LibresDeCuatro(e: Entrada, libre: Entrada)
    requires Viva(e) && !Viva(libre)
    ensures Libres([e, libre, libre, libre]) == 3
  {
    LibresDeVacias([libre, libre, libre]);
    assert [e, libre, libre, libre][1..] == [libre, libre, libre];
  }

  /** "a" is stored again after it was evicted, and then "b" shrinks. */
  lemma TrasDesalojar(d2: Disco) returns (ds: seq<Disco>)
    requires Bien(d2.m.a, 1) && d2.m.a.tabla == seq(4, _ => Entrada("b", 4, 0))
    ensures Cadena(ds, [Guarda("a")] + [Envio(Poner("b", "y"))], 1, PorTamanio) && ds[0] == d2 == ds[1]
    ensures ConsultarTabla(d2.m.a.tabla, "a") == -1 && Libres(ds[2].m.a.tabla) == 3
  {
    GuardaAusente(d2, "a");
    Encoge(d2.m);
    var d3 := Pone(d2, "b", "y");
    LibresDeCuatro(Entrada("b", 1, 0), Entrada(VACIO, 4, 0));
    ds := [d2, d2] + [d2, d3][1..];
    CadenaMas([d2, d2], [Guarda("a")], [d2, d3], [Envio(Poner("b", "y"))], 1, PorTamanio);
  }

  lemma HistoriaAtrasada() returns (ds: seq<Disco>, xs: seq<Suceso>)
    ensures xs == [Envio(Poner("a", "x"))] + [Envio(Poner("b", "bbbb"))] + ([Guarda("a")] + [Envio(Poner("b", "y"))])
    ensures Historia(ds, xs, 4, 1, PorTamanio)
    ensures ds[2] == ds[3] && ConsultarTabla(ds[2].m.a.tabla, "a") == -1
    ensures Libres(ds[4].m.a.tabla) == 3
  {
    var d0 := Disco(Recencia.Inicial(4, 1, "...."), map[]);
    assert |"...."| == 4;
    var us, vs := [Envio(Poner("a", "x"))] + [Envio(Poner("b", "bbbb"))], [Guarda("a")] + [Envio(Poner("b", "y"))];
    var ds1 := DosPuestas(d0);
    var ds2 := TrasDesalojar(ds1[2]);
    CadenaMas(ds1, us, ds2, vs, 1, PorTamanio);
    ds, xs := ds1 + ds2[1..], us + vs;
    assert ds[2] == ds1[2] && ds[3] == ds2[1] && ds[4] == ds2[2];
  }

  lemma DosOrdenesMas(ds: seq<Disco>, xs: seq<Suceso>)
    requires |ds| == 5 && |xs| == 4 && xs[2] == Guarda("a") && xs[3] == Envio(Poner("b", "y"))
    requires ConsultarTabla(ds[2].m.a.tabla, "a") == -1 && Libres(ds[4].m.a.tabla) == 3
    ensures Ordenes(ds, xs, 4) == Ordenes(ds, xs, 2) + [R.Almacenar(false)] + [R.Poner(0, 3)]
  {
    assert Ordenes(ds, xs, 3) == Ordenes(ds, xs, 2) + [R.Almacenar(false)];
    assert Ordenes(ds, xs, 4) == Ordenes(ds, xs, 3) + [R.Poner(0, 3)];
  }

  /** With slots of one byte, four of them: SET a x, SET b bbbb, which evicts a, STORE a, SET b y.
      Three slots are free and the record says none. */
  lemma InformeAtrasado()
    ensures exists ds: seq<Disco>, xs ::
              && Historia(ds, xs, 4, 1, PorTamanio) && |xs| == 4 && Libres(ds[4].m.a.tabla) == 3
              && var c := R.Tras(LSU, Ordenes(ds, xs, 4));
                 c.Some? && c.value.libre == 0
  {
    var ds, xs := HistoriaAtrasada();
    OrdenesSiguen(ds, xs, 1, PorTamanio, 2);
    DosOrdenesMas(ds, xs);
    R.TrasAusente(Ordenes(ds, xs, 2), 3);
  }
}
