/** The mapped files under LRU, over every run of SETs, compactions, dumps and STOREs, whatever
    happens to the layout. */
module Archivos {
  import opened Opciones
  import opened Tabla
  import opened Arena
  import opened Compactacion
  import opened LRU
  import opened LRURefina
  import opened Recencia
  import opened Volcado

  // ---- one SET ----

  lemma ProcedenSinCeros(r: seq<Entrada>, t: seq<Entrada>)
    requires Proceden(r, t) && SinCeros(t)
    ensures SinCeros(r)
  {
    forall i | 0 <= i < |r| && Viva(r[i]) ensures r[i].tamanio > 0 { assert r[i] in r; }
  }

  lemma EnvejecidaSigue(t: seq<Entrada>, T: nat)
    ensures Claves(Envejecer(t, T)) == Claves(t)
    ensures SinCeros(t) ==> SinCeros(Envejecer(t, T))
  {
    NombresIguales(t, Envejecer(t, T));
  }

  lemma ActualizadaPorSlot(t: seq<Entrada>, q: nat, p: nat, k: string, n: nat)
    requires q < |t| && t[q].clave == k
    ensures var r := Actualizada(t, q, p, k, n);
            && (forall i | 0 <= i < |t| && Viva(r[i]) :: r[i].clave == t[i].clave)
            && (forall i | 0 <= i < |t| && Viva(r[i]) :: r[i].tamanio == if i == q then n else t[i].tamanio)
            && (p == 0 ==> !Viva(r[q]))
  {}

  /** An update names no new key; with no bytes it leaves its key's first slot free. */
  lemma ActualizadaSigue(t: seq<Entrada>, T: nat, k: string, n: nat)
    requires T > 0 && k != VACIO && ConsultarTabla(t, k) != -1
    ensures var r := Actualizada(t, ConsultarTabla(t, k), Paginas(n, T), k, n);
            && Claves(r) <= Claves(t)
            && (SinCeros(t) ==> SinCeros(r))
  {
    var q, p := ConsultarTabla(t, k), Paginas(n, T);
    var r := Actualizada(t, q, p, k, n);
    ActualizadaPorSlot(t, q, p, k, n);
    forall x | x in Claves(r) ensures x in Claves(t) {
      var i :| 0 <= i < |r| && Viva(r[i]) && r[i].clave == x;
      assert Viva(t[i]) && t[i].clave == x;
    }
  }

  lemma ColocadaSigue(t: seq<Entrada>, pos: nat, p: nat, k: string, n: nat)
    requires n == 0 ==> p == 0
    ensures var r := Colocada(t, pos, p, Entrada(k, n, 0));
            && Claves(r) <= Claves(t) + {k}
            && (SinCeros(t) ==> SinCeros(r))
  {
    var r := Colocada(t, pos, p, Entrada(k, n, 0));
    forall x | x in Claves(r) ensures x in Claves(t) + {k} {
      var i :| 0 <= i < |r| && Viva(r[i]) && r[i].clave == x;
      assert x != k ==> t[i].clave == x;
    }
  }

  /** A SET, of any value and even one that grows its key in place, leaves no key in the table but
      those that were there and its own, and no live slot of size 0. */
  lemma SetConserva(m: Motor, T: nat, modo: Modo, k: string, v: string)
    requires Bien(m.a, T) && k != VACIO && Puede(m, T, k, |v|)
    ensures var r := SetLRU(m, T, modo, k, v).a.tabla;
            && Claves(r) <= Claves(m.a.tabla) + {k}
            && (SinCeros(m.a.tabla) ==> SinCeros(r))
  {
    var e, p := Envejecido(m, T), Paginas(|v|, T);
    EnvejecidaSigue(m.a.tabla, T);
    if ConsultarTabla(e.a.tabla, k) != -1 {
      ActualizadaSigue(e.a.tabla, T, k, |v|);
    } else {
      var h := HacerLugar(e, T, modo, p, MasVieja(e.a.tabla)).a.tabla;
      HacerLugarProcede(e, T, modo, p, MasVieja(e.a.tabla));
      ProcedenClaves(h, e.a.tabla);
      if SinCeros(m.a.tabla) { ProcedenSinCeros(h, e.a.tabla); }
      ColocadaSigue(h, BuscarEspacioLibre(h, p), p, k, |v|);
    }
  }

  lemma CompactarSigue(a: Almacen, T: nat, modo: Modo)
    requires Bien(a, T)
    ensures var r := Compactar(a, T, modo).tabla;
            && Claves(r) <= Claves(a.tabla)
            && (SinCeros(a.tabla) ==> SinCeros(r))
  {
    var r := Compactar(a, T, modo).tabla;
    CompactarProcede(a, T, modo);
    ProcedenClaves(r, a.tabla);
    if SinCeros(a.tabla) { ProcedenSinCeros(r, a.tabla); }
  }

  // ---- runs ----

  /** The engine and its files. */
  datatype Disco = Disco(m: Motor, c: Copias)

  datatype Suceso = Envio(o: Mensaje) | Vuelca | Guarda(clave: string)

  /** A dump started here ends, and finds the file of every key of the table. */
  ghost predicate Volcable(d: Disco) {
    SinCeros(d.m.a.tabla) && Claves(d.m.a.tabla) <= d.c.Keys
  }

  /** The SETs that return and do not make the process exit: a new key finds room, and the first
      value of a key is not empty. Growing a key in place is one of them. Compaction requests,
      dumps and STOREs, always. */
  ghost predicate Ocurre(d: Disco, T: nat, x: Suceso)
    requires Bien(d.m.a, T)
  {
    match x
    case Envio(Poner(k, v)) => k != VACIO && Puede(d.m, T, k, |v|) && (k in d.c || v != "")
    case Guarda(k) => k != VACIO
    case _ => true
  }

  /** None is a dump that hangs or exits, or a STORE that follows a null pointer. */
  ghost function Suceder(d: Disco, T: nat, modo: Modo, x: Suceso): (r: Option<Disco>)
    requires Bien(d.m.a, T) && Ocurre(d, T, x)
    ensures r.Some? ==> Bien(r.value.m.a, T) && |r.value.m.a.tabla| == |d.m.a.tabla|
  {
    match x
    case Envio(Poner(k, v)) => Some(Disco(SetLRU(d.m, T, modo, k, v), Abrir(d.c, k, |v|, T)))
    case Envio(PedidoCompactar) => Some(d.(m := d.m.(a := Compactar(d.m.a, T, modo))))
    case Vuelca => if Volcable(d) then Some(d.(c := Volcar(d.c, d.m.a, T, 0))) else None
    case Guarda(k) =>
      if ConsultarTabla(d.m.a.tabla, k) != -1 && k !in d.c then None
      else Some(d.(c := Guardar(d.c, d.m.a, T, k)))
  }

  ghost predicate Sucede(p: Disco, T: nat, modo: Modo, x: Suceso, d: Disco) {
    Bien(p.m.a, T) && Ocurre(p, T, x) && Suceder(p, T, modo, x) == Some(d)
  }

  ghost predicate Eslabon(ds: seq<Disco>, xs: seq<Suceso>, i: nat, T: nat, modo: Modo)
    requires i < |xs| && |ds| == |xs| + 1
  {
    Sucede(ds[i], T, modo, xs[i], ds[i + 1])
  }

  /** The events `xs` take ds[0] through the other `ds`. */
  ghost predicate Cadena(ds: seq<Disco>, xs: seq<Suceso>, T: nat, modo: Modo) {
    |ds| == |xs| + 1 && forall i | 0 <= i < |xs| :: Eslabon(ds, xs, i, T, modo)
  }

  /** The same from the empty engine with no files. */
  ghost predicate Historia(ds: seq<Disco>, xs: seq<Suceso>, N: nat, T: nat, modo: Modo) {
    && Cadena(ds, xs, T, modo)
    && T > 0
    && exists basura :: |basura| == N * T && ds[0] == Disco(Recencia.Inicial(N, T, basura), map[])
  }

  /** The value of the first SET of `k`. */
  function Primero(xs: seq<Suceso>, k: string): Option<string> {
    if |xs| == 0 then None
    else
      var x, r := xs[|xs| - 1], Primero(xs[..|xs| - 1], k);
      if r.None? && x.Envio? && x.o.Poner? && x.o.clave == k then Some(x.o.valor) else r
  }

  /** The keys ever SET have a file, of the length that the first value of each gave it. */
  ghost predicate Medidos(c: Copias, xs: seq<Suceso>, T: nat)
    requires T > 0
  {
    forall k :: Medido(c, Primero(xs, k), T, k)
  }

  ghost predicate Medido(c: Copias, primero: Option<string>, T: nat, k: string)
    requires T > 0
  {
    match primero
    case None => k !in c
    case Some(v) => k in c && v != "" && |c[k]| == Paginas(|v|, T) * T + 2
  }

  /** After any event a dump would still find everything; so no dump and no STORE fails. */
  lemma SucedeSiempre(d: Disco, T: nat, modo: Modo, x: Suceso)
    requires Bien(d.m.a, T) && Volcable(d) && Ocurre(d, T, x)
    ensures Suceder(d, T, modo, x).Some? && Volcable(Suceder(d, T, modo, x).value)
  {
    match x
    case Envio(Poner(k, v)) => SetConserva(d.m, T, modo, k, v);
    case Envio(PedidoCompactar) => CompactarSigue(d.m.a, T, modo);
    case Guarda(k) =>
      var q := ConsultarTabla(d.m.a.tabla, k);
      assert q != -1 ==> d.m.a.tabla[q].clave in Claves(d.m.a.tabla);
    case _ =>
  }

  lemma SucederMide(d: Disco, T: nat, modo: Modo, xs: seq<Suceso>, x: Suceso)
    requires Bien(d.m.a, T) && Volcable(d) && Ocurre(d, T, x) && Medidos(d.c, xs, T)
    requires Suceder(d, T, modo, x).Some?
    ensures Medidos(Suceder(d, T, modo, x).value.c, xs + [x], T)
  {
    var c, ys := Suceder(d, T, modo, x).value.c, xs + [x];
    assert ys[..|ys| - 1] == xs;
    if x.Envio? && x.o.Poner? {
      assert c == Abrir(d.c, x.o.clave, |x.o.valor|, T);
      forall k ensures Medido(c, Primero(ys, k), T, k) { AbrirMide(d.c, T, xs, x.o.clave, x.o.valor, k); }
    } else {
      assert c.Keys == d.c.Keys && forall k | k in d.c :: |c[k]| == |d.c[k]|;
      forall k ensures Medido(c, Primero(ys, k), T, k) { assert Medido(d.c, Primero(xs, k), T, k); }
    }
  }

  lemma AbrirMide(c: Copias, T: nat, xs: seq<Suceso>, k: string, v: string, x: string)
    requires T > 0 && Medido(c, Primero(xs, x), T, x) && (k in c || v != "")
    ensures Medido(Abrir(c, k, |v|, T), Primero(xs + [Envio(Poner(k, v))], x), T, x)
  {
    var ys := xs + [Envio(Poner(k, v))];
    assert ys[..|ys| - 1] == xs;
  }

  /** At every point of every run of SETs, growing ones too, compactions, dumps and STOREs,
      whatever it does to the layout: a dump ends and finds the file of every key, no event fails,
      and each file is as long as the first value of its key asked for. */
  lemma {:induction false} ArchivosSiempre(ds: seq<Disco>, xs: seq<Suceso>, N: nat, T: nat, modo: Modo, n: nat)
    requires Historia(ds, xs, N, T, modo) && n <= |xs|
    ensures var d := ds[n];
            && Bien(d.m.a, T) && |d.m.a.tabla| == N && Volcable(d) && Medidos(d.c, xs[..n], T)
            && forall x | Ocurre(d, T, x) :: Suceder(d, T, modo, x).Some?
    decreases n
  {
    if n > 0 {
      ArchivosSiempre(ds, xs, N, T, modo, n - 1);
      assert Eslabon(ds, xs, n - 1, T, modo);
      SucedeSiempre(ds[n - 1], T, modo, xs[n - 1]);
      SucederMide(ds[n - 1], T, modo, xs[..n - 1], xs[n - 1]);
      assert xs[..n] == xs[..n - 1] + [xs[n - 1]];
    }
    forall x | Ocurre(ds[n], T, x) ensures Suceder(ds[n], T, modo, x).Some? {
      SucedeSiempre(ds[n], T, modo, x);
    }
  }

  function Envios(xs: seq<Suceso>): (os: seq<Mensaje>) {
    if |xs| == 0 then []
    else Envios(xs[..|xs| - 1]) + if xs[|xs| - 1].Envio? then [xs[|xs| - 1].o] else []
  }

  // ---- what a dump and a STORE leave in the files ----

  /** If the event is a SET it does not grow its key in place and, if `limpia`, its terminator
      changes no live slot. */
  ghost predicate Conforme(d: Disco, T: nat, modo: Modo, x: Suceso, limpia: bool) {
    x.Envio? ==> Bien(d.m.a, T) && Admite(d.m, T, x.o) && (limpia ==> Limpio(d.m, T, modo, x.o))
  }

  ghost predicate Conformes(ds: seq<Disco>, xs: seq<Suceso>, T: nat, modo: Modo, limpia: bool)
    requires |ds| == |xs| + 1
  {
    forall i | 0 <= i < |xs| :: Conforme(ds[i], T, modo, xs[i], limpia)
  }

  lemma EnviosMas(xs: seq<Suceso>, n: nat)
    requires n < |xs|
    ensures Envios(xs[..n + 1]) == Envios(xs[..n]) + if xs[n].Envio? then [xs[n].o] else []
  {
    assert xs[..n + 1][..n] == xs[..n];
  }

  /** The engine of such a run is reached by its SETs and compactions alone. */
  lemma {:induction false} HistoriaAlcanza(ds: seq<Disco>, xs: seq<Suceso>, N: nat, T: nat, modo: Modo, limpia: bool,
                                           n: nat)
    requires Historia(ds, xs, N, T, modo) && Conformes(ds, xs, T, modo, limpia) && n <= |xs|
    ensures Alcanza(Envios(xs[..n]), ds[n].m, N, T, modo, limpia)
  {
    if n > 0 {
      var p, x := ds[n - 1], xs[n - 1];
      HistoriaAlcanza(ds, xs, N, T, modo, limpia, n - 1);
      assert Eslabon(ds, xs, n - 1, T, modo) && Conforme(p, T, modo, x, limpia);
      EnviosMas(xs, n - 1);
      if x.Envio? {
        AlcanzaPaso(Envios(xs[..n - 1]), p.m, N, T, modo, limpia, x.o);
      } else {
        assert ds[n].m == p.m && Envios(xs[..n]) == Envios(xs[..n - 1]);
      }
    }
  }

  /** A stored key has a file of the length that its first value asked for; in a clean run what is
      stored is the last value SET. */
  lemma ArchivoDe(ds: seq<Disco>, xs: seq<Suceso>, N: nat, T: nat, modo: Modo, limpia: bool, n: nat, k: string)
    requires Historia(ds, xs, N, T, modo) && Conformes(ds, xs, T, modo, limpia) && n <= |xs|
    ensures var d := ds[n];
            && Bien(d.m.a, T) && Disposicion(d.m.a.tabla, T) && Volcable(d)
            && (k in Claves(d.m.a.tabla) ==>
                  && Primero(xs[..n], k).Some? && k in d.c && GetValue(d.m.a, T, k).Some?
                  && |d.c[k]| == Paginas(|Primero(xs[..n], k).value|, T) * T + 2
                  && (limpia && Chicos(Envios(xs[..n]), T, modo) ==>
                        Ultimo(Envios(xs[..n]), k) == GetValue(d.m.a, T, k)))
  {
    var d := ds[n];
    ArchivosSiempre(ds, xs, N, T, modo, n);
    HistoriaAlcanza(ds, xs, N, T, modo, limpia, n);
    CorridaConserva(Envios(xs[..n]), d.m, N, T, modo, limpia);
    if k in Claves(d.m.a.tabla) {
      assert Medido(d.c, Primero(xs[..n], k), T, k);
      if limpia && Chicos(Envios(xs[..n]), T, modo) {
        CorridaAlDia(Envios(xs[..n]), d.m, N, T, modo);
        assert k in Mapa(d.m.a, T);
      }
    }
  }

  predicate EsSetDe(x: Suceso, k: string) { x.Envio? && x.o.Poner? && x.o.clave == k }

  /** What an event that is no SET of `k`, whose value is `v` while it is stored, does to its file. */
  lemma SucedeEnArchivo(d: Disco, T: nat, modo: Modo, x: Suceso, e: Disco, k: string, v: string)
    requires Sucede(d, T, modo, x, e) && Disposicion(d.m.a.tabla, T) && Volcable(d) && k in d.c && k != VACIO
    requires !EsSetDe(x, k) && (k in Claves(d.m.a.tabla) ==> GetValue(d.m.a, T, k) == Some(v))
    ensures k in e.c && |e.c[k]| == |d.c[k]|
    ensures if k in Claves(d.m.a.tabla) && (x == Vuelca || x == Guarda(k)) then v <= e.c[k] <==> |v| <= |e.c[k]|
            else e.c[k] == d.c[k]
  {
    match x
    case Envio(_) =>
    case Vuelca => VolcadoFiel(d.c, d.m.a, T, k);
    case Guarda(y) => GuardadoFiel(d.c, d.m.a, T, y);
  }

  /** What a dump, or a STORE of the key, promises under LRU. In any run that grows no key in place,
      the file of a stored key ends up beginning with its value exactly when that fits the file that
      the first value of the key made; in a clean run that value is the last one SET. */
  lemma CopiadoLRU(ds: seq<Disco>, xs: seq<Suceso>, N: nat, T: nat, modo: Modo, limpia: bool, k: string, x: Suceso)
    requires Historia(ds, xs, N, T, modo) && Conformes(ds, xs, T, modo, limpia)
    requires k in Claves(ds[|xs|].m.a.tabla) && (x == Vuelca || x == Guarda(k))
    ensures var d := ds[|xs|];
            && Bien(d.m.a, T) && Ocurre(d, T, x) && Suceder(d, T, modo, x).Some?
            && Primero(xs, k).Some? && k in Suceder(d, T, modo, x).value.c
            && var r, v := Suceder(d, T, modo, x).value.c[k], GetValue(d.m.a, T, k).value;
               && |r| == Paginas(|Primero(xs, k).value|, T) * T + 2
               && (v <= r <==> |v| <= |r|)
               && (limpia && Chicos(Envios(xs), T, modo) ==> Ultimo(Envios(xs), k) == Some(v))
  {
    var d := ds[|xs|];
    assert xs[..|xs|] == xs;
    ArchivoDe(ds, xs, N, T, modo, limpia, |xs|, k);
    SucedeSiempre(d, T, modo, x);
    SucedeEnArchivo(d, T, modo, x, Suceder(d, T, modo, x).value, k, GetValue(d.m.a, T, k).value);
  }

  lemma {:induction false} EnviosPrefijo(xs: seq<Suceso>, n: nat)
    requires n <= |xs|
    ensures forall o | o in Envios(xs[..n]) :: o in Envios(xs)
    decreases |xs| - n
  {
    if n < |xs| {
      EnviosPrefijo(xs, n + 1);
      EnviosMas(xs, n);
    } else {
      assert xs[..n] == xs;
    }
  }

  /** The event leaves the last value of `k`. */
  lemma UltimoQueda(xs: seq<Suceso>, n: nat, k: string)
    requires n < |xs| && !EsSetDe(xs[n], k)
    ensures Ultimo(Envios(xs[..n + 1]), k) == Ultimo(Envios(xs[..n]), k)
  {
    EnviosMas(xs, n);
    var os := Envios(xs[..n]);
    if xs[n].Envio? {
      assert (os + [xs[n].o])[..|os|] == os;
    } else {
      assert os + [] == os;
    }
  }

  /** The file of `k` begins with the value exactly when that fits. */
  ghost predicate EnArchivo(d: Disco, k: string, v: Option<string>) {
    v.Some? && k in d.c && (v.value <= d.c[k] <==> |v.value| <= |d.c[k]|)
  }

  /** An event that is no SET of `k` and finds its file as it should be, or copies it. */
  lemma PerduraPaso(ds: seq<Disco>, xs: seq<Suceso>, N: nat, T: nat, modo: Modo, k: string, n: nat)
    requires Historia(ds, xs, N, T, modo) && Conformes(ds, xs, T, modo, true) && n < |xs|
    requires Chicos(Envios(xs[..n]), T, modo) && !EsSetDe(xs[n], k) && k != VACIO
    requires || EnArchivo(ds[n], k, Ultimo(Envios(xs[..n]), k))
             || (k in Claves(ds[n].m.a.tabla) && (xs[n] == Vuelca || xs[n] == Guarda(k)))
    ensures Ultimo(Envios(xs[..n + 1]), k) == Ultimo(Envios(xs[..n]), k)
    ensures EnArchivo(ds[n + 1], k, Ultimo(Envios(xs[..n]), k))
  {
    ArchivoDe(ds, xs, N, T, modo, true, n, k);
    UltimoQueda(xs, n, k);
    assert Eslabon(ds, xs, n, T, modo);
    SucedeEnArchivo(ds[n], T, modo, xs[n], ds[n + 1], k, Ultimo(Envios(xs[..n]), k).value);
  }

  lemma PrefijoChico(xs: seq<Suceso>, n: nat, T: nat, modo: Modo)
    requires n <= |xs| && Chicos(Envios(xs), T, modo)
    ensures Chicos(Envios(xs[..n]), T, modo)
  {
    EnviosPrefijo(xs, n);
  }

  lemma {:induction false} PerduraDesde(ds: seq<Disco>, xs: seq<Suceso>, N: nat, T: nat, modo: Modo, k: string,
                                        i: nat, n: nat)
    requires Historia(ds, xs, N, T, modo) && Conformes(ds, xs, T, modo, true) && Chicos(Envios(xs), T, modo)
    requires i <= n <= |xs| && k != VACIO && forall j | i <= j < n :: !EsSetDe(xs[j], k)
    requires EnArchivo(ds[i], k, Ultimo(Envios(xs[..i]), k))
    ensures Ultimo(Envios(xs[..n]), k) == Ultimo(Envios(xs[..i]), k)
    ensures EnArchivo(ds[n], k, Ultimo(Envios(xs[..n]), k))
    decreases n
  {
    if i < n {
      PerduraDesde(ds, xs, N, T, modo, k, i, n - 1);
      PrefijoChico(xs, n - 1, T, modo);
      PerduraPaso(ds, xs, N, T, modo, k, n - 1);
    }
  }

  /** What is copied to a file stays there. In a clean run, from a dump or STORE of a stored key on
      and until the key is SET again, its file begins with its last value exactly when that fits,
      whatever else is SET, compacted, dumped or STOREd, and even once the key is evicted. */
  lemma Perdura(ds: seq<Disco>, xs: seq<Suceso>, N: nat, T: nat, modo: Modo, k: string, i: nat, n: nat)
    requires Historia(ds, xs, N, T, modo) && Conformes(ds, xs, T, modo, true) && Chicos(Envios(xs), T, modo)
    requires i < n <= |xs| && (xs[i] == Vuelca || xs[i] == Guarda(k))
    requires k in Claves(ds[i].m.a.tabla) && forall j | i < j < n :: !EsSetDe(xs[j], k)
    ensures Ultimo(Envios(xs[..n]), k) == Ultimo(Envios(xs[..i]), k)
    ensures EnArchivo(ds[n], k, Ultimo(Envios(xs[..n]), k))
  {
    PrefijoChico(xs, i, T, modo);
    PerduraPaso(ds, xs, N, T, modo, k, i);
    PerduraDesde(ds, xs, N, T, modo, k, i + 1, n);
  }
}
