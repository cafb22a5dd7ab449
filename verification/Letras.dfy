/** Key explicit: the partition of the letters A to Z among the active instances. */
module Letras {
  import opened Opciones
  import opened Coordinacion

  predicate Cubre(n: Nodo, x: int) { n.letraMin <= x <= n.letraMax }

  /** No letter of an inactive instance is one of A to Z. */
  ghost predicate Apagadas(ns: seq<Nodo>) {
    forall i | 0 <= i < |ns| && !ns[i].activa :: ns[i].letraMin == 0 && ns[i].letraMax == 0
  }

  ghost predicate Asignada(ns: seq<Nodo>, x: int) {
    exists i :: 0 <= i < |ns| && ns[i].activa && Cubre(ns[i], x)
  }

  ghost predicate Cubiertas(ns: seq<Nodo>, desde: int, hasta: int) {
    forall x | desde <= x < hasta :: Asignada(ns, x)
  }

  /** The range of an active instance lies between the two, perhaps empty. */
  ghost predicate Dentro(ns: seq<Nodo>, desde: int, hasta: int) {
    forall i | 0 <= i < |ns| && ns[i].activa :: desde <= ns[i].letraMin && ns[i].letraMax < hasta
  }

  predicate Ajenas(a: Nodo, b: Nodo) {
    (a.letraMin == b.letraMin && a.letraMax == b.letraMax) || a.letraMax < b.letraMin || b.letraMax < a.letraMin
  }

  ghost predicate DeAPares(ns: seq<Nodo>) {
    forall i, j | 0 <= i < |ns| && 0 <= j < |ns| && ns[i].activa && ns[j].activa :: Ajenas(ns[i], ns[j])
  }

  /** All the active ones have the same range. */
  ghost predicate Iguales(ns: seq<Nodo>, desde: int, hasta: int) {
    forall i | 0 <= i < |ns| && ns[i].activa :: ns[i].letraMin == desde && ns[i].letraMax == hasta - 1
  }

  /** Short of a full share, every instance gets what is left. */
  lemma {:induction false} RepartirResto(ns: seq<Nodo>, cant: int, asig: int, l: int)
    requires l > cant
    ensures Iguales(Repartir(ns, cant, asig, l), 65 + asig, 65 + asig + cant)
    decreases |ns|
  {
    if |ns| > 0 {
      RepartirResto(ns[1..], cant, asig, l);
      var r, t := Repartir(ns, cant, asig, l), Repartir(ns[1..], cant, asig, l);
      assert forall i | 0 < i < |r| :: r[i] == t[i - 1];
    }
  }

  lemma CabezaCubre(h: Nodo, t: seq<Nodo>, desde: int, medio: int, hasta: int)
    requires h.activa && Cubiertas(t, medio, hasta) && h.letraMin <= desde && h.letraMax >= medio - 1
    ensures Cubiertas([h] + t, desde, hasta)
  {
    var r := [h] + t;
    forall x | desde <= x < hasta
      ensures Asignada(r, x)
    {
      if x >= medio {
        assert Asignada(t, x);
        var i :| 0 <= i < |t| && t[i].activa && Cubre(t[i], x);
        assert r[i + 1] == t[i];
      } else {
        assert Cubre(r[0], x);
      }
    }
  }

  lemma CabezaInactiva(h: Nodo, t: seq<Nodo>, desde: int, hasta: int)
    requires !h.activa && Cubiertas(t, desde, hasta)
    ensures Cubiertas([h] + t, desde, hasta)
  {
    var r := [h] + t;
    forall x | desde <= x < hasta
      ensures Asignada(r, x)
    {
      assert Asignada(t, x);
      var i :| 0 <= i < |t| && t[i].activa && Cubre(t[i], x);
      assert r[i + 1] == t[i];
    }
  }

  lemma CabezaAjena(h: Nodo, t: seq<Nodo>)
    requires DeAPares(t) && forall i | 0 <= i < |t| && t[i].activa && h.activa :: Ajenas(h, t[i])
    ensures DeAPares([h] + t)
  {
    var r := [h] + t;
    forall i, j | 0 <= i < |r| && 0 <= j < |r| && r[i].activa && r[j].activa
      ensures Ajenas(r[i], r[j])
    {
      if i > 0 && j > 0 { assert Ajenas(t[i - 1], t[j - 1]); }
    }
  }

  /** What is left of the letters is covered when there are instances enough for it, and the
      ranges of two instances are the same or apart. */
  lemma {:induction false} RepartirCubre(ns: seq<Nodo>, cant: int, asig: int, l: int)
    requires l > 0 && cant >= 0 && Activos(ns) * l >= cant
    ensures var r := Repartir(ns, cant, asig, l);
            Cubiertas(r, 65 + asig, 65 + asig + cant) && Dentro(r, 65 + asig, 65 + asig + cant) && DeAPares(r)
    decreases |ns|
  {
    if |ns| > 0 {
      var h, r := ns[0], Repartir(ns, cant, asig, l);
      if !h.activa {
        RepartirCubre(ns[1..], cant, asig, l);
        var t := Repartir(ns[1..], cant, asig, l);
        CabezaInactiva(h, t, 65 + asig, 65 + asig + cant);
        CabezaAjena(h, t);
      } else if l <= cant {
        assert Activos(ns) == 1 + Activos(ns[1..]);
        assert Activos(ns) * l == l + Activos(ns[1..]) * l;
        RepartirCubre(ns[1..], cant - l, asig + l, l);
        var t := Repartir(ns[1..], cant - l, asig + l, l);
        CabezaCubre(r[0], t, 65 + asig, 65 + asig + l, 65 + asig + cant);
        CabezaAjena(r[0], t);
      } else {
        RepartirResto(ns[1..], cant, asig, l);
        var t := Repartir(ns[1..], cant, asig, l);
        CabezaCubre(r[0], t, 65 + asig, 65 + asig + cant, 65 + asig + cant);
        CabezaAjena(r[0], t);
      }
    }
  }

  lemma {:induction false} RepartirApaga(ns: seq<Nodo>, cant: int, asig: int, l: int)
    requires Apagadas(ns)
    ensures Apagadas(Repartir(ns, cant, asig, l))
    decreases |ns|
  {
    if |ns| > 0 {
      var lleno := ns[0].activa && l <= cant;
      var t := Repartir(ns[1..], if lleno then cant - l else cant, if lleno then asig + l else asig, l);
      RepartirApaga(ns[1..], if lleno then cant - l else cant, if lleno then asig + l else asig, l);
      assert forall i | 0 < i < |ns| :: Repartir(ns, cant, asig, l)[i] == t[i - 1];
    }
  }

  lemma Alcanza(n: nat)
    requires n > 0
    ensures PorInstancia(n) > 0 && n * PorInstancia(n) >= LETRAS
  {
    assert n * (LETRAS / n) + LETRAS % n == LETRAS;
  }

  /** The partition that find_by_letter relies on. */
  ghost predicate BienLetrado(ns: seq<Nodo>) {
    Apagadas(ns) && (Activos(ns) > 0 ==> Cubiertas(ns, 65, 91) && Dentro(ns, 65, 91) && DeAPares(ns))
  }

  lemma AssignLettersReparte(ns: seq<Nodo>)
    requires Apagadas(ns)
    ensures AssignLetters(ns).None? <==> Activos(ns) == 0
    ensures AssignLetters(ns).Some? ==>
              BienLetrado(AssignLetters(ns).value) && Activos(AssignLetters(ns).value) == Activos(ns)
  {
    var n := Activos(ns);
    if n > 0 {
      Alcanza(n);
      RepartirCubre(ns, LETRAS, 0, PorInstancia(n));
      RepartirApaga(ns, LETRAS, 0, PorInstancia(n));
      RepartirActivos(ns, LETRAS, 0, PorInstancia(n));
    }
  }

  // ---- over every run of connections and disconnections ----

  datatype Cambio = Entra(nombre: string) | Cae(i: nat)

  function Cambiar(c: Coord, x: Cambio): Option<Coord> {
    match x
    case Entra(nombre) => Conectar(c, nombre)
    case Cae(i) => if i < |c.nodos| && c.nodos[i].activa then Desconectar(c, i) else Some(c)
  }

  function Cambios(c: Coord, xs: seq<Cambio>): Option<Coord>
    decreases |xs|
  {
    if xs == [] then Some(c)
    else match Cambiar(c, xs[0])
      case None => None
      case Some(d) => Cambios(d, xs[1..])
  }

  lemma {:induction false} ActivosHay(ns: seq<Nodo>, i: nat)
    requires i < |ns| && ns[i].activa
    ensures Activos(ns) > 0
  {
    if i > 0 { ActivosHay(ns[1..], i - 1); }
  }

  /** One change: it keeps the partition, and it divides by zero exactly when the last active
      instance goes. */
  lemma CambiarLetras(c: Coord, x: Cambio)
    requires c.reparto.KE? && BienLetrado(c.nodos)
    ensures Cambiar(c, x).None? <==>
            x.Cae? && x.i < |c.nodos| && c.nodos[x.i].activa && Activos(c.nodos) == 1
    ensures Cambiar(c, x).Some? ==> BienLetrado(Cambiar(c, x).value.nodos) && Cambiar(c, x).value.reparto.KE?
  {
    match x
    case Entra(nombre) =>
      var i := Buscar(c.nodos, PorNombre(nombre));
      var ns := if i != -1 then c.nodos[i := c.nodos[i].(activa := true)]
                else c.nodos + [Nodo(nombre, true, 999, 0, 0, {})];
      ActivosHay(ns, if i != -1 then i else |c.nodos|);
      AssignLettersReparte(ns);
    case Cae(i) =>
      if i < |c.nodos| && c.nodos[i].activa {
        var n := c.nodos[i].(activa := false, letraMin := 0, letraMax := 0);
        ActivosBaja(c.nodos, i, n);
        ActivosHay(c.nodos, i);
        AssignLettersReparte(c.nodos[i := n]);
      }
  }

  lemma {:induction false} CambiosLetras(c: Coord, xs: seq<Cambio>)
    requires c.reparto.KE? && BienLetrado(c.nodos) && Cambios(c, xs).Some?
    ensures BienLetrado(Cambios(c, xs).value.nodos) && Cambios(c, xs).value.reparto.KE?
    decreases |xs|
  {
    if xs != [] {
      CambiarLetras(c, xs[0]);
      CambiosLetras(Cambiar(c, xs[0]).value, xs[1..]);
    }
  }

  /** `x` is the first letter of the key, small letters as capitals. */
  predicate PrimeraLetra(k: string, x: int) {
    k != "" && if 'a' <= k[0] <= 'z' then x == k[0] as int - 'a' as int + 'A' as int else x == k[0] as int
  }

  /** After any run of connections and disconnections each letter A to Z, of either case, leads to the
      first instance whose range holds it, and that one is active, while there is one; a key with
      another first character leads to none. */
  lemma LetraLlega(c: Coord, xs: seq<Cambio>, k: string)
    requires c.reparto.KE? && c.nodos == [] && Cambios(c, xs).Some? && k != ""
    ensures var d := Cambios(c, xs).value;
            Activos(d.nodos) > 0 && k[0] != '\0' ==>
              (Elegir(d, k, false).Some? <==> 'A' <= k[0] <= 'Z' || 'a' <= k[0] <= 'z')
              && (Elegir(d, k, false).Some? ==>
                    var i := Elegir(d, k, false).value.0;
                    && d.nodos[i].activa
                    && forall x | PrimeraLetra(k, x) ::
                         Cubre(d.nodos[i], x) && forall j | 0 <= j < i :: !Cubre(d.nodos[j], x))
  {
    CambiosLetras(c, xs);
    var d := Cambios(c, xs).value;
    var x := Letra(k);
    var i := Buscar(d.nodos, PorLetra(x));
    if Activos(d.nodos) > 0 && k[0] != '\0' {
      if 65 <= x < 91 {
        assert Asignada(d.nodos, x);
        var j :| 0 <= j < |d.nodos| && d.nodos[j].activa && Cubre(d.nodos[j], x);
        assert Halla(PorLetra(x), d.nodos[j]);
      }
      if i != -1 {
        assert Halla(PorLetra(x), d.nodos[i]);
        assert forall j | 0 <= j < i :: !Halla(PorLetra(x), d.nodos[j]);
      }
    }
  }

  // ---- how many letters each ----

  /** Active instances before the i-th. */
  function Rango(ns: seq<Nodo>, i: nat): nat
    requires i <= |ns|
  {
    if i == 0 then 0 else (if ns[0].activa then 1 else 0) + Rango(ns[1..], i - 1)
  }

  predicate Cabal(a: nat, cant: int, l: int) { a * l <= cant < (a + 1) * l }

  /** The letters of an active instance with r active ones before it: the next `l` of them while there
      are so many; otherwise, for all the rest alike, what the first ones left. */
  ghost predicate LeTocan(n: Nodo, r: nat, cant: int, asig: int, l: int) {
    if (r + 1) * l <= cant then n.letraMin == 65 + asig + r * l && n.letraMax == n.letraMin + l - 1
    else exists a: nat ::
      a <= r && Cabal(a, cant, l) && n.letraMin == 65 + asig + a * l && n.letraMax == 65 + asig + cant - 1
  }

  lemma UnaMas(r: int, l: int)
    ensures (r + 1) * l == r * l + l
  {}

  lemma TocaDespues(n: Nodo, r: nat, cant: int, asig: int, l: int)
    requires l > 0 && l <= cant && LeTocan(n, r, cant - l, asig + l, l)
    ensures LeTocan(n, r + 1, cant, asig, l)
  {
    UnaMas(r, l);
    UnaMas(r + 1, l);
    if (r + 1) * l > cant - l {
      var a: nat :| a <= r && Cabal(a, cant - l, l) && n.letraMin == 65 + (asig + l) + a * l
                    && n.letraMax == 65 + (asig + l) + (cant - l) - 1;
      UnaMas(a, l);
      UnaMas(a + 1, l);
      assert Cabal(a + 1, cant, l);
    }
  }

  lemma {:induction false} RepartirToca(ns: seq<Nodo>, cant: int, asig: int, l: int, i: nat)
    requires l > 0 && cant >= 0 && i < |ns| && ns[i].activa
    ensures LeTocan(Repartir(ns, cant, asig, l)[i], Rango(ns, i), cant, asig, l)
    decreases |ns|
  {
    if l > cant {
      RepartirResto(ns, cant, asig, l);
      TocaResto(ns, cant, asig, l, i);
    } else if i > 0 {
      if ns[0].activa {
        RepartirToca(ns[1..], cant - l, asig + l, l, i - 1);
        TocaDespues(Repartir(ns, cant, asig, l)[i], Rango(ns[1..], i - 1), cant, asig, l);
      } else {
        RepartirToca(ns[1..], cant, asig, l, i - 1);
      }
    }
  }

  lemma TocaResto(ns: seq<Nodo>, cant: int, asig: int, l: int, i: nat)
    requires l > cant >= 0 && i < |ns| && ns[i].activa
    requires Iguales(Repartir(ns, cant, asig, l), 65 + asig, 65 + asig + cant)
    ensures LeTocan(Repartir(ns, cant, asig, l)[i], Rango(ns, i), cant, asig, l)
  {
    RepartirSalvo(ns, cant, asig, l);
    var r := Rango(ns, i);
    assert (r + 1) * l == r * l + l >= l;
    assert Cabal(0, cant, l);
  }

  lemma Techo(n: nat)
    requires n > 0
    ensures (PorInstancia(n) - 1) * n < LETRAS
  {
    var q, r := LETRAS / n, LETRAS % n;
    assert q * n + r == LETRAS;
    UnaMas(q - 1, n);
  }

  /** Among n active instances each gets, in order, the next ceil(26 / n) letters while so many are
      left; all those after that get the same ones, the rest. */
  lemma LetrasDeCada(ns: seq<Nodo>, i: nat)
    requires i < |ns| && ns[i].activa
    ensures AssignLetters(ns).Some?
    ensures var l := PorInstancia(Activos(ns));
            && l > 0 && (l - 1) * Activos(ns) < LETRAS <= l * Activos(ns)
            && LeTocan(AssignLetters(ns).value[i], Rango(ns, i), LETRAS, 0, l)
  {
    var n := Activos(ns);
    ActivosHay(ns, i);
    Alcanza(n);
    Techo(n);
    RepartirToca(ns, LETRAS, 0, PorInstancia(n), i);
  }

  /** With eight instances the last two share Y and Z. */
  lemma ColasIguales(ns: seq<Nodo>)
    requires |ns| == 8 && forall i | 0 <= i < 8 :: ns[i].activa
    ensures AssignLetters(ns).Some?
    ensures var r := AssignLetters(ns).value;
            |r| == 8 && r[6].letraMin == r[7].letraMin == 'Y' as int && r[6].letraMax == r[7].letraMax == 'Z' as int
  {
    TodosActivos(ns);
    UltimasDos(ns, 0);
  }

  lemma {:induction false} UltimasDos(ns: seq<Nodo>, m: nat)
    requires m <= 6 && |ns| == 8 - m && forall i | 0 <= i < |ns| :: ns[i].activa
    ensures var r := Repartir(ns, 26 - 4 * m, 4 * m, 4);
            r[6 - m].letraMin == r[7 - m].letraMin == 89 && r[6 - m].letraMax == r[7 - m].letraMax == 90
    decreases 6 - m
  {
    if m < 6 {
      UltimasDos(ns[1..], m + 1);
    } else {
      RepartirResto(ns, 2, 24, 4);
      assert Repartir(ns, 2, 24, 4)[0].activa && Repartir(ns, 2, 24, 4)[1].activa;
    }
  }

  lemma {:induction false} TodosActivos(ns: seq<Nodo>)
    requires forall i | 0 <= i < |ns| :: ns[i].activa
    ensures Activos(ns) == |ns|
  {
    if |ns| > 0 { TodosActivos(ns[1..]); }
  }
}
