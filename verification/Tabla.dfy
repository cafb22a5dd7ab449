/** The slot table of an Instancia: `cantEntradas` entries, each naming the key that
    occupies the slot (or VACIO), the size of that key's value and its LRU age. */
module Tabla {

  const VACIO := "vacio"

  datatype Entrada = Entrada(clave: string, tamanio: nat, age: int)

  predicate Viva(e: Entrada) { e.clave != VACIO }

  function Max(a: int, b: int): int { if a < b then b else a }

  function Min(a: int, b: int): int { if a < b then a else b }

  function Claves(t: seq<Entrada>): set<string> {
    set i | 0 <= i < |t| && Viva(t[i]) :: t[i].clave
  }

  /** The number of slots a value of `tamanio` bytes takes, a slot at a time. */
  function Paginas(tamanio: nat, T: nat): (p: nat)
    requires T > 0
    ensures tamanio == 0 <==> p == 0
    ensures tamanio > T <==> p > 1
  {
    if tamanio == 0 then 0 else if tamanio <= T then 1 else 1 + Paginas(tamanio - T, T)
  }

  lemma {:induction false} PaginasCota(n: nat, T: nat)
    requires T > 0
    ensures n <= Paginas(n, T) * T
    ensures n > 0 ==> (Paginas(n, T) - 1) * T < n
  {
    if n > T {
      var p := Paginas(n - T, T);
      PaginasCota(n - T, T);
      assert (p + 1) * T == p * T + T == (p - 1) * T + T + T;
    }
  }

  lemma {:induction false} Multiplo(d: nat, T: nat)
    requires d > 0
    ensures d * T >= T
  {
    if d > 1 { Multiplo(d - 1, T); assert d * T == (d - 1) * T + T; }
  }

  lemma Cociente(n: nat, T: nat, q: nat, r: nat)
    requires 0 <= r < T && n == q * T + r
    ensures n / T == q && n % T == r
  {
    var q', r' := n / T, n % T;
    assert n == q' * T + r';
    assert (q - q') * T == q * T - q' * T;
    if q' < q {
      Multiplo(q - q', T);
    } else if q' > q {
      Multiplo(q' - q, T);
    }
  }

  /** Paginas is the rounded-up quotient that getCantPaginas computes. */
  lemma PaginasEsTecho(tamanio: nat, T: nat)
    requires T > 0
    ensures Paginas(tamanio, T) == if tamanio % T == 0 then tamanio / T else tamanio / T + 1
    ensures tamanio <= Paginas(tamanio, T) * T
    ensures tamanio > 0 ==> (Paginas(tamanio, T) - 1) * T < tamanio
  {
    var p := Paginas(tamanio, T);
    PaginasCota(tamanio, T);
    if tamanio == p * T {
      Cociente(tamanio, T, p, 0);
    } else {
      assert p * T == (p - 1) * T + T;
      Cociente(tamanio, T, p - 1, tamanio - (p - 1) * T);
    }
  }

  /** consultarTabla: the first slot whose key is `k`, or -1. */
  function ConsultarTabla(t: seq<Entrada>, k: string): (r: int)
    ensures -1 <= r < |t|
    ensures r == -1 <==> forall i | 0 <= i < |t| :: t[i].clave != k
    ensures r >= 0 ==> t[r].clave == k && forall i | 0 <= i < r :: t[i].clave != k
  {
    if |t| == 0 then -1
    else if t[0].clave == k then 0
    else
      var r := ConsultarTabla(t[1..], k);
      assert forall i | 0 < i < |t| :: t[i] == t[1..][i - 1];
      if r == -1 then -1 else r + 1
  }

  /** Slots p..p+n-1 exist and are all free. */
  predicate Hueco(t: seq<Entrada>, p: int, n: nat) {
    0 <= p && p + n <= |t| && forall i | p <= i < p + n :: !Viva(t[i])
  }

  /** free_entries: the number of free slots. */
  function Libres(t: seq<Entrada>): (n: nat)
    ensures n <= |t|
  {
    if |t| == 0 then 0 else (if Viva(t[0]) then 0 else 1) + Libres(t[1..])
  }

  lemma LibresConcat(a: seq<Entrada>, b: seq<Entrada>)
    ensures Libres(a + b) == Libres(a) + Libres(b)
  {
    if |a| == 0 {
      assert a + b == b;
    } else {
      assert (a + b)[1..] == a[1..] + b;
    }
  }

  lemma LibresDeVacias(t: seq<Entrada>)
    requires forall i | 0 <= i < |t| :: !Viva(t[i])
    ensures Libres(t) == |t|
  {}

  lemma LibresDeVivas(t: seq<Entrada>)
    requires forall i | 0 <= i < |t| :: Viva(t[i])
    ensures Libres(t) == 0
  {}

  /** The slots that name `k` are exactly q..q+P-1. */
  predicate Tramo(t: seq<Entrada>, k: string, q: int, P: nat) {
    && 0 <= q && 1 <= P && q + P <= |t|
    && forall i | 0 <= i < |t| :: t[i].clave == k <==> q <= i < q + P
  }

  lemma PrimeroDeTramo(t: seq<Entrada>, k: string, q: int, P: nat)
    requires Tramo(t, k, q, P)
    ensures ConsultarTabla(t, k) == q
  {
    assert t[q].clave == k;
  }

  /** `k` owns exactly one contiguous run of Paginas(tamanio) slots, its size being the one
      recorded in the first slot of the run; every slot of a longer run records a size above T. */
  predicate Corrida(t: seq<Entrada>, T: nat, k: string)
    requires T > 0
  {
    var q := ConsultarTabla(t, k);
    && q != -1
    && Tramo(t, k, q, Paginas(t[q].tamanio, T))
    && (t[q].tamanio > T ==> forall i | 0 <= i < |t| && t[i].clave == k :: t[i].tamanio > T)
  }

  /** The layout invariant: every live key owns one run. */
  predicate Disposicion(t: seq<Entrada>, T: nat)
    requires T > 0
  {
    forall k | k in Claves(t) :: Corrida(t, T, k)
  }

  /** Slots of the run that starts with `k`'s first slot. */
  function Fin(t: seq<Entrada>, T: nat, k: string): int
    requires T > 0 && ConsultarTabla(t, k) != -1
  {
    ConsultarTabla(t, k) + Paginas(t[ConsultarTabla(t, k)].tamanio, T)
  }

  /** A run depends only on where its key stands and on the sizes recorded there. */
  lemma CorridaEnmarcada(t: seq<Entrada>, t': seq<Entrada>, T: nat, k: string)
    requires T > 0 && |t| == |t'|
    requires forall i | 0 <= i < |t| :: t[i].clave == k <==> t'[i].clave == k
    requires forall i | 0 <= i < |t| && t[i].clave == k :: t[i].tamanio == t'[i].tamanio
    ensures ConsultarTabla(t, k) == ConsultarTabla(t', k)
    ensures Corrida(t, T, k) ==> Corrida(t', T, k)
  {
    var q, q' := ConsultarTabla(t, k), ConsultarTabla(t', k);
    if q != -1 { assert t'[q].clave == k; }
    if q' != -1 { assert t[q'].clave == k; }
  }
}
