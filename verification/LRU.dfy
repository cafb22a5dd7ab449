/** SET under LRU: age every slot, then update the key in place or find room for it,
    compacting and evicting the oldest single-slot value as needed. */
module LRU {
  import opened Tabla
  import opened Arena
  import opened Compactacion

  /** The engine between two messages: arena and flagCompactar. */
  datatype Motor = Motor(a: Almacen, flag: bool)

  // ---- consultarTablaLRU ----

  function Envejecida(e: Entrada, T: nat): Entrada {
    if e.tamanio > T then e.(age := -1)
    else if Viva(e) then e.(age := e.age + 1)
    else e
  }

  function Envejecer(t: seq<Entrada>, T: nat): (r: seq<Entrada>)
    ensures |r| == |t| && forall i | 0 <= i < |t| :: r[i] == Envejecida(t[i], T)
  {
    seq(|t|, i requires 0 <= i < |t| => Envejecida(t[i], T))
  }

  /** laMasVieja: the largest age in the table, never below 0. */
  function MasVieja(t: seq<Entrada>): (r: int)
    ensures 0 <= r
    ensures forall i | 0 <= i < |t| :: t[i].age <= r
    ensures r == 0 || exists i | 0 <= i < |t| :: t[i].age == r
  {
    if |t| == 0 then 0
    else
      var r := MasVieja(t[1..]);
      assert forall i | 0 < i < |t| :: t[i] == t[1..][i - 1];
      if r > t[0].age then
        assert r == 0 || exists i | 0 <= i < |t[1..]| :: t[1..][i].age == r;
        assert forall i | 0 <= i < |t[1..]| :: t[1..][i] == t[i + 1];
        r
      else
        assert t[0].age == Max(t[0].age, r);
        Max(t[0].age, r)
  }

  // ---- buscarEspacioLibre ----

  /** The leftmost place at or after `i` with `p` free slots in a row, or -1. */
  function BuscarDesde(t: seq<Entrada>, p: nat, i: nat): (r: int)
    ensures -1 <= r
    ensures r == -1 <==> forall j | i <= j <= |t| :: !Hueco(t, j, p)
    ensures r >= 0 ==> i <= r && Hueco(t, r, p) && forall j | i <= j < r :: !Hueco(t, j, p)
    decreases |t| - i
  {
    if i > |t| then -1
    else if Hueco(t, i, p) then i
    else BuscarDesde(t, p, i + 1)
  }

  /** buscarEspacioLibre; asked for no slot at all it still wants a free one. */
  function BuscarEspacioLibre(t: seq<Entrada>, p: nat): int { BuscarDesde(t, Max(1, p), 0) }

  lemma {:induction false} HuecoAcota(t: seq<Entrada>, p: nat, n: nat)
    requires Hueco(t, p, n)
    ensures n <= Libres(t)
  {
    assert t == t[..p] + (t[p..p + n] + t[p + n..]);
    LibresConcat(t[..p], t[p..p + n] + t[p + n..]);
    LibresConcat(t[p..p + n], t[p + n..]);
    LibresDeVacias(t[p..p + n]);
  }

  /** On a tight table the search finds room as soon as there are slots enough, right after
      the live entries. */
  lemma BuscarEnApretada(t: seq<Entrada>, p: nat)
    requires Apretada(t) && PrimeraLibre(t) == |t| - Libres(t)
    ensures BuscarEspacioLibre(t, p) == if Max(1, p) <= Libres(t) then PrimeraLibre(t) else -1
  {
    var r := BuscarEspacioLibre(t, p);
    if Max(1, p) <= Libres(t) {
      assert Hueco(t, PrimeraLibre(t), Max(1, p));
      assert r >= 0 ==> Hueco(t, r, Max(1, p)) && !Viva(t[r]);
    } else if r != -1 {
      HuecoAcota(t, r, Max(1, p));
    }
  }

  // ---- the eviction ----

  function Desalojada(e: Entrada, vieja: int): Entrada {
    if e.age == vieja then e.(clave := VACIO, age := 0) else e
  }

  function Desalojar(t: seq<Entrada>, vieja: int): (r: seq<Entrada>)
    ensures |r| == |t| && forall i | 0 <= i < |t| :: r[i] == Desalojada(t[i], vieja)
  {
    seq(|t|, i requires 0 <= i < |t| => Desalojada(t[i], vieja))
  }

  /** Free slots plus live slots of the evicted age: all the room an insertion can ever get. */
  function Alcanzable(t: seq<Entrada>, vieja: int): nat { Libres(Desalojar(t, vieja)) }

  predicate Cabe(t: seq<Entrada>, p: nat, vieja: int) { Max(1, p) <= Alcanzable(t, vieja) }

  /** Live entries that the eviction would spare. */
  function Salvas(t: seq<Entrada>, vieja: int): nat {
    if |t| == 0 then 0 else (if Viva(t[0]) && t[0].age != vieja then 1 else 0) + Salvas(t[1..], vieja)
  }

  lemma {:induction false} AlcanzableSalvas(t: seq<Entrada>, vieja: int)
    ensures Alcanzable(t, vieja) + Salvas(t, vieja) == |t|
    ensures Libres(t) <= Alcanzable(t, vieja)
  {
    if |t| > 0 {
      AlcanzableSalvas(t[1..], vieja);
      assert Desalojar(t, vieja)[1..] == Desalojar(t[1..], vieja);
    }
  }

  lemma SalvasConcat(a: seq<Entrada>, b: seq<Entrada>, vieja: int)
    ensures Salvas(a + b, vieja) == Salvas(a, vieja) + Salvas(b, vieja)
  {
    if |a| == 0 {
      assert a + b == b;
    } else {
      assert (a + b)[1..] == a[1..] + b;
    }
  }

  lemma {:induction false} SalvasDeVivas(t: seq<Entrada>, vieja: int)
    ensures Salvas(Vivas(t), vieja) == Salvas(t, vieja)
  {
    if |t| > 0 {
      SalvasDeVivas(t[1..], vieja);
      SalvasConcat(if Viva(t[0]) then [t[0]] else [], Vivas(t[1..]), vieja);
    }
  }

  lemma CompactarAlcanzable(a: Almacen, T: nat, modo: Modo, vieja: int)
    requires Bien(a, T)
    ensures Alcanzable(Compactar(a, T, modo).tabla, vieja) == Alcanzable(a.tabla, vieja)
  {
    var r := Compactar(a, T, modo);
    CompactarTabla(a, T, modo);
    AlcanzableSalvas(a.tabla, vieja);
    AlcanzableSalvas(r.tabla, vieja);
    SalvasDeVivas(a.tabla, vieja);
    SalvasDeVivas(r.tabla, vieja);
  }

  lemma DesalojarDosVeces(t: seq<Entrada>, vieja: int)
    ensures Alcanzable(Desalojar(t, vieja), vieja) == Alcanzable(t, vieja) == Libres(Desalojar(t, vieja))
  {
    var u := Desalojar(t, vieja);
    MismasLibres(u, Desalojar(u, vieja));
  }

  lemma MismasLibres(t: seq<Entrada>, u: seq<Entrada>)
    requires |t| == |u| && forall i | 0 <= i < |t| :: Viva(t[i]) == Viva(u[i])
    ensures Libres(t) == Libres(u)
  {}

  // ---- guardarEnTablaLRU ----

  /** One activation of guardarEnTablaLRU that found no room: compact, or evict. */
  ghost function Reintento(m: Motor, T: nat, modo: Modo, vieja: int): (r: Motor)
    requires Bien(m.a, T)
    ensures Bien(r.a, T) && |r.a.tabla| == |m.a.tabla|
  {
    if !m.flag then Motor(Compactar(m.a, T, modo), true)
    else Motor(m.a.(tabla := Desalojar(m.a.tabla, vieja)), false)
  }

  /** Activations still to come, at most three. */
  ghost function Intentos(m: Motor, p: nat): nat {
    if BuscarEspacioLibre(m.a.tabla, p) != -1 then 0
    else if m.flag then 2
    else if Max(1, p) <= Libres(m.a.tabla) then 1
    else 3
  }

  lemma ReintentoAvanza(m: Motor, T: nat, modo: Modo, p: nat, vieja: int)
    requires Bien(m.a, T) && Cabe(m.a.tabla, p, vieja) && BuscarEspacioLibre(m.a.tabla, p) == -1
    ensures Cabe(Reintento(m, T, modo, vieja).a.tabla, p, vieja)
    ensures Intentos(Reintento(m, T, modo, vieja), p) < Intentos(m, p)
  {
    if m.flag {
      DesalojarDosVeces(m.a.tabla, vieja);
    } else {
      CompactarAlcanzable(m.a, T, modo, vieja);
      CompactarTabla(m.a, T, modo);
      BuscarEnApretada(Compactar(m.a, T, modo).tabla, p);
    }
  }

  /** The engine at the activation of guardarEnTablaLRU that finds room. */
  ghost function HacerLugar(m: Motor, T: nat, modo: Modo, p: nat, vieja: int): (r: Motor)
    requires Bien(m.a, T) && Cabe(m.a.tabla, p, vieja)
    ensures Bien(r.a, T) && |r.a.tabla| == |m.a.tabla|
    ensures BuscarEspacioLibre(r.a.tabla, p) != -1
    decreases Intentos(m, p)
  {
    if BuscarEspacioLibre(m.a.tabla, p) != -1 then m
    else
      ReintentoAvanza(m, T, modo, p, vieja);
      HacerLugar(Reintento(m, T, modo, vieja), T, modo, p, vieja)
  }

  /** guardarEnTablaLRU finds room within n further activations. */
  ghost predicate Encuentra(m: Motor, T: nat, modo: Modo, p: nat, vieja: int, n: nat)
    requires Bien(m.a, T)
    decreases n
  {
    || BuscarEspacioLibre(m.a.tabla, p) != -1
    || (n > 0 && Encuentra(Reintento(m, T, modo, vieja), T, modo, p, vieja, n - 1))
  }

  ghost predicate Termina(m: Motor, T: nat, modo: Modo, p: nat, vieja: int)
    requires Bien(m.a, T)
  {
    exists n: nat :: Encuentra(m, T, modo, p, vieja, n)
  }

  lemma {:induction false} NuncaEncuentra(m: Motor, T: nat, modo: Modo, p: nat, vieja: int, n: nat)
    requires Bien(m.a, T) && !Cabe(m.a.tabla, p, vieja)
    ensures !Encuentra(m, T, modo, p, vieja, n)
    decreases n
  {
    var r := BuscarEspacioLibre(m.a.tabla, p);
    if r != -1 {
      HuecoAcota(m.a.tabla, r, Max(1, p));
      AlcanzableSalvas(m.a.tabla, vieja);
    }
    if n > 0 {
      CompactarAlcanzable(m.a, T, modo, vieja);
      DesalojarDosVeces(m.a.tabla, vieja);
      NuncaEncuentra(Reintento(m, T, modo, vieja), T, modo, p, vieja, n - 1);
    }
  }

  lemma {:induction false} EncuentraEnIntentos(m: Motor, T: nat, modo: Modo, p: nat, vieja: int)
    requires Bien(m.a, T) && Cabe(m.a.tabla, p, vieja)
    ensures Encuentra(m, T, modo, p, vieja, Intentos(m, p))
    decreases Intentos(m, p)
  {
    if BuscarEspacioLibre(m.a.tabla, p) == -1 {
      ReintentoAvanza(m, T, modo, p, vieja);
      var r := Reintento(m, T, modo, vieja);
      EncuentraEnIntentos(r, T, modo, p, vieja);
      EncuentraMas(r, T, modo, p, vieja, Intentos(r, p), Intentos(m, p) - 1);
    }
  }

  lemma EncuentraMas(m: Motor, T: nat, modo: Modo, p: nat, vieja: int, n: nat, n': nat)
    requires Bien(m.a, T) && Encuentra(m, T, modo, p, vieja, n) && n <= n'
    ensures Encuentra(m, T, modo, p, vieja, n')
    decreases n
  {
    if BuscarEspacioLibre(m.a.tabla, p) == -1 {
      EncuentraMas(Reintento(m, T, modo, vieja), T, modo, p, vieja, n - 1, n' - 1);
    }
  }

  /** The recursion of guardarEnTablaLRU ends, from either value of flagCompactar, exactly
      when the slots asked for fit in the free ones plus those of the oldest age; it then
      ends within three further activations. */
  lemma TerminaSiiCabe(m: Motor, T: nat, modo: Modo, p: nat, vieja: int)
    requires Bien(m.a, T)
    ensures Termina(m, T, modo, p, vieja) <==> Cabe(m.a.tabla, p, vieja)
    ensures Cabe(m.a.tabla, p, vieja) ==> Encuentra(m, T, modo, p, vieja, 3)
  {
    if Cabe(m.a.tabla, p, vieja) {
      EncuentraEnIntentos(m, T, modo, p, vieja);
      var n := Intentos(m, p);
      assert Encuentra(m, T, modo, p, vieja, n);
      EncuentraMas(m, T, modo, p, vieja, n, 3);
    } else if Termina(m, T, modo, p, vieja) {
      var n: nat :| Encuentra(m, T, modo, p, vieja, n);
      NuncaEncuentra(m, T, modo, p, vieja, n);
    }
  }
}
