/** dump and storeKey: copying stored values out to the mapped files, and what the walk of
    dump says about the layout. */
module Volcado {
  import opened Opciones
  import opened Tabla
  import opened Arena

  /** lista_claves: the mapped file of each key, as the bytes written so far. */
  type Copias = map<string, string>

  /** No live slot records size 0: with one, the walk would stand still for ever. */
  ghost predicate SinCeros(t: seq<Entrada>) {
    forall i | 0 <= i < |t| && Viva(t[i]) :: t[i].tamanio > 0
  }

  /** The slots whose value dump copies, from slot i on. */
  ghost function Recorrido(t: seq<Entrada>, T: nat, i: nat): (r: seq<nat>)
    requires T > 0 && SinCeros(t)
    ensures forall x | x in r :: x < |t|
    decreases |t| - i
  {
    if i >= |t| then []
    else if !Viva(t[i]) then Recorrido(t, T, i + 1)
    else [i] + Recorrido(t, T, i + Paginas(t[i].tamanio, T))
  }

  /** Every value that dump visits from slot i on has its key among `claves`. */
  ghost predicate Encontradas(t: seq<Entrada>, T: nat, claves: set<string>, i: nat)
    requires T > 0 && SinCeros(t)
  {
    forall x | x in Recorrido(t, T, i) :: t[x].clave in claves
  }

  lemma EncontradasPaso(t: seq<Entrada>, T: nat, claves: set<string>, i: nat)
    requires T > 0 && SinCeros(t) && i < |t|
    ensures Encontradas(t, T, claves, i) <==>
            if Viva(t[i]) then t[i].clave in claves && Encontradas(t, T, claves, i + Paginas(t[i].tamanio, T))
            else Encontradas(t, T, claves, i + 1)
  {
    if Viva(t[i]) {
      var r := Recorrido(t, T, i + Paginas(t[i].tamanio, T));
      assert Recorrido(t, T, i) == [i] + r;
      assert forall x :: x in [i] + r <==> x == i || x in r;
    }
  }

  lemma DisposicionSinCeros(t: seq<Entrada>, T: nat)
    requires T > 0 && Disposicion(t, T)
    ensures SinCeros(t)
  {
    forall i | 0 <= i < |t| && Viva(t[i])
      ensures t[i].tamanio > 0
    {
      var k := t[i].clave;
      assert k in Claves(t);
      assert Corrida(t, T, k);
    }
  }

  /** No run straddles slot i. */
  ghost predicate Frontera(t: seq<Entrada>, i: nat) {
    forall j | i <= j < |t| && Viva(t[j]) :: ConsultarTabla(t, t[j].clave) >= i
  }

  /** Slots that the visited values take. */
  ghost function Suma(t: seq<Entrada>, T: nat, r: seq<nat>): nat
    requires T > 0 && forall x | x in r :: x < |t|
  {
    if |r| == 0 then 0
    else
      assert r[0] in r && forall x | x in r[1..] :: x in r;
      Paginas(t[r[0]].tamanio, T) + Suma(t, T, r[1..])
  }

  /** Walked from a boundary, the table is free slots and whole runs. */
  ghost predicate Ordenada(t: seq<Entrada>, T: nat, i: nat)
    requires T > 0
    decreases |t| - i
  {
    if i >= |t| then i == |t|
    else if !Viva(t[i]) then Ordenada(t, T, i + 1)
    else
      var P := Paginas(t[i].tamanio, T);
      && P >= 1 && i + P <= |t|
      && ConsultarTabla(t, t[i].clave) == i
      && (forall j | i <= j < i + P :: t[j].clave == t[i].clave)
      && Ordenada(t, T, i + P)
  }

  lemma RunEnFrontera(t: seq<Entrada>, T: nat, i: nat)
    requires T > 0 && Disposicion(t, T) && i < |t| && Viva(t[i]) && Frontera(t, i)
    ensures var P := Paginas(t[i].tamanio, T);
            && P >= 1 && i + P <= |t| && ConsultarTabla(t, t[i].clave) == i
            && (forall j | 0 <= j < |t| :: t[j].clave == t[i].clave <==> i <= j < i + P)
  {
    var k := t[i].clave;
    assert k in Claves(t);
    assert Corrida(t, T, k);
  }

  lemma FronteraSiguiente(t: seq<Entrada>, k: string, i: nat, P: nat)
    requires i + P <= |t| && Frontera(t, i)
    requires forall j | 0 <= j < |t| :: t[j].clave == k <==> i <= j < i + P
    ensures Frontera(t, i + P)
  {
    forall j | i + P <= j < |t| && Viva(t[j])
      ensures ConsultarTabla(t, t[j].clave) >= i + P
    {
      var q := ConsultarTabla(t, t[j].clave);
      assert t[q].clave == k <==> i <= q < i + P;
    }
  }

  lemma {:induction false} DisposicionOrdenada(t: seq<Entrada>, T: nat, i: nat)
    requires T > 0 && Disposicion(t, T) && i <= |t| && Frontera(t, i)
    ensures Ordenada(t, T, i)
    decreases |t| - i
  {
    if i < |t| {
      if !Viva(t[i]) {
        DisposicionOrdenada(t, T, i + 1);
      } else {
        RunEnFrontera(t, T, i);
        var P := Paginas(t[i].tamanio, T);
        FronteraSiguiente(t, t[i].clave, i, P);
        DisposicionOrdenada(t, T, i + P);
      }
    }
  }

  /** First slots of runs, left to right from `i`. */
  ghost predicate Primeros(t: seq<Entrada>, r: seq<nat>, i: nat) {
    && (forall n | 0 <= n < |r| :: i <= r[n] && Cabeza(t, r[n]))
    && (forall a, b | 0 <= a < b < |r| :: r[a] < r[b])
  }

  /** Slot x starts a run. */
  ghost predicate Cabeza(t: seq<Entrada>, x: nat) {
    x < |t| && Viva(t[x]) && ConsultarTabla(t, t[x].clave) == x
  }

  lemma Encabeza(t: seq<Entrada>, r: seq<nat>, i: nat, j: nat)
    requires Primeros(t, r, j) && i < j && Cabeza(t, i)
    ensures Primeros(t, [i] + r, i)
  {
    var l := [i] + r;
    assert forall n | 0 < n < |l| :: l[n] == r[n - 1];
  }

  lemma RecorridoPaso(t: seq<Entrada>, T: nat, i: nat) returns (j: nat)
    requires T > 0 && SinCeros(t) && Ordenada(t, T, i) && i < |t| && Viva(t[i])
    ensures i < j <= |t| && j == i + Paginas(t[i].tamanio, T) && Ordenada(t, T, j)
    ensures Cabeza(t, i) && forall x | i <= x < j :: Viva(t[x])
    ensures Recorrido(t, T, i) == [i] + Recorrido(t, T, j)
  {
    j := i + Paginas(t[i].tamanio, T);
  }

  /** The walk goes left to right over first slots of runs. */
  lemma {:induction false} RecorridoPrimeros(t: seq<Entrada>, T: nat, i: nat)
    requires T > 0 && SinCeros(t) && Ordenada(t, T, i)
    ensures Primeros(t, Recorrido(t, T, i), i)
    decreases |t| - i
  {
    if i < |t| {
      if !Viva(t[i]) {
        RecorridoPrimeros(t, T, i + 1);
      } else {
        var j := RecorridoPaso(t, T, i);
        RecorridoPrimeros(t, T, j);
        Encabeza(t, Recorrido(t, T, j), i, j);
      }
    }
  }

  /** No run starts inside another. */
  lemma MismoTramo(t: seq<Entrada>, T: nat, i: nat, q: nat)
    requires T > 0 && Ordenada(t, T, i) && i < q && Cabeza(t, q) && Viva(t[i])
    ensures i + Paginas(t[i].tamanio, T) <= q
  {}

  /** It misses none. */
  lemma {:induction false} RecorridoTodos(t: seq<Entrada>, T: nat, i: nat, q: nat)
    requires T > 0 && SinCeros(t) && Ordenada(t, T, i) && Cabeza(t, q) && i <= q
    ensures q in Recorrido(t, T, i)
    decreases |t| - i
  {
    if i < q {
      if !Viva(t[i]) {
        RecorridoTodos(t, T, i + 1, q);
      } else {
        var j := RecorridoPaso(t, T, i);
        MismoTramo(t, T, i, q);
        RecorridoTodos(t, T, j, q);
      }
    }
  }

  lemma LibresSalto(t: seq<Entrada>, i: nat, j: nat)
    requires i <= j <= |t| && forall x | i <= x < j :: Viva(t[x])
    ensures Libres(t[i..]) == Libres(t[j..])
  {
    assert t[i..] == t[i..j] + t[j..];
    LibresConcat(t[i..j], t[j..]);
    LibresDeVivas(t[i..j]);
  }

  lemma SumaCons(t: seq<Entrada>, T: nat, i: nat, r: seq<nat>)
    requires T > 0 && i < |t| && forall x | x in r :: x < |t|
    ensures (forall x | x in [i] + r :: x < |t|)
    ensures Suma(t, T, [i] + r) == Paginas(t[i].tamanio, T) + Suma(t, T, r)
  {
    assert ([i] + r)[1..] == r;
  }

  /** The slots of the visited runs are all that is not free. */
  lemma {:induction false} RecorridoSuma(t: seq<Entrada>, T: nat, i: nat)
    requires T > 0 && SinCeros(t) && Ordenada(t, T, i)
    ensures Suma(t, T, Recorrido(t, T, i)) + Libres(t[i..]) == |t| - i
    decreases |t| - i
  {
    if i < |t| {
      if !Viva(t[i]) {
        RecorridoSuma(t, T, i + 1);
        assert t[i..][1..] == t[i + 1..];
      } else {
        var j := RecorridoPaso(t, T, i);
        RecorridoSuma(t, T, j);
        LibresSalto(t, i, j);
        SumaCons(t, T, i, Recorrido(t, T, j));
      }
    }
  }

  /** Over a whole laid-out table: dump visits every live key once, at the slot consultarTabla
      finds, and free_entries is exactly what the values leave. */
  lemma VolcadoVisitaTodo(t: seq<Entrada>, T: nat)
    requires T > 0 && Disposicion(t, T)
    ensures SinCeros(t)
    ensures var r := Recorrido(t, T, 0);
            && (forall x | x in r :: Cabeza(t, x))
            && (forall k | k in Claves(t) :: ConsultarTabla(t, k) in r)
            && (forall a, b | 0 <= a < b < |r| :: r[a] < r[b])
            && Libres(t) == |t| - Suma(t, T, r)
  {
    DisposicionSinCeros(t, T);
    DisposicionOrdenada(t, T, 0);
    RecorridoPrimeros(t, T, 0);
    RecorridoSuma(t, T, 0);
    assert t[0..] == t;
    forall k | k in Claves(t)
      ensures ConsultarTabla(t, k) in Recorrido(t, T, 0)
    {
      assert t[ConsultarTabla(t, k)].clave == k;
      RecorridoTodos(t, T, 0, ConsultarTabla(t, k));
    }
  }

  /** The file that guardarEnClaves creates for a value of `n` bytes, at the first SET of its key;
      an existing one is left as it is. A file for no bytes cannot be mapped, and the source exits. */
  function Abrir(c: Copias, k: string, n: nat, T: nat): (r: Copias)
    requires T > 0 && (k in c || n > 0)
    ensures r.Keys == c.Keys + {k} && forall x | x in c :: r[x] == c[x]
  {
    if k in c then c
    else
      CotaIndice(0, Paginas(n, T), T);
      c[k := seq(Paginas(n, T) * T + 2, _ => NUL)]
  }

  /** memcpy to the start of a mapped file, whose length nothing changes once it is created. */
  function Pisar(copia: string, bytes: string): (r: string)
    ensures |r| == |copia|
    ensures forall i | 0 <= i < |r| :: r[i] == if i < |bytes| then bytes[i] else copia[i]
  {
    if |bytes| >= |copia| then bytes[..|copia|] else bytes + copia[|bytes|..]
  }

  /** storeKey: the value and one byte more go to the file of the key. */
  ghost function Guardar(c: Copias, a: Almacen, T: nat, k: string): (r: Copias)
    requires Bien(a, T) && (ConsultarTabla(a.tabla, k) != -1 ==> k in c)
    ensures r.Keys == c.Keys && forall x | x in c :: |r[x]| == |c[x]|
  {
    var q := ConsultarTabla(a.tabla, k);
    if q == -1 then c
    else
      CotaIndice(q, |a.tabla|, T);
      c[k := Pisar(c[k], Leer(a.mem, q * T, a.tabla[q].tamanio + 1))]
  }

  /** The value at slot i copied over the start of its file. */
  ghost function Copiado(c: Copias, a: Almacen, T: nat, i: nat): (r: Copias)
    requires Bien(a, T) && i < |a.tabla| && a.tabla[i].clave in c
    ensures r.Keys == c.Keys && forall x | x in c :: |r[x]| == |c[x]|
  {
    var k := a.tabla[i].clave;
    CotaIndice(i, |a.tabla|, T);
    c[k := Pisar(c[k], Leer(a.mem, i * T, a.tabla[i].tamanio))]
  }

  /** dump, from slot i. */
  ghost function Volcar(c: Copias, a: Almacen, T: nat, i: nat): (r: Copias)
    requires Bien(a, T) && SinCeros(a.tabla) && Claves(a.tabla) <= c.Keys
    ensures r.Keys == c.Keys && forall x | x in c :: |r[x]| == |c[x]|
    decreases |a.tabla| - i
  {
    if i >= |a.tabla| then c
    else if !Viva(a.tabla[i]) then Volcar(c, a, T, i + 1)
    else Volcar(Copiado(c, a, T, i), a, T, i + Paginas(a.tabla[i].tamanio, T))
  }

  /** Where a key can be found, around the run at i. */
  lemma OrdenadaPaso(t: seq<Entrada>, T: nat, i: nat, k: string)
    requires T > 0 && Ordenada(t, T, i) && i < |t| && Viva(t[i]) && k != VACIO
    ensures var q, P := ConsultarTabla(t, k), Paginas(t[i].tamanio, T);
            && P >= 1 && Ordenada(t, T, i + P)
            && if k == t[i].clave then q == i else q < i || q >= i + P
  {
    var q, P := ConsultarTabla(t, k), Paginas(t[i].tamanio, T);
    assert i <= q < i + P ==> t[q].clave == t[i].clave;
  }

  lemma CopiadoEn(c: Copias, a: Almacen, T: nat, i: nat, k: string)
    requires Bien(a, T) && i < |a.tabla| && a.tabla[i].clave in c && k in c
    requires a.tabla[i].clave == k ==> ConsultarTabla(a.tabla, k) == i
    ensures Copiado(c, a, T, i)[k] == if a.tabla[i].clave == k then Pisar(c[k], GetValue(a, T, k).value) else c[k]
  {
    CotaIndice(i, |a.tabla|, T);
    if a.tabla[i].clave == k { ValorEn(a, T, k, i); }
  }

  lemma ClaveViva(t: seq<Entrada>, i: nat)
    requires i < |t| && Viva(t[i])
    ensures t[i].clave in Claves(t)
  {}

  /** The walk over the run at i, seen from the key `k`, found at slot q or nowhere. */
  lemma CopiaPaso(c: Copias, a: Almacen, T: nat, i: nat, k: string, q: int, v: string) returns (j: nat)
    requires Bien(a, T) && Claves(a.tabla) <= c.Keys && k in c && k != VACIO
    requires q == ConsultarTabla(a.tabla, k) && (q != -1 ==> GetValue(a, T, k) == Some(v))
    requires Ordenada(a.tabla, T, i) && i < |a.tabla| && Viva(a.tabla[i])
    ensures j == i + Paginas(a.tabla[i].tamanio, T) && Ordenada(a.tabla, T, j) && a.tabla[i].clave in c
    ensures q < i || q == i < j || q >= j > i
    ensures Copiado(c, a, T, i)[k] == if q == i then Pisar(c[k], v) else c[k]
  {
    j := i + Paginas(a.tabla[i].tamanio, T);
    ClaveViva(a.tabla, i);
    OrdenadaPaso(a.tabla, T, i, k);
    CopiadoEn(c, a, T, i, k);
  }

  /** The dump after one copy. */
  lemma VolcarVivo(c: Copias, a: Almacen, T: nat, i: nat)
    requires Bien(a, T) && SinCeros(a.tabla) && Claves(a.tabla) <= c.Keys && i < |a.tabla| && Viva(a.tabla[i])
    ensures a.tabla[i].clave in c
    ensures Volcar(c, a, T, i) == Volcar(Copiado(c, a, T, i), a, T, i + Paginas(a.tabla[i].tamanio, T))
  {
    ClaveViva(a.tabla, i);
  }

  /** What the dump does from a boundary on to the file of `k`. */
  lemma {:induction false} VolcadoDesde(c: Copias, a: Almacen, T: nat, i: nat, k: string, q: int, v: string, r: Copias)
    requires Bien(a, T) && SinCeros(a.tabla) && Claves(a.tabla) <= c.Keys && k in c && k != VACIO
    requires q == ConsultarTabla(a.tabla, k) && (q != -1 ==> GetValue(a, T, k) == Some(v))
    requires Ordenada(a.tabla, T, i) && r == Volcar(c, a, T, i)
    ensures k in r && r[k] == if q >= i then Pisar(c[k], v) else c[k]
    decreases |a.tabla| - i
  {
    if i < |a.tabla| {
      if !Viva(a.tabla[i]) {
        VolcadoDesde(c, a, T, i + 1, k, q, v, r);
        assert q != i;
      } else {
        var j := CopiaPaso(c, a, T, i, k, q, v);
        VolcarVivo(c, a, T, i);
        VolcadoDesde(Copiado(c, a, T, i), a, T, j, k, q, v, r);
      }
    }
  }

  /** After a dump the file of a live key holds as much of its value as fits it and then what it
      held before; so it begins with the value exactly when that fits. No other file changes. */
  lemma VolcadoFiel(c: Copias, a: Almacen, T: nat, k: string)
    requires Bien(a, T) && Disposicion(a.tabla, T) && Claves(a.tabla) <= c.Keys && k in c && k != VACIO
    ensures SinCeros(a.tabla)
    ensures var r := Volcar(c, a, T, 0)[k];
            && |r| == |c[k]|
            && if k in Claves(a.tabla) then
                 var v := GetValue(a, T, k).value;
                 && (v <= r <==> |v| <= |c[k]|)
                 && forall i | 0 <= i < |r| :: r[i] == if i < |v| then v[i] else c[k][i]
               else r == c[k]
  {
    DisposicionSinCeros(a.tabla, T);
    DisposicionOrdenada(a.tabla, T, 0);
    var q := ConsultarTabla(a.tabla, k);
    VolcadoDesde(c, a, T, 0, k, q, if q == -1 then "" else GetValue(a, T, k).value, Volcar(c, a, T, 0));
    assert q >= 0 ==> a.tabla[q].clave == k;
  }

  // ---- what a STORE writes ----

  /** What storeKey copies: the value and the byte that follows it in the arena, if any does. */
  lemma LeerUnoMas(mem: seq<char>, at: nat, n: nat, copia: string)
    requires at <= |mem|
    ensures var v, r := Leer(mem, at, n), Pisar(copia, Leer(mem, at, n + 1));
            && (v <= r <==> |v| <= |copia|)
            && forall i | 0 <= i < |copia| ::
                 r[i] == if i < |v| then v[i] else if i == |v| && at + i < |mem| then mem[at + i] else copia[i]
  {
    var v, b := Leer(mem, at, n), Leer(mem, at, n + 1);
    assert if at + |v| < |mem| then b == v + [mem[at + |v|]] else b == v;
    if |v| <= |copia| { assert Pisar(copia, b)[..|v|] == v; }
  }

  lemma GuardadoEn(c: Copias, a: Almacen, T: nat, k: string)
    requires Bien(a, T) && k != VACIO && k in Claves(a.tabla) && k in c
    ensures var q := ConsultarTabla(a.tabla, k);
            && 0 <= q < |a.tabla| && 0 <= q * T <= |a.mem|
            && Guardar(c, a, T, k) == c[k := Pisar(c[k], Leer(a.mem, q * T, a.tabla[q].tamanio + 1))]
            && GetValue(a, T, k) == Some(Leer(a.mem, q * T, a.tabla[q].tamanio))
  {
    var q := ConsultarTabla(a.tabla, k);
    CotaIndice(q, |a.tabla|, T);
    ValorEn(a, T, k, q);
  }

  /** After a STORE the file of a stored key begins with its value exactly when that fits; the byte
      behind it is the one that follows the value in the arena, and the rest is what it was. No
      other file changes, and none at all when the key is not stored. */
  lemma GuardadoFiel(c: Copias, a: Almacen, T: nat, k: string)
    requires Bien(a, T) && k != VACIO && (k in Claves(a.tabla) ==> k in c)
    ensures ConsultarTabla(a.tabla, k) != -1 ==> k in c
    ensures var r := Guardar(c, a, T, k);
            && (forall x | x in c && x != k :: r[x] == c[x])
            && if k in Claves(a.tabla) then
                 var v, at := GetValue(a, T, k).value, ConsultarTabla(a.tabla, k) * T;
                 && |r[k]| == |c[k]|
                 && (v <= r[k] <==> |v| <= |c[k]|)
                 && forall i | 0 <= i < |c[k]| ::
                      r[k][i] == if i < |v| then v[i]
                                 else if i == |v| && at + i < |a.mem| then a.mem[at + i] else c[k][i]
               else r == c
  {
    var q := ConsultarTabla(a.tabla, k);
    if q != -1 {
      ClaveViva(a.tabla, q);
      GuardadoEn(c, a, T, k);
      LeerUnoMas(a.mem, q * T, a.tabla[q].tamanio, c[k]);
    }
  }
}
