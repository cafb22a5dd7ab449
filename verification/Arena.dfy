/** The byte arena of an Instancia beside its table: slot i owns bytes i*T .. i*T+T.
    `Celdas` is the abstraction the proofs work on: what each slot holds, byte for byte,
    with every free slot alike. */
module Arena {
  import opened Tabla
  import opened Opciones

  const NUL := '\0'

  datatype Almacen = Almacen(tabla: seq<Entrada>, mem: seq<char>)

  /** One slot: free, or the entry and the bytes of the value that lie in it. */
  datatype Celda = Libre | Ocupada(entrada: Entrada, bytes: seq<char>)

  ghost predicate Bien(a: Almacen, T: nat) {
    T > 0 && |a.mem| == |a.tabla| * T
  }

  lemma Orden(i: nat, j: nat, T: nat)
    requires i < j
    ensures i * T + T <= j * T
  {
    assert j * T == i * T + (j - i) * T;
    assert (j - i) * T == T + (j - i - 1) * T;
  }

  /** memcpy inside the arena, for ranges that may overlap; bytes past its end do not exist. */
  function Copiar(mem: seq<char>, dst: nat, src: nat, n: nat): (r: seq<char>)
    requires dst <= src <= |mem|
    ensures |r| == |mem|
    ensures forall b | 0 <= b < |mem| ::
              r[b] == if dst <= b < dst + n && b - dst + src < |mem| then mem[b - dst + src] else mem[b]
  {
    var m := Min(n, |mem| - src);
    mem[..dst] + mem[src..src + m] + mem[dst + m..]
  }

  /** memcpy of `bytes` into the arena at `at`; bytes past its end are dropped. */
  function Escribir(mem: seq<char>, at: nat, bytes: seq<char>): (r: seq<char>)
    requires at <= |mem|
    ensures |r| == |mem|
    ensures forall b | 0 <= b < |mem| :: r[b] == if at <= b < at + |bytes| then bytes[b - at] else mem[b]
  {
    var m := Min(|bytes|, |mem| - at);
    mem[..at] + bytes[..m] + mem[at + m..]
  }

  function Leer(mem: seq<char>, at: nat, n: nat): seq<char>
    requires at <= |mem|
  {
    mem[at..Min(at + n, |mem|)]
  }

  ghost function CeldaEn(a: Almacen, T: nat, i: nat): Celda
    requires Bien(a, T) && i < |a.tabla|
  {
    Orden(i, |a.tabla|, T);
    if Viva(a.tabla[i]) then Ocupada(a.tabla[i], a.mem[i * T..i * T + Min(T, a.tabla[i].tamanio)])
    else Libre
  }

  ghost function Celdas(a: Almacen, T: nat): (c: seq<Celda>)
    requires Bien(a, T)
    ensures |c| == |a.tabla|
    ensures forall i | 0 <= i < |c| :: c[i] == CeldaEn(a, T, i)
  {
    seq(|a.tabla|, i requires 0 <= i < |a.tabla| => CeldaEn(a, T, i))
  }

  /** get_value: the value of `k`, read from the first slot that names it. */
  ghost function GetValue(a: Almacen, T: nat, k: string): Option<string>
    requires Bien(a, T)
  {
    var q := ConsultarTabla(a.tabla, k);
    if q == -1 then None
    else
      Orden(q, |a.tabla|, T);
      Some(Leer(a.mem, q * T, a.tabla[q].tamanio))
  }

  /** What the engine stores: the plain map from live keys to values. */
  ghost function Mapa(a: Almacen, T: nat): (m: map<string, string>)
    requires Bien(a, T)
    ensures m.Keys == Claves(a.tabla)
  {
    map k | k in Claves(a.tabla) :: GetValue(a, T, k).value
  }

  lemma SubMem(m: seq<char>, m': seq<char>, at: nat, at': nat, n: nat, k: nat)
    requires k <= n && at + n <= |m| && at' + n <= |m'| && m[at..at + n] == m'[at'..at' + n]
    ensures m[at..at + k] == m'[at'..at' + k]
  {
    assert m[at..at + k] == m[at..at + n][..k];
    assert m'[at'..at' + k] == m'[at'..at' + n][..k];
  }

  lemma MismoSlot(a: Almacen, a': Almacen, T: nat, q: nat, q': nat, m: nat)
    requires Bien(a, T) && Bien(a', T) && q < |a.tabla| && q' < |a'.tabla|
    requires CeldaEn(a, T, q) == CeldaEn(a', T, q') && Viva(a.tabla[q])
    requires m <= Min(T, a.tabla[q].tamanio)
    ensures q * T + m <= |a.mem| && q' * T + m <= |a'.mem|
    ensures a.mem[q * T..q * T + m] == a'.mem[q' * T..q' * T + m]
  {
    Orden(q, |a.tabla|, T);
    Orden(q', |a'.tabla|, T);
    assert a'.tabla[q'] == a.tabla[q];
    SubMem(a.mem, a'.mem, q * T, q' * T, Min(T, a.tabla[q].tamanio), m);
  }

  lemma MismaCola(c: seq<Celda>, c': seq<Celda>, q: nat, q': nat, P: nat)
    requires 1 <= P && q + P <= |c| && q' + P <= |c'| && c[q..q + P] == c'[q'..q' + P]
    ensures c[q] == c'[q'] && c[q + 1..q + P] == c'[q' + 1..q' + P]
  {
    assert c[q] == c[q..q + P][0] == c'[q'..q' + P][0] == c'[q'];
    assert c[q + 1..q + P] == c[q..q + P][1..];
    assert c'[q' + 1..q' + P] == c'[q'..q' + P][1..];
  }

  /** Equal cells hold equal values: `n` bytes spread over slots q.. and over slots q'.. . */
  lemma {:induction false} MismosBytes(a: Almacen, a': Almacen, T: nat, q: nat, q': nat, n: nat)
    requires Bien(a, T) && Bien(a', T)
    requires q + Paginas(n, T) <= |a.tabla| && q' + Paginas(n, T) <= |a'.tabla|
    requires Celdas(a, T)[q..q + Paginas(n, T)] == Celdas(a', T)[q'..q' + Paginas(n, T)]
    requires forall i | q <= i < q + Paginas(n, T) :: Viva(a.tabla[i]) && Min(T, n) <= a.tabla[i].tamanio
    ensures q * T + n <= |a.mem| && q' * T + n <= |a'.mem|
    ensures a.mem[q * T..q * T + n] == a'.mem[q' * T..q' * T + n]
    decreases n
  {
    var P := Paginas(n, T);
    var c, c' := Celdas(a, T), Celdas(a', T);
    if n == 0 {
      CotaIndice(q, |a.tabla|, T);
      CotaIndice(q', |a'.tabla|, T);
    } else if n <= T {
      MismaCola(c, c', q, q', P);
      MismoSlot(a, a', T, q, q', n);
    } else {
      MismaCola(c, c', q, q', P);
      MismoSlot(a, a', T, q, q', T);
      MismosBytes(a, a', T, q + 1, q' + 1, n - T);
      Empalma(a.mem, a'.mem, q, q', T, n);
    }
  }

  lemma JuntaSlot(mem: seq<char>, q: nat, T: nat, n: nat)
    requires T < n && (q + 1) * T + (n - T) <= |mem|
    ensures q * T + n <= |mem|
    ensures mem[q * T..q * T + n] == mem[q * T..q * T + T] + mem[(q + 1) * T..(q + 1) * T + (n - T)]
  {
    assert (q + 1) * T == q * T + T;
  }

  lemma Empalma(m: seq<char>, m': seq<char>, q: nat, q': nat, T: nat, n: nat)
    requires T < n && (q + 1) * T + (n - T) <= |m| && (q' + 1) * T + (n - T) <= |m'|
    requires q * T + T <= |m| && q' * T + T <= |m'| && m[q * T..q * T + T] == m'[q' * T..q' * T + T]
    requires m[(q + 1) * T..(q + 1) * T + (n - T)] == m'[(q' + 1) * T..(q' + 1) * T + (n - T)]
    ensures q * T + n <= |m| && q' * T + n <= |m'| && m[q * T..q * T + n] == m'[q' * T..q' * T + n]
  {
    JuntaSlot(m, q, T, n);
    JuntaSlot(m', q', T, n);
  }

  lemma CotaIndice(i: nat, n: nat, T: nat)
    requires i <= n
    ensures i * T <= n * T
  {
    if i < n { Orden(i, n, T); }
  }

  /** get_value, once the slot of the key is known. */
  lemma ValorEn(a: Almacen, T: nat, k: string, q: nat)
    requires Bien(a, T) && ConsultarTabla(a.tabla, k) == q
    ensures 0 <= q * T <= |a.mem|
    ensures GetValue(a, T, k) == Some(Leer(a.mem, q * T, a.tabla[q].tamanio))
  {
    CotaIndice(q, |a.tabla|, T);
    CotaIndice(0, q, T);
  }
}
