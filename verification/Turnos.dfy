/** Equitable load: which instance choose_by_counter takes, and how often. */
module Turnos {
  import opened Coordinacion

  /** The first active instance at or after `p`, or the last of the list. */
  predicate PrimeraDesde(ns: seq<Nodo>, p: nat, i: nat) {
    && p <= i < |ns| && (ns[i].activa || i == |ns| - 1) && forall j | p <= j < i :: !ns[j].activa
  }

  lemma {:induction false} AvanzaHasta(ns: seq<Nodo>, p: nat, i: nat, q: nat)
    requires p <= i < |ns| && q == i + 1 && forall j | p <= j < i :: !ns[j].activa
    ensures var (r, s) := Avanza(ns, i, q);
            PrimeraDesde(ns, p, r) && s == r + 1
    decreases |ns| - i
  {
    if !ns[i].activa && q < |ns| { AvanzaHasta(ns, p, q, q + 1); }
  }

  /** choose_by_counter takes the first active instance at or after the pointer if there is
      one there, and otherwise the last of the list, active or not; the pointer goes past it,
      except in a simulated choice of the active instance it is on. */
  lemma ContadorElige(ns: seq<Nodo>, p: nat, simulado: bool)
    requires p < |ns|
    ensures var (i, q) := ChooseByCounter(ns, p, simulado);
            && PrimeraDesde(ns, p, i)
            && (ns[i].activa <==> exists j | p <= j < |ns| :: ns[j].activa)
            && q == (if simulado && ns[p].activa then p else if i + 1 == |ns| then 0 else i + 1)
  {
    if simulado && !ns[p].activa {
      AvanzaHasta(ns, p, p, p + 1);
    } else if !simulado {
      AvanzaHasta(ns, p, p, p + 1);
    }
  }

  /** An active instance before the pointer is no help: with none after it an inactive one is taken. */
  lemma EligeInactiva(a: Nodo, b: Nodo)
    requires a.activa && !b.activa
    ensures ChooseByCounter([a, b], 1, false) == (1, 0)
  {}

  // ---- fairness ----

  /** The instances that the real choices among `fs` take, from pointer `p`; a true in `fs` is a
      simulated choice. */
  function Elecciones(ns: seq<Nodo>, p: nat, fs: seq<bool>): (r: seq<nat>)
    requires p < |ns|
    decreases |fs|
  {
    if fs == [] then []
    else
      var (i, q) := ChooseByCounter(ns, p, fs[0]);
      (if fs[0] then [] else [i]) + Elecciones(ns, q, fs[1..])
  }

  function Veces(l: seq<nat>, i: nat): nat {
    if |l| == 0 then 0 else (if l[0] == i then 1 else 0) + Veces(l[1..], i)
  }

  /** The ones that are taken in turn: the active ones, and the last of the list even if it is not. */
  predicate Participa(ns: seq<Nodo>, i: nat)
    requires i < |ns|
  {
    ns[i].activa || i == |ns| - 1
  }

  /** How many of those there are before `p`. */
  function Puesto(ns: seq<Nodo>, p: nat): (r: nat)
    requires p <= |ns|
    ensures r <= p
  {
    if p == 0 then 0 else Puesto(ns, p - 1) + if Participa(ns, p - 1) then 1 else 0
  }

  lemma {:induction false} PuestoCrece(ns: seq<Nodo>, p: nat, q: nat)
    requires p <= q <= |ns|
    ensures Puesto(ns, p) <= Puesto(ns, q)
    ensures p < q && Participa(ns, p) ==> Puesto(ns, p) < Puesto(ns, q)
    ensures (forall j | p <= j < q :: !Participa(ns, j)) ==> Puesto(ns, p) == Puesto(ns, q)
  {
    if p < q { PuestoCrece(ns, p, q - 1); }
  }

  /** No simulated choice finds the pointer on an inactive instance. */
  ghost predicate SinSaltos(ns: seq<Nodo>, p: nat, fs: seq<bool>)
    requires p < |ns|
    decreases |fs|
  {
    fs == [] || ((fs[0] ==> ns[p].activa) && SinSaltos(ns, ChooseByCounter(ns, p, fs[0]).1, fs[1..]))
  }

  /** How many turns after place `p` the turn of place `i` comes, among n. */
  function Espera(p: nat, i: nat, n: nat): (d: nat)
    requires p < n && i < n
    ensures d < n
  {
    if i >= p then i - p else i - p + n
  }

  /** In k choices made from place `p`, place `i` has had its turn, v times, once for each n. */
  predicate EnTurno(v: nat, k: nat, p: nat, i: nat, n: nat)
    requires p < n && i < n
  {
    0 <= v * n - (k - Espera(p, i, n)) < n
  }

  lemma PuestoTope(ns: seq<Nodo>, p: nat)
    requires p < |ns|
    ensures Puesto(ns, p) < Puesto(ns, |ns|)
  {
    PuestoCrece(ns, p, |ns| - 1);
  }

  lemma PuestoSucesor(ns: seq<Nodo>, p: nat, e: nat)
    requires PrimeraDesde(ns, p, e)
    ensures Participa(ns, e) && Puesto(ns, e) == Puesto(ns, p) && Puesto(ns, e + 1) == Puesto(ns, p) + 1
    ensures Puesto(ns, p) + 1 == Puesto(ns, |ns|) <==> e + 1 == |ns|
  {
    PuestoCrece(ns, p, e);
    if e + 1 < |ns| { PuestoTope(ns, e + 1); }
  }

  /** A real choice takes the one whose place it is and passes to the next place. */
  lemma TurnoSiguiente(ns: seq<Nodo>, p: nat, i: nat)
    requires p < |ns| && i < |ns| && Participa(ns, i)
    ensures Puesto(ns, p) < Puesto(ns, |ns|) && Puesto(ns, i) < Puesto(ns, |ns|)
    ensures var (e, q) := ChooseByCounter(ns, p, false);
            && (e == i <==> Puesto(ns, p) == Puesto(ns, i))
            && Puesto(ns, q) == if Puesto(ns, p) + 1 == Puesto(ns, |ns|) then 0 else Puesto(ns, p) + 1
  {
    ContadorElige(ns, p, false);
    var (e, q) := ChooseByCounter(ns, p, false);
    PuestoTope(ns, p);
    PuestoTope(ns, i);
    PuestoSucesor(ns, p, e);
    if i < e { PuestoCrece(ns, i, e); } else { PuestoCrece(ns, e, i); }
  }

  lemma SumaTurno(v: nat, k: nat, p: nat, i: nat, q: nat, n: nat)
    requires p < n && i < n && q == if p + 1 == n then 0 else p + 1
    requires EnTurno(v, k, q, i, n)
    ensures EnTurno(if p == i then v + 1 else v, k + 1, p, i, n)
  {
    assert (v + 1) * n == v * n + n;
  }

  /** What the first choice adds. */
  lemma UnaMas(ns: seq<Nodo>, p: nat, fs: seq<bool>, i: nat)
    requires p < |ns| && fs != [] && SinSaltos(ns, p, fs)
    ensures var (e, q) := ChooseByCounter(ns, p, fs[0]);
            var l, r := Elecciones(ns, p, fs), Elecciones(ns, q, fs[1..]);
            if fs[0] then q == p && l == r
            else |l| == |r| + 1 && Veces(l, i) == Veces(r, i) + if e == i then 1 else 0
  {
    var (e, q) := ChooseByCounter(ns, p, fs[0]);
    var r := Elecciones(ns, q, fs[1..]);
    if fs[0] { assert [] + r == r; } else { assert ([e] + r)[1..] == r; }
  }

  /** The real choices go round the active instances and the last, from the pointer: each of them
      has had its turn once for each n choices, counting from when its first turn came. */
  lemma {:induction false} EleccionesVeces(ns: seq<Nodo>, p: nat, fs: seq<bool>, i: nat)
    requires p < |ns| && i < |ns| && Participa(ns, i) && SinSaltos(ns, p, fs)
    ensures Puesto(ns, p) < Puesto(ns, |ns|) && Puesto(ns, i) < Puesto(ns, |ns|)
    ensures var l := Elecciones(ns, p, fs);
            EnTurno(Veces(l, i), |l|, Puesto(ns, p), Puesto(ns, i), Puesto(ns, |ns|))
    decreases |fs|
  {
    TurnoSiguiente(ns, p, i);
    if fs == [] {
      assert Veces([], i) * Puesto(ns, |ns|) == 0;
    } else {
      var q := ChooseByCounter(ns, p, fs[0]).1;
      EleccionesVeces(ns, q, fs[1..], i);
      UnaMas(ns, p, fs, i);
      if !fs[0] {
        var r := Elecciones(ns, q, fs[1..]);
        SumaTurno(Veces(r, i), |r|, Puesto(ns, p), Puesto(ns, i), Puesto(ns, q), Puesto(ns, |ns|));
      }
    }
  }

  lemma {:induction false} NuncaElegida(ns: seq<Nodo>, p: nat, fs: seq<bool>, i: nat)
    requires p < |ns| && i < |ns| && !Participa(ns, i)
    ensures Veces(Elecciones(ns, p, fs), i) == 0
    decreases |fs|
  {
    if fs != [] {
      ContadorElige(ns, p, fs[0]);
      var (e, q) := ChooseByCounter(ns, p, fs[0]);
      NuncaElegida(ns, q, fs[1..], i);
      var r := Elecciones(ns, q, fs[1..]);
      assert ([e] + r)[1..] == r;
      assert Elecciones(ns, p, fs) == if fs[0] then [] + r else [e] + r;
      assert [] + r == r;
    }
  }

  lemma MenorProducto(a: int, b: int, n: int)
    requires n > 0 && a * n < b * n
    ensures a < b
  {
    assert a >= b ==> (a - b) * n >= 0;
  }

  lemma {:induction false} ActivosMas(ns: seq<Nodo>, n: Nodo)
    ensures Activos(ns + [n]) == Activos(ns) + if n.activa then 1 else 0
  {
    if ns == [] {
      assert [n][1..] == [];
    } else {
      assert (ns + [n])[1..] == ns[1..] + [n];
      ActivosMas(ns[1..], n);
    }
  }

  lemma {:induction false} PuestoActivos(ns: seq<Nodo>, p: nat)
    requires p <= |ns|
    ensures Puesto(ns, p) == Activos(ns[..p]) + if p == |ns| && p > 0 && !ns[p - 1].activa then 1 else 0
  {
    if p > 0 {
      PuestoActivos(ns, p - 1);
      ActivosMas(ns[..p - 1], ns[p - 1]);
      assert ns[..p] == ns[..p - 1] + [ns[p - 1]];
    }
  }

  /** How many take part; and two cases in which no turn is skipped. */
  lemma {:induction false} ParticipanActivos(ns: seq<Nodo>, p: nat, fs: seq<bool>)
    requires p < |ns|
    ensures Puesto(ns, |ns|) == Activos(ns) + if ns[|ns| - 1].activa then 0 else 1
    ensures (forall i | 0 <= i < |fs| :: !fs[i]) || (forall i | 0 <= i < |ns| :: ns[i].activa) ==> SinSaltos(ns, p, fs)
    decreases |fs|
  {
    PuestoActivos(ns, |ns|);
    assert ns[..|ns|] == ns;
    if fs != [] { ParticipanActivos(ns, ChooseByCounter(ns, p, fs[0]).1, fs[1..]); }
  }

  /** k real choices take each of the n active instances, the last of the list counted with them
      even if it is not active, the floor or the ceiling of k / n times, and no other instance;
      whatever the pointer was, and with any simulated choices among them that find it on an active
      instance. */
  lemma Equitativa(ns: seq<Nodo>, p: nat, fs: seq<bool>, i: nat)
    requires p < |ns| && i < |ns| && SinSaltos(ns, p, fs)
    ensures Puesto(ns, |ns|) > 0
    ensures var l, n := Elecciones(ns, p, fs), Puesto(ns, |ns|);
            if Participa(ns, i) then Veces(l, i) == |l| / n || (|l| % n != 0 && Veces(l, i) == |l| / n + 1)
            else Veces(l, i) == 0
  {
    var l := Elecciones(ns, p, fs);
    TurnoSiguiente(ns, p, |ns| - 1);
    if Participa(ns, i) {
      EleccionesVeces(ns, p, fs, i);
      PisoTecho(|l|, Puesto(ns, |ns|), Veces(l, i));
    } else {
      NuncaElegida(ns, p, fs, i);
    }
  }

  lemma PisoTecho(k: nat, n: nat, v: nat)
    requires n > 0 && k - n < v * n < k + n
    ensures v == k / n || (k % n != 0 && v == k / n + 1)
  {
    var q, r := k / n, k % n;
    assert k == q * n + r;
    assert (q - 1) * n == q * n - n && (q + 1) * n == q * n + n && (q + 2) * n == q * n + 2 * n;
    MenorProducto(q - 1, v, n);
    if r == 0 { MenorProducto(v, q + 1, n); } else { MenorProducto(v, q + 2, n); }
  }

  // ---- simulated choices ----

  /** A simulated choice leaves the pointer where it is if the instance there is active, and
      otherwise moves it just as a real one would. */
  lemma SimuladaAvanza(ns: seq<Nodo>, p: nat)
    requires p < |ns|
    ensures ChooseByCounter(ns, p, true) == if ns[p].activa then (p, p) else ChooseByCounter(ns, p, false)
  {}

  function Alternas(k: nat): seq<bool> { if k == 0 then [] else [true, false] + Alternas(k - 1) }

  lemma UnaVuelta(ns: seq<Nodo>, fs: seq<bool>)
    requires |ns| == 3 && ns[0].activa && !ns[1].activa && ns[2].activa
    ensures Elecciones(ns, 1, [true, false] + fs) == [0] + Elecciones(ns, 1, fs)
  {
    ContadorElige(ns, 1, true);
    ContadorElige(ns, 0, false);
    var gs := [true, false] + fs;
    assert gs[1..] == [false] + fs && gs[1..][1..] == fs;
  }

  /** So a turn can be lost for ever: of three instances, the second inactive, real choices that
      alternate with simulated ones take the first every time and the third never. */
  lemma {:induction false} Hambre(ns: seq<Nodo>, k: nat)
    requires |ns| == 3 && ns[0].activa && !ns[1].activa && ns[2].activa
    ensures Elecciones(ns, 1, Alternas(k)) == seq(k, _ => 0)
  {
    if k > 0 {
      UnaVuelta(ns, Alternas(k - 1));
      Hambre(ns, k - 1);
    }
  }
}
