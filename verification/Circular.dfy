/** SET under CIRC: the index walks the table over values of several slots, compacts when it
    runs out of table, and then starts again from slot 0. */
module Circular {
  import opened Tabla
  import opened Arena
  import opened Compactacion
  import opened LRUSet
  import opened LRURefina

  /** The engine: arena, flagCompactar, indexCircular, comienzoDeEntradasLibres. */
  datatype Anillo = Anillo(a: Almacen, flag: bool, indice: nat, comienzo: nat)

  // ---- guardarEnTablaCIRC ----

  /** The activation places the value. */
  predicate Listo(t: seq<Entrada>, T: nat, p: nat, i: nat) {
    p >= 1 && i + p <= |t| && t[i].tamanio <= T
  }

  ghost function Compactado(s: Anillo, T: nat, modo: Modo): (r: Anillo)
    requires Bien(s.a, T)
    ensures Bien(r.a, T) && |r.a.tabla| == |s.a.tabla|
  {
    var c := Compactar(s.a, T, modo);
    Anillo(c, s.flag, PrimeraLibre(c.tabla), PrimeraLibre(c.tabla))
  }

  /** One activation of guardarEnTablaCIRC that does not place the value. */
  ghost function Paso(s: Anillo, T: nat, modo: Modo, p: nat): (r: Anillo)
    requires Bien(s.a, T) && p >= 1 && !Listo(s.a.tabla, T, p, s.indice)
    ensures Bien(r.a, T) && |r.a.tabla| == |s.a.tabla|
  {
    if s.indice + p <= |s.a.tabla| then s.(indice := s.indice + Paginas(s.a.tabla[s.indice].tamanio, T))
    else if !s.flag then Compactado(s, T, modo).(flag := true)
    else s.(indice := 0, flag := false)
  }

  /** The walk from slot i, skipping values of several slots, meets a slot it may overwrite
      before the table ends. */
  ghost predicate Camina(t: seq<Entrada>, T: nat, p: nat, i: nat)
    requires T > 0 && p >= 1
    decreases |t| - i
  {
    i + p <= |t| && (t[i].tamanio <= T || Camina(t, T, p, i + Paginas(t[i].tamanio, T)))
  }

  /** Some phase still ahead has a walk that succeeds. */
  ghost predicate Alcanzable(s: Anillo, T: nat, modo: Modo, p: nat)
    requires Bien(s.a, T) && p >= 1
  {
    var c := Compactar(s.a, T, modo).tabla;
    || Camina(s.a.tabla, T, p, s.indice)
    || (s.flag && Camina(s.a.tabla, T, p, 0))
    || Camina(c, T, p, PrimeraLibre(c))
    || Camina(c, T, p, 0)
  }

  /** Phases to come: the rest of this walk, a compaction, a walk from 0. */
  ghost function Fase(s: Anillo, T: nat, modo: Modo, p: nat): nat
    requires Bien(s.a, T) && p >= 1
  {
    var c := Compactar(s.a, T, modo).tabla;
    var tras := if Camina(c, T, p, PrimeraLibre(c)) then 1 else 2;
    if Camina(s.a.tabla, T, p, s.indice) then 0
    else if !s.flag then tras
    else if Camina(s.a.tabla, T, p, 0) then 1
    else 1 + tras
  }

  ghost function Resto(s: Anillo): nat { if s.indice <= |s.a.tabla| then |s.a.tabla| - s.indice else 0 }

  lemma PasoAlcanzable(s: Anillo, T: nat, modo: Modo, p: nat)
    requires Bien(s.a, T) && p >= 1 && !Listo(s.a.tabla, T, p, s.indice)
    ensures Alcanzable(Paso(s, T, modo, p), T, modo, p) <==> Alcanzable(s, T, modo, p)
    ensures Alcanzable(s, T, modo, p) ==>
              || Fase(Paso(s, T, modo, p), T, modo, p) < Fase(s, T, modo, p)
              || (Fase(Paso(s, T, modo, p), T, modo, p) == Fase(s, T, modo, p)
                  && Resto(Paso(s, T, modo, p)) < Resto(s))
  {
    CompactarIdempotente(s.a, T, modo);
  }

  /** The engine at the activation that places the value. */
  ghost function Ubicar(s: Anillo, T: nat, modo: Modo, p: nat): (r: Anillo)
    requires Bien(s.a, T) && p >= 1 && Alcanzable(s, T, modo, p)
    ensures Bien(r.a, T) && |r.a.tabla| == |s.a.tabla| && Listo(r.a.tabla, T, p, r.indice)
    decreases Fase(s, T, modo, p), Resto(s)
  {
    if Listo(s.a.tabla, T, p, s.indice) then s
    else
      PasoAlcanzable(s, T, modo, p);
      Ubicar(Paso(s, T, modo, p), T, modo, p)
  }

  /** guardarEnTablaCIRC places the value within n further activations. */
  ghost predicate Coloca(s: Anillo, T: nat, modo: Modo, p: nat, n: nat)
    requires Bien(s.a, T) && p >= 1
    decreases n
  {
    Listo(s.a.tabla, T, p, s.indice) || (n > 0 && Coloca(Paso(s, T, modo, p), T, modo, p, n - 1))
  }

  ghost predicate Termina(s: Anillo, T: nat, modo: Modo, p: nat)
    requires Bien(s.a, T) && p >= 1
  {
    exists n: nat :: Coloca(s, T, modo, p, n)
  }

  lemma {:induction false} NuncaColoca(s: Anillo, T: nat, modo: Modo, p: nat, n: nat)
    requires Bien(s.a, T) && p >= 1 && !Alcanzable(s, T, modo, p)
    ensures !Coloca(s, T, modo, p, n)
    decreases n
  {
    if n > 0 {
      PasoAlcanzable(s, T, modo, p);
      NuncaColoca(Paso(s, T, modo, p), T, modo, p, n - 1);
    }
  }

  lemma {:induction false} ColocaAlgunaVez(s: Anillo, T: nat, modo: Modo, p: nat) returns (n: nat)
    requires Bien(s.a, T) && p >= 1 && Alcanzable(s, T, modo, p)
    ensures Coloca(s, T, modo, p, n)
    decreases Fase(s, T, modo, p), Resto(s)
  {
    if Listo(s.a.tabla, T, p, s.indice) {
      n := 0;
    } else {
      PasoAlcanzable(s, T, modo, p);
      n := ColocaAlgunaVez(Paso(s, T, modo, p), T, modo, p);
      n := n + 1;
    }
  }

  /** The recursion of guardarEnTablaCIRC ends exactly when one of the walks still ahead of it
      succeeds: from the index, from 0 if a wrap is due, or on the compacted table from its
      first free slot or from 0. Values of any number of slots, any table. */
  lemma TerminaSiiCamina(s: Anillo, T: nat, modo: Modo, p: nat)
    requires Bien(s.a, T) && p >= 1
    ensures Termina(s, T, modo, p) <==> Alcanzable(s, T, modo, p)
  {
    if Alcanzable(s, T, modo, p) {
      var n := ColocaAlgunaVez(s, T, modo, p);
      assert Coloca(s, T, modo, p, n);
    } else if Termina(s, T, modo, p) {
      var n: nat :| Coloca(s, T, modo, p, n);
      NuncaColoca(s, T, modo, p, n);
    }
  }

  // ---- where the value goes ----

  /** The walk from slot i ends on slot j: it steps over values of several slots, each as many slots as
      its size says, to the first slot that records no more than one, with room from there. */
  ghost predicate Llega(t: seq<Entrada>, T: nat, p: nat, i: nat, j: nat)
    requires T > 0 && p >= 1
    decreases |t| - i
  {
    && i + p <= |t|
    && if t[i].tamanio <= T then j == i else Llega(t, T, p, i + Paginas(t[i].tamanio, T), j)
  }

  lemma {:induction false} CaminaLlega(s: Anillo, T: nat, modo: Modo, p: nat)
    requires Bien(s.a, T) && p >= 1 && Camina(s.a.tabla, T, p, s.indice)
    ensures Alcanzable(s, T, modo, p)
    ensures var r := Ubicar(s, T, modo, p);
            Llega(s.a.tabla, T, p, s.indice, r.indice) && r == s.(indice := r.indice)
    decreases Resto(s)
  {
    if !Listo(s.a.tabla, T, p, s.indice) {
      PasoAlcanzable(s, T, modo, p);
      CaminaLlega(Paso(s, T, modo, p), T, modo, p);
    }
  }

  lemma {:induction false} CaminaEnVano(s: Anillo, T: nat, modo: Modo, p: nat)
    requires Bien(s.a, T) && p >= 1 && Alcanzable(s, T, modo, p) && !Camina(s.a.tabla, T, p, s.indice)
    ensures var r := if s.flag then s.(indice := 0, flag := false) else Compactado(s, T, modo).(flag := true);
            Alcanzable(r, T, modo, p) && Ubicar(s, T, modo, p) == Ubicar(r, T, modo, p)
    decreases Resto(s)
  {
    PasoAlcanzable(s, T, modo, p);
    if s.indice + p <= |s.a.tabla| {
      var q := Paso(s, T, modo, p);
      CaminaEnVano(q, T, modo, p);
    }
  }

  /** Where guardarEnTablaCIRC places a value, on any table and from any index: where the walk from the
      index ends; if that runs out of table, where the walk from 0 ends if flagCompactar is 1, or, after
      a compaction, the one from the first free slot or, failing that, from 0. */
  lemma UbicarEs(s: Anillo, T: nat, modo: Modo, p: nat)
    requires Bien(s.a, T) && p >= 1 && Alcanzable(s, T, modo, p)
    ensures var r, t, c := Ubicar(s, T, modo, p), s.a.tabla, Compactado(s, T, modo);
            if Camina(t, T, p, s.indice) then Llega(t, T, p, s.indice, r.indice) && r == s.(indice := r.indice)
            else if s.flag && Camina(t, T, p, 0) then
              Llega(t, T, p, 0, r.indice) && r == s.(indice := r.indice, flag := false)
            else if Camina(c.a.tabla, T, p, c.indice) then
              Llega(c.a.tabla, T, p, c.indice, r.indice) && r == c.(indice := r.indice, flag := true)
            else Llega(c.a.tabla, T, p, 0, r.indice) && r == c.(indice := r.indice, flag := false)
  {
    if Camina(s.a.tabla, T, p, s.indice) {
      CaminaLlega(s, T, modo, p);
    } else {
      CaminaEnVano(s, T, modo, p);
      if s.flag {
        var b := s.(indice := 0, flag := false);
        if Camina(s.a.tabla, T, p, 0) {
          CaminaLlega(b, T, modo, p);
        } else {
          CaminaEnVano(b, T, modo, p);
          TrasCompactar(b, T, modo, p);
        }
      } else {
        TrasCompactar(s, T, modo, p);
      }
    }
  }

  lemma TrasCompactar(s: Anillo, T: nat, modo: Modo, p: nat)
    requires Bien(s.a, T) && p >= 1 && Alcanzable(Compactado(s, T, modo).(flag := true), T, modo, p)
    ensures var c := Compactado(s, T, modo);
            var r := Ubicar(c.(flag := true), T, modo, p);
            if Camina(c.a.tabla, T, p, c.indice) then
              Llega(c.a.tabla, T, p, c.indice, r.indice) && r == c.(indice := r.indice, flag := true)
            else Llega(c.a.tabla, T, p, 0, r.indice) && r == c.(indice := r.indice, flag := false)
  {
    var c := Compactado(s, T, modo).(flag := true);
    if Camina(c.a.tabla, T, p, c.indice) {
      CaminaLlega(c, T, modo, p);
    } else {
      CaminaEnVano(c, T, modo, p);
      CompactarIdempotente(s.a, T, modo);
      CaminaLlega(c.(indice := 0, flag := false), T, modo, p);
    }
  }

  // ---- SET ----

  /** consultarTablaCIRC: the scan stops at comienzoDeEntradasLibres. */
  function ConsultarCorta(t: seq<Entrada>, comienzo: nat, k: string): int
    requires comienzo <= |t|
  {
    ConsultarTabla(t[..comienzo], k)
  }

  function SinClave(t: seq<Entrada>, e: nat, f: nat): (r: seq<Entrada>)
    ensures |r| == |t|
    ensures forall i | 0 <= i < |t| :: r[i] == if e <= i < f then t[i].(clave := VACIO) else t[i]
  {
    seq(|t|, i requires 0 <= i < |t| => if e <= i < f then t[i].(clave := VACIO) else t[i])
  }

  function ActualizadaCirc(t: seq<Entrada>, pos: nat, p: nat, k: string, n: nat): (r: seq<Entrada>)
    requires pos < |t|
    ensures |r| == |t|
  {
    var u := t[pos := t[pos].(tamanio := n)];
    if pos + p > |t| then u else SinClave(u, pos + p, FinDeClave(u, pos + p, k))
  }

  ghost predicate Puede(s: Anillo, T: nat, modo: Modo, k: string, v: string)
    requires Bien(s.a, T)
  {
    && s.comienzo <= |s.a.tabla|
    && (ConsultarCorta(s.a.tabla, s.comienzo, k) == -1 ==> v != "" && Alcanzable(s, T, modo, Paginas(|v|, T)))
  }

  /** What guardarEnTablaCIRC leaves. */
  ghost function Insertado(s: Anillo, T: nat, modo: Modo, k: string, v: string): (r: Anillo)
    requires Bien(s.a, T) && s.comienzo <= |s.a.tabla| && v != "" && Alcanzable(s, T, modo, Paginas(|v|, T))
    ensures Bien(r.a, T) && |r.a.tabla| == |s.a.tabla|
  {
    var p := Paginas(|v|, T);
    var u := Ubicar(s, T, modo, p);
    Anillo(EscribirValor(u.a.(tabla := Colocada(u.a.tabla, u.indice, p, Entrada(k, |v|, 0))), T, u.indice, v),
           u.flag, u.indice + p, Min(u.comienzo + p, |u.a.tabla|))
  }

  /** After any insertion the slots before the index, as many as the value takes, are the new key's,
      and comienzoDeEntradasLibres has gone as far, if not past the table. */
  lemma InsertadoDetras(s: Anillo, T: nat, modo: Modo, k: string, v: string)
    requires Bien(s.a, T) && s.comienzo <= |s.a.tabla| && v != "" && Alcanzable(s, T, modo, Paginas(|v|, T))
    ensures var r, u, p := Insertado(s, T, modo, k, v), Ubicar(s, T, modo, Paginas(|v|, T)), Paginas(|v|, T);
            && p <= r.indice <= |r.a.tabla| && r.flag == u.flag
            && r.comienzo == (if u.comienzo + p <= |u.a.tabla| then u.comienzo + p else |u.a.tabla|)
            && forall i | 0 <= i < |r.a.tabla| ::
                 r.a.tabla[i] == if r.indice - p <= i < r.indice then Entrada(k, |v|, 0) else u.a.tabla[i]
  {}

  ghost function SetCIRC(s: Anillo, T: nat, modo: Modo, k: string, v: string): (r: Anillo)
    requires Bien(s.a, T) && Puede(s, T, modo, k, v)
    ensures Bien(r.a, T) && |r.a.tabla| == |s.a.tabla|
  {
    var p, q := Paginas(|v|, T), ConsultarCorta(s.a.tabla, s.comienzo, k);
    if q != -1 then
      s.(a := EscribirValor(s.a.(tabla := ActualizadaCirc(s.a.tabla, q, p, k, |v|)), T, q, v))
    else Insertado(s, T, modo, k, v)
  }
}
