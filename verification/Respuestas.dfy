/** What an instance answers to the Coordinador: the headers wait in the socket in the order they
    were sent, and an operation may leave one there that the next operation takes for its own. */
module Respuestas {
  import opened Opciones
  import opened Coordinacion

  /** A content_header. */
  datatype Cabecera = Cabecera(id: nat, len: int)

  const COMPACTANDO := 11
  const LISTO := 12
  const REEMPLAZADA := 15

  /** What the Coordinador asks of an instance. A SET says how many compactions it asks for on the
      way (only CIRC does) and the free slots it leaves; a STORE whether the key is in the table. */
  datatype Orden = Leer | Poner(avisos: nat, libres: int) | Almacenar(esta: bool) | Compactar

  /** The headers that the instance sends for it. */
  function Envia(o: Orden): seq<Cabecera> {
    match o
    case Poner(n, l) => seq(n, _ => Cabecera(COMPACTANDO, 0)) + [Cabecera(LISTO, l)]
    case Almacenar(esta) => (if esta then [] else [Cabecera(REEMPLAZADA, 0)]) + [Cabecera(LISTO, 0)]
    case _ => [Cabecera(LISTO, 0)]
  }

  /** The headers sent and not yet read, and the free_space of the instance. */
  datatype Canal = Canal(cola: seq<Cabecera>, libre: int)

  const CONECTADA := Canal([], 999)

  /** process_message_header after a SET: it reads past each 11. None waits for ever. */
  function Avisado(q: seq<Cabecera>): Option<(Cabecera, seq<Cabecera>)> {
    if q == [] then None else if q[0].id == COMPACTANDO then Avisado(q[1..]) else Some((q[0], q[1..]))
  }

  /** One turn of host_instance: only a SET looks at what it reads. */
  function Atender(r: Reparto, c: Canal, o: Orden): Option<Canal> {
    var q := c.cola + Envia(o);
    if o.Poner? then
      match Avisado(q)
      case None => None
      case Some((h, resto)) => Some(Canal(resto, if r.LSU? then h.len else c.libre))
    else if q == [] then None
    else Some(Canal(q[1..], c.libre))
  }

  /** The channel after the operations `os` since the instance connected. */
  function Tras(r: Reparto, os: seq<Orden>): Option<Canal> {
    if |os| == 0 then Some(CONECTADA)
    else match Tras(r, os[..|os| - 1])
      case None => None
      case Some(c) => Atender(r, c, os[|os| - 1])
  }

  function Emitidas(os: seq<Orden>): seq<Cabecera> {
    if |os| == 0 then [] else Emitidas(os[..|os| - 1]) + Envia(os[|os| - 1])
  }

  /** STOREs of a key that was no longer in the table. */
  function Ausentes(os: seq<Orden>): nat {
    if |os| == 0 then 0
    else Ausentes(os[..|os| - 1]) + if os[|os| - 1] == Almacenar(false) then 1 else 0
  }

  /** The free slots that the last SET left. */
  function UltimoInforme(os: seq<Orden>): int {
    if |os| == 0 then CONECTADA.libre
    else if os[|os| - 1].Poner? then os[|os| - 1].libres
    else UltimoInforme(os[..|os| - 1])
  }

  /** The headers that end an answer. */
  function Finales(q: seq<Cabecera>): nat {
    if |q| == 0 then 0 else (if q[0].id == COMPACTANDO then 0 else 1) + Finales(q[1..])
  }

  lemma {:induction false} FinalesSuma(p: seq<Cabecera>, q: seq<Cabecera>)
    ensures Finales(p + q) == Finales(p) + Finales(q)
  {
    if p == [] {
      assert p + q == q;
    } else {
      assert (p + q)[1..] == p[1..] + q;
      FinalesSuma(p[1..], q);
    }
  }

  lemma {:induction false} FinalesAvisos(n: nat)
    ensures Finales(seq(n, _ => Cabecera(COMPACTANDO, 0))) == 0
  {
    var q := seq(n, _ => Cabecera(COMPACTANDO, 0));
    if n > 0 {
      assert q[1..] == seq(n - 1, _ => Cabecera(COMPACTANDO, 0));
      FinalesAvisos(n - 1);
    }
  }

  lemma EnviaFinales(o: Orden)
    ensures Finales(Envia(o)) == if o == Almacenar(false) then 2 else 1
  {
    match o
    case Poner(n, l) =>
      FinalesAvisos(n);
      FinalesSuma(seq(n, _ => Cabecera(COMPACTANDO, 0)), [Cabecera(LISTO, l)]);
    case Almacenar(esta) =>
      assert Finales([Cabecera(LISTO, 0)]) == 1;
      assert Envia(o) == if esta then [Cabecera(LISTO, 0)] else [Cabecera(REEMPLAZADA, 0)] + [Cabecera(LISTO, 0)];
      FinalesSuma([Cabecera(REEMPLAZADA, 0)], [Cabecera(LISTO, 0)]);
    case _ =>
  }

  /** With an end in the queue a SET does not wait, and takes that end and what comes before it. */
  lemma {:induction false} AvisadoLee(q: seq<Cabecera>)
    requires Finales(q) > 0
    ensures Avisado(q).Some? && Finales(Avisado(q).value.1) == Finales(q) - 1
    ensures var (h, resto) := Avisado(q).value;
            |resto| < |q| && resto == q[|q| - |resto|..] && h == q[|q| - |resto| - 1]
  {
    if q[0].id == COMPACTANDO {
      AvisadoLee(q[1..]);
    } else {
      assert q == [q[0]] + q[1..];
    }
  }

  /** What is sent behind the first end makes no difference to a SET. */
  lemma {:induction false} AvisadoPrimero(q: seq<Cabecera>, p: seq<Cabecera>)
    requires Finales(q) > 0
    ensures Avisado(q + p).Some? && Avisado(q).Some? && Avisado(q + p).value.0 == Avisado(q).value.0
  {
    assert (q + p)[1..] == q[1..] + p;
    if q[0].id == COMPACTANDO { AvisadoPrimero(q[1..], p); }
  }

  lemma {:induction false} AvisadoPropio(n: nat, l: int)
    ensures Avisado(Envia(Poner(n, l))) == Some((Cabecera(LISTO, l), []))
  {
    var q := Envia(Poner(n, l));
    if n > 0 {
      assert q[1..] == Envia(Poner(n - 1, l));
      AvisadoPropio(n - 1, l);
    } else {
      assert q == [Cabecera(LISTO, l)] && q[1..] == [];
    }
  }

  /** No operation waits for ever, and at least one end stays in the queue for each STORE of an
      absent key that there ever was. */
  lemma AtenderSigue(r: Reparto, c: Canal, o: Orden)
    ensures var d := Atender(r, c, o);
            d.Some? && Finales(d.value.cola) >= Finales(c.cola) + if o == Almacenar(false) then 1 else 0
    ensures var d := Atender(r, c, o);
            d.Some? && c.cola == [] && o != Almacenar(false)
            ==> d.value == Canal([], if r.LSU? && o.Poner? then o.libres else c.libre)
  {
    var q := c.cola + Envia(o);
    EnviaFinales(o);
    FinalesSuma(c.cola, Envia(o));
    if o.Poner? { AvisadoLee(q); }
    if c.cola == [] {
      assert q == Envia(o);
      if o.Poner? { AvisadoPropio(o.avisos, o.libres); }
    }
  }

  /** Over every run: no operation waits for ever; the queue ends up empty exactly when every STORE
      found its key; and then the field is the last report. */
  lemma {:induction false} SiempreResponde(r: Reparto, os: seq<Orden>)
    ensures Tras(r, os).Some? && Finales(Tras(r, os).value.cola) >= Ausentes(os)
    ensures Tras(r, os).value.cola == [] <==> Ausentes(os) == 0
    ensures Ausentes(os) == 0 && r.LSU? ==> Tras(r, os).value.libre == UltimoInforme(os)
  {
    if |os| > 0 {
      var o := os[|os| - 1];
      SiempreResponde(r, os[..|os| - 1]);
      AtenderSigue(r, Tras(r, os[..|os| - 1]).value, o);
    }
  }

  /** The field after the run `os` and one more SET. */
  function LibreTras(os: seq<Orden>, n: nat, l: int): int {
    SiempreResponde(LSU, os + [Poner(n, l)]);
    Tras(LSU, os + [Poner(n, l)]).value.libre
  }

  /** What the answer that waits first says. */
  function Pendiente(os: seq<Orden>): int
    requires Ausentes(os) > 0
  {
    SiempreResponde(LSU, os);
    AvisadoLee(Tras(LSU, os).value.cola);
    Avisado(Tras(LSU, os).value.cola).value.0.len
  }

  /** Under LSU the next SET leaves its own report in the field exactly when no STORE of an absent
      key has reached the instance; after one, whatever the SET reports, the field takes what
      waits from an earlier operation. */
  lemma InformeExacto(os: seq<Orden>)
    ensures (forall n, l :: LibreTras(os, n, l) == l) <==> Ausentes(os) == 0
    ensures Ausentes(os) > 0 ==> forall n, l :: LibreTras(os, n, l) == Pendiente(os)
  {
    SiempreResponde(LSU, os);
    var c := Tras(LSU, os).value;
    forall n: nat, l: int
      ensures Ausentes(os) == 0 ==> LibreTras(os, n, l) == l
      ensures Ausentes(os) > 0 ==> LibreTras(os, n, l) == Pendiente(os)
    {
      var ps := os + [Poner(n, l)];
      assert ps[..|ps| - 1] == os;
      AtenderSigue(LSU, c, Poner(n, l));
      if Ausentes(os) > 0 { AvisadoPrimero(c.cola, Envia(Poner(n, l))); }
    }
    if Ausentes(os) > 0 {
      assert LibreTras(os, 0, Pendiente(os) + 1) == Pendiente(os);
    }
  }

  /** No SET of the run asks for a compaction on the way; under LRU none does. */
  predicate SinAvisos(os: seq<Orden>) { forall o | o in os && o.Poner? :: o.avisos == 0 }

  lemma AtrasoPaso(c: Canal, es: seq<Cabecera>, n: nat, o: Orden)
    requires n <= |es| && c.cola == es[n..] && forall h | h in es :: h.id != COMPACTANDO
    requires o.Poner? ==> o.avisos == 0
    ensures var fs := es + Envia(o);
            && |fs| == |es| + (if o == Almacenar(false) then 2 else 1) && (forall h | h in fs :: h.id != COMPACTANDO)
            && Atender(LSU, c, o) == Some(Canal(fs[n + 1..], if o.Poner? then fs[n].len else c.libre))
  {
    var q, fs := c.cola + Envia(o), es + Envia(o);
    assert q == fs[n..];
    assert q[0] == fs[n] && q[0] in fs;
    assert q[1..] == fs[n + 1..];
  }

  /** Then the field lags by just as many answers as STOREs of absent keys: what is read is always
      the header sent that many before the last. */
  lemma {:induction false} AtrasoExacto(os: seq<Orden>)
    requires SinAvisos(os)
    ensures |Emitidas(os)| == |os| + Ausentes(os)
    ensures Tras(LSU, os).Some? && Tras(LSU, os).value.cola == Emitidas(os)[|os|..]
    ensures os != [] && os[|os| - 1].Poner? ==> Tras(LSU, os).value.libre == Emitidas(os)[|os| - 1].len
    ensures forall h | h in Emitidas(os) :: h.id != COMPACTANDO
  {
    if |os| > 0 {
      var ps, o := os[..|os| - 1], os[|os| - 1];
      assert o in os && forall x | x in ps :: x in os;
      AtrasoExacto(ps);
      AtrasoPaso(Tras(LSU, ps).value, Emitidas(ps), |ps|, o);
    }
  }

  lemma TrasMas(os: seq<Orden>, o: Orden)
    requires Tras(LSU, os).Some?
    ensures Tras(LSU, os + [o]) == Atender(LSU, Tras(LSU, os).value, o)
  {
    assert (os + [o])[..|os|] == os;
  }

  /** A SET that finds one answer waiting. */
  lemma PonerTarde(c: Canal, l: int)
    requires |c.cola| == 1 && c.cola[0].id == LISTO
    ensures Atender(LSU, c, Poner(0, l)) == Some(Canal([Cabecera(LISTO, l)], c.cola[0].len))
  {
    assert c.cola + Envia(Poner(0, l)) == [c.cola[0], Cabecera(LISTO, l)];
  }

  /** The first STORE of an absent key: the SET behind it leaves 0 in the field, and its own report
      waits. */
  lemma TrasAusente(os: seq<Orden>, l: int)
    requires Ausentes(os) == 0
    ensures var ps := os + [Almacenar(false)];
            Tras(LSU, ps + [Poner(0, l)]) == Some(Canal([Cabecera(LISTO, l)], 0))
  {
    var ps := os + [Almacenar(false)];
    SiempreResponde(LSU, os);
    var c := Tras(LSU, os).value;
    TrasMas(os, Almacenar(false));
    assert (c.cola + Envia(Almacenar(false)))[1..] == [Cabecera(LISTO, 0)];
    assert Tras(LSU, ps) == Some(Canal([Cabecera(LISTO, 0)], c.libre));
    TrasMas(ps, Poner(0, l));
    PonerTarde(Canal([Cabecera(LISTO, 0)], c.libre), l);
  }

  /** A STORE of an evicted key between two SETs: the second SET reports 3 free slots and the field
      says 0; the third reports 2 and the field says 3. */
  lemma Atrasada()
    ensures var os := [Poner(0, 5)] + [Almacenar(false)] + [Poner(0, 3)];
            && Tras(LSU, [Poner(0, 5)]) == Some(Canal([], 5))
            && Tras(LSU, os) == Some(Canal([Cabecera(LISTO, 3)], 0))
            && Tras(LSU, os + [Poner(0, 2)]) == Some(Canal([Cabecera(LISTO, 2)], 3))
  {
    SiempreResponde(LSU, [Poner(0, 5)]);
    TrasAusente([Poner(0, 5)], 3);
    TrasMas([Poner(0, 5)] + [Almacenar(false)] + [Poner(0, 3)], Poner(0, 2));
    PonerTarde(Canal([Cabecera(LISTO, 3)], 0), 2);
  }

  /** So choose_by_space passes over the instance with the most free slots. */
  lemma PeorElegida(b: Nodo)
    requires b.activa && b.libre == 1
    ensures var os := [Poner(0, 5)] + [Almacenar(false)] + [Poner(0, 3)];
            && UltimoInforme(os) == 3 && Tras(LSU, os).Some?
            && var a := Nodo("a", true, Tras(LSU, os).value.libre, 0, 0, {});
               ChooseBySpace([a, b], 0, false).Some? && ChooseBySpace([a, b], 0, false).value.0 == 1
  {
    Atrasada();
  }
}
