/** HRRN: every estimate stays positive and within what an ESI can have run, over the reals. */
module Estimacion {
  import opened Planificacion
  import opened Exclusion
  import opened SinPerdida
  import opened Despacho

  /** The larger of the initial estimate and the instructions run. */
  function Techo(inicial: int, d: Datos): int {
    if inicial >= d.instrucciones then inicial else d.instrucciones
  }

  ghost predicate Justa(inicial: int, d: Datos) {
    && 1.0 <= d.estimada <= Techo(inicial, d) as real
    && 1.0 <= d.previa <= Techo(inicial, d) as real
    && d.espera >= 0.0
  }

  /** Truncation keeps a value between two integers. */
  lemma TruncarEntre(x: real, lo: int, hi: int)
    requires lo as real <= x <= hi as real && 0 <= lo
    ensures lo <= Truncar(x) <= hi
  {}

  /** It drops the fraction, towards zero. */
  lemma TruncarHaciaCero(x: real)
    ensures x >= 0.0 ==> Truncar(x) as real <= x < Truncar(x) as real + 1.0
    ensures x <= 0.0 ==> Truncar(x) as real - 1.0 < x <= Truncar(x) as real
  {}

  lemma NoNegativo(a: real, d: real)
    requires 0.0 <= a && 0.0 <= d
    ensures 0.0 <= a * d
  {}

  lemma Reparte(a: real, b: real, d: real)
    requires a + b == 1.0
    ensures a * d + b * d == d
  {}

  lemma Partes(p: real, q: real, d: real)
    requires 0.0 <= p && 0.0 <= q && p + q == d
    ensures 0.0 <= p <= d
  {}

  lemma Opuesto(a: real, d: real)
    ensures a * d == -(a * (-d))
  {}

  /** A fraction of a distance. */
  lemma Pondera(a: real, d: real) returns (p: real)
    requires 0.0 <= a <= 1.0 && d >= 0.0
    ensures p == a * d && 0.0 <= p <= d
  {
    var b := 1.0 - a;
    p := a * d;
    NoNegativo(a, d);
    NoNegativo(b, d);
    Reparte(a, b, d);
    Partes(p, b * d, d);
  }

  lemma PonderaMenos(a: real, d: real) returns (p: real)
    requires 0.0 <= a <= 1.0 && d <= 0.0
    ensures p == a * d && d <= p <= 0.0
  {
    var o := Pondera(a, -d);
    p := -o;
    Opuesto(a, d);
  }

  lemma Interpola(a: real, x: real, y: real, d: real)
    requires d == x - y
    ensures a * x + (1.0 - a) * y == y + a * d
  {}

  lemma Convexa(a: real, d: real, y: real, lo: real, hi: real)
    requires 0.0 <= a <= 1.0 && lo <= y <= hi && lo <= y + d <= hi
    ensures lo <= y + a * d <= hi
  {
    if d >= 0.0 { var p := Pondera(a, d); } else { var p := PonderaMenos(a, d); }
  }

  lemma EstimarJusta(inicial: int, alfa: int, d: Datos)
    requires 0 <= alfa <= 100 && Justa(inicial, d) && d.instrucciones >= 1
    ensures Justa(inicial, Estimar(d, alfa))
  {
    var h := Techo(inicial, d);
    TruncarEntre(d.previa, 1, h);
    var a := alfa as real / 100.0;
    var x, y := d.instrucciones as real, Truncar(d.previa) as real;
    Convexa(a, x - y, y, 1.0, h as real);
    Interpola(a, x, y, x - y);
  }

  lemma FueraPorArriba(a: real, n: real)
    requires a > 1.0 && n > 1.0
    ensures a * n + (1.0 - a) * 1.0 > n
  {
    var x, y := a - 1.0, n - 1.0;
    assert x * y > 0.0;
    assert a * n + (1.0 - a) * 1.0 == n + x * y;
  }

  lemma EstimarDesdeUno(n: nat, alfa: int)
    ensures Estimar(Datos(n, 1.0, 1.0, 0.0), alfa).estimada
            == (alfa as real / 100.0) * n as real + (1.0 - alfa as real / 100.0) * 1.0
  {
    assert Truncar(1.0) == 1;
  }

  /** An alpha outside 0..100 has an ESI that calculate_estimation takes out of the bounds. */
  lemma AlfaFuera(inicial: int, alfa: int) returns (d: Datos)
    requires inicial >= 1 && !(0 <= alfa <= 100)
    ensures Justa(inicial, d) && d.instrucciones >= 1 && !Justa(inicial, Estimar(d, alfa))
  {
    var n := if alfa > 100 then inicial + 1 else 201;
    d := Datos(n, 1.0, 1.0, 0.0);
    EstimarDesdeUno(n, alfa);
    if alfa > 100 {
      FueraPorArriba(alfa as real / 100.0, n as real);
    }
  }

  /** calculate_estimation keeps the bounds of every ESI that has run exactly for alpha in 0..100. */
  lemma CotaSiiAlfa(inicial: int, alfa: int)
    requires inicial >= 1
    ensures (forall d | Justa(inicial, d) && d.instrucciones >= 1 :: Justa(inicial, Estimar(d, alfa)))
            <==> 0 <= alfa <= 100
  {
    if 0 <= alfa <= 100 {
      forall d | Justa(inicial, d) && d.instrucciones >= 1 ensures Justa(inicial, Estimar(d, alfa)) {
        EstimarJusta(inicial, alfa, d);
      }
    } else {
      var d := AlfaFuera(inicial, alfa);
    }
  }

  lemma RazonDe(w: real, e: real, r: real)
    requires w >= 0.0 && e > 0.0 && r == (w + e) / e
    ensures r >= 1.0 && (r == 1.0 <==> w == 0.0)
  {
    var z := r - 1.0;
    assert r * e == w + e;
    assert z * e == w;
    if z < 0.0 { Negativo(z, e); }
    if z > 0.0 { Negativo(-z, e); }
  }

  lemma Negativo(z: real, e: real)
    requires z < 0.0 && e > 0.0
    ensures z * e < 0.0
  {}

  lemma Distribuye(b: real, x: real, y: real)
    ensures b * x - b * y == b * (x - y)
  {}

  lemma ProductoNulo(b: real, d: real)
    ensures b * d == 0.0 <==> b == 0.0 || d == 0.0
  {}

  /** The exponential average should weigh the instructions run against the last estimate;
      calculate_estimation weighs them against the one before it, and truncates that. It comes
      to the same exactly when alpha is 100 or the older estimate, truncated, is the last one. */
  lemma EstimarAcierta(d: Datos, alfa: int)
    ensures var a := alfa as real / 100.0;
            Estimar(d, alfa).estimada == a * d.instrucciones as real + (1.0 - a) * d.estimada
            <==> alfa == 100 || Truncar(d.previa) as real == d.estimada
  {
    var a, t := alfa as real / 100.0, Truncar(d.previa) as real;
    Distribuye(1.0 - a, t, d.estimada);
    ProductoNulo(1.0 - a, t - d.estimada);
  }

  /** With alpha 50 and an initial estimate of 10, an ESI that has run one instruction when it is
      first woken is expected to need 5.5, as it should; at the next wake-up, with a second
      instruction run, it is expected to need 6 and not 3.75. */
  lemma EstimarFalla()
    ensures var d := Datos(1, 10.0, 10.0, 0.0);
            var e := Estimar(d, 50);
            && e.estimada == 5.5 == 0.5 * 1.0 + 0.5 * d.estimada
            && Estimar(e.(instrucciones := 2), 50).estimada == 6.0
            && 0.5 * 2.0 + 0.5 * e.estimada == 3.75
  {
    assert Truncar(10.0) == 10;
  }

  /** response_ratio is defined, and at least 1, on a bounded ESI. */
  lemma RazonDefinida(inicial: int, d: Datos)
    requires Justa(inicial, d)
    ensures d.estimada > 0.0 && ResponseRatio(d) >= 1.0
    ensures ResponseRatio(d) * d.estimada == d.espera + d.estimada
    ensures ResponseRatio(d) == 1.0 <==> d.espera == 0.0
  {
    RazonDe(d.espera, d.estimada, ResponseRatio(d));
  }

  /** What one ratio times both estimates comes to, and so the difference of two. */
  lemma RazonPor(w: real, e: real, f: real)
    requires e > 0.0
    ensures (w + e) / e * (e * f) == w * f + e * f
  {
    var r := (w + e) / e;
    assert r * e == w + e;
    assert r * (e * f) == r * e * f == (w + e) * f;
  }

  lemma Compara(a: real, b: real, p: real, x: real, y: real)
    requires p > 0.0 && a * p == x && b * p == y
    ensures a >= b <==> x >= y
  {
    var d := a - b;
    assert d * p == x - y;
    if d < 0.0 { Negativo(d, p); }
  }

  /** The comparison of two response ratios without dividing: the longer wait for its estimate. */
  lemma RazonCompara(p: Datos, q: Datos)
    requires p.estimada > 0.0 && q.estimada > 0.0
    ensures ResponseRatio(p) >= ResponseRatio(q) <==> p.espera * q.estimada >= q.espera * p.estimada
  {
    var e, f := p.estimada, q.estimada;
    RazonPor(p.espera, e, f);
    RazonPor(q.espera, f, e);
    assert e * f == f * e > 0.0;
    Compara(ResponseRatio(p), ResponseRatio(q), e * f, p.espera * f + e * f, q.espera * e + e * f);
  }

  // ---- the invariant ----

  predicate Regular(c: Config) { c.algoritmo.HRRN? && 0 <= c.alfa <= 100 && c.inicial >= 1 }

  /** In the queue of `k` every ESI has run an instruction, except perhaps `x`. */
  ghost predicate ColaEstimada(s: Estado, k: string, x: Quien)
    requires k in s.colas
  {
    forall q | q in s.colas[k] && q != Consola :: q in s.datos && (q == x || s.datos[q].instrucciones >= 1)
  }

  ghost predicate Estimada(c: Config, s: Estado, x: Quien) {
    && (forall q | q in s.datos :: Justa(c.inicial, s.datos[q]) && q.Esi? && q.id <= s.numEsi)
    && (forall q | q in s.ready :: q in s.datos)
    && (!s.fase.Arranque? ==> s.unEsi in s.datos)
    && (forall k | k in s.colas :: ColaEstimada(s, k, x))
  }

  lemma EstimadaEnmarcada(c: Config, s: Estado, t: Estado, x: Quien)
    requires Estimada(c, s, x) && t.datos == s.datos && t.colas == s.colas && t.numEsi == s.numEsi
    requires forall q | q in t.ready :: q in s.ready
    requires (t.unEsi == s.unEsi && (t.fase.Arranque? || !s.fase.Arranque?)) || t.unEsi in s.ready
    ensures Estimada(c, t, x)
  {
    forall k | k in t.colas ensures ColaEstimada(t, k, x) { assert ColaEstimada(s, k, x); }
  }

  lemma ListarEstimada(c: Config, s: Estado, k: string)
    requires Regular(c) && Estimada(c, s, Consola)
    requires k in s.colas && s.colas[k] != [] && s.colas[k][0] != Consola
    ensures Estimada(c, Listar(c, Pop(s, k), s.colas[k][0]), Consola)
  {
    var q := s.colas[k][0];
    var t := Listar(c, Pop(s, k), q);
    assert ColaEstimada(s, k, Consola) && q in s.colas[k];
    EstimarJusta(c.inicial, c.alfa, s.datos[q]);
    forall x | x in t.colas
      ensures ColaEstimada(t, x, Consola)
    {
      assert ColaEstimada(s, x, Consola);
      assert forall y | y in t.colas[x] :: y in s.colas[x];
    }
  }

  lemma AvisarEstimada(c: Config, s: Estado, k: string)
    requires Regular(c) && Estimada(c, s, Consola)
    requires k in s.colas && s.colas[k] != [] && s.colas[k][0] != Consola
    ensures Estimada(c, Avisar(c, Pop(s, k), s.colas[k][0]), Consola)
  {
    ListarEstimada(c, s, k);
    EstimadaEnmarcada(c, Listar(c, Pop(s, k), s.colas[k][0]), Avisar(c, Pop(s, k), s.colas[k][0]), Consola);
  }

  lemma UnlockKeyEstimada(c: Config, s: Estado, k: string)
    requires Regular(c) && Sana(s) && Estimada(c, s, Consola)
    ensures Estimada(c, UnlockKey(c, s, k), Consola)
  {
    if EsDuenio(s, k) {
      var r := s.(reservas := Sacar(s.reservas, Exacta(s.unEsi, k)));
      SoltarSana(s, Primera(s.reservas, Exacta(s.unEsi, k)));
      EstimadaEnmarcada(c, s, r, Consola);
      if r.colas[k] != [] {
        var a := Avisar(c, Pop(r, k), r.colas[k][0]);
        AvisarEstimada(c, r, k);
        forall q | q in Ordenar(c, a, a.ready) ensures q in a.ready { OrdenarMiembros(c, a, a.ready, q); }
        EstimadaEnmarcada(c, a, Ordenado(c, a), Consola);
      }
    }
  }

  lemma {:induction false} ReleaseKeysEstimada(c: Config, s: Estado, e: Quien)
    requires Regular(c) && Sana(s) && Estimada(c, s, Consola)
    ensures Estimada(c, ReleaseKeys(c, s, e), Consola)
    decreases |s.reservas|
  {
    var i := Primera(s.reservas, DeEsi(e));
    if i != -1 {
      var t, k := s.(reservas := Quitar(s.reservas, i)), s.reservas[i].clave;
      SoltarSana(s, i);
      UnlockEsiSana(c, t, k);
      EstimadaEnmarcada(c, s, t, Consola);
      if t.colas[k] != [] {
        ListarEstimada(c, t, k);
        EstimadaEnmarcada(c, Listar(c, Pop(t, k), t.colas[k][0]), UnlockEsi(c, t, k), Consola);
      }
      ReleaseKeysEstimada(c, UnlockEsi(c, t, k), e);
    }
  }

  lemma FinishEsiEstimada(c: Config, s: Estado)
    requires Regular(c) && Sana(s) && !s.fase.Arranque? && Estimada(c, s, Consola)
    ensures Estimada(c, FinishEsi(c, s), Consola)
  {
    if !s.block {
      var f := s.(finalizados := s.finalizados + [s.unEsi]);
      SanaEnmarcada(s, f);
      EstimadaEnmarcada(c, s, f, Consola);
      if !f.abortar {
        ReleaseKeysEstimada(c, f, f.unEsi);
        ReleaseKeysFase(c, f, f.unEsi);
      }
      EstimadaEnmarcada(c, if f.abortar then f else ReleaseKeys(c, f, f.unEsi), FinishEsi(c, s), Consola);
    }
  }

  /** A blocked ESI goes to the queue before its instruction is counted. */
  lemma CheckKeyColaEstimada(c: Config, s: Estado, k: string, x: string)
    requires Estimada(c, s, Consola) && !s.fase.Arranque? && x in CheckKey(s, k).colas
    ensures ColaEstimada(CheckKey(s, k), x, s.unEsi)
  {
    assert x in s.colas ==> ColaEstimada(s, x, Consola);
  }

  lemma CheckKeyEstimada(c: Config, s: Estado, k: string)
    requires Estimada(c, s, Consola) && !s.fase.Arranque?
    ensures Estimada(c, CheckKey(s, k), s.unEsi)
  {
    forall x | x in CheckKey(s, k).colas
      ensures ColaEstimada(CheckKey(s, k), x, s.unEsi)
    {
      CheckKeyColaEstimada(c, s, k, x);
    }
  }

  lemma WaitQuestionEstimada(c: Config, s: Estado, p: Pregunta)
    requires Regular(c) && Sana(s) && s.fase.Corriendo? && Estimada(c, s, Consola)
    ensures Estimada(c, WaitQuestion(c, s, p), WaitQuestion(c, s, p).unEsi)
  {
    var w := WaitQuestion(c, s, p);
    match p {
      case Chequear(k) => CheckKeyEstimada(c, s, k);
      case Guardar(k) =>
        UnlockKeyEstimada(c, s, k);
        Relaja(c, w);
      case Poner(_) => Relaja(c, w);
      case Abortar =>
        EstimadaEnmarcada(c, s, w, Consola);
        Relaja(c, w);
    }
  }

  lemma Relaja(c: Config, s: Estado)
    requires Estimada(c, s, Consola)
    ensures Estimada(c, s, s.unEsi)
  {
    forall k | k in s.colas ensures ColaEstimada(s, k, s.unEsi) { assert ColaEstimada(s, k, Consola); }
  }

  /** update_values counts the instruction and makes the ready ones older. */
  lemma UpdateValuesEstimada(c: Config, s: Estado)
    requires Regular(c) && !s.fase.Arranque? && Estimada(c, s, s.unEsi)
    ensures Estimada(c, UpdateValues(c, s), Consola)
  {
    var t := UpdateValues(c, s);
    forall k | k in t.colas ensures ColaEstimada(t, k, Consola) { assert ColaEstimada(s, k, s.unEsi); }
  }

  lemma InstruccionEstimada(c: Config, s: Estado, p: Pregunta, r: Respuesta)
    requires Regular(c) && Sana(s) && s.fase.Corriendo? && Estimada(c, s, Consola)
    ensures Estimada(c, Instruccion(c, s, p, r), Consola)
  {
    var e := Estrenar(s, WaitQuestion(c, s, p));
    WaitQuestionSana(c, s, p);
    WaitQuestionEstimada(c, s, p);
    CuentaEstimada(c, s, WaitQuestion(c, s, p), r);
    PreguntadoSana(c, s, p);
    UpdateValuesSana(c, e, r);
    CerrarEstimada(c, UpdateValues(c, Reportar(e, r)), r.Bloqueo?);
  }

  lemma CuentaEstimada(c: Config, s: Estado, w: Estado, r: Respuesta)
    requires Regular(c) && !w.fase.Arranque? && Estimada(c, w, w.unEsi)
    ensures Estimada(c, UpdateValues(c, Reportar(Estrenar(s, w), r)), Consola)
  {
    var e := Estrenar(s, w);
    EstimadaEnmarcada(c, w, e, w.unEsi);
    EstimadaEnmarcada(c, e, Reportar(e, r), w.unEsi);
    UpdateValuesEstimada(c, Reportar(e, r));
  }

  lemma CerrarEstimada(c: Config, s: Estado, bloqueado: bool)
    requires Regular(c) && Sana(s) && !s.fase.Arranque? && Estimada(c, s, Consola)
    ensures Estimada(c, Cerrar(c, s, bloqueado), Consola)
  {
    var v := if !bloqueado then s else if s.abortar then FinishEsi(c, s) else s.(fin := true);
    if bloqueado && s.abortar { FinishEsiEstimada(c, s); FinishEsiSana(c, s); }
    else { EstimadaEnmarcada(c, s, v, Consola); SanaEnmarcada(s, v); }
    if v.fin {
      FinishEsiEstimada(c, v);
      FinishEsiSana(c, v);
      EstimadaEnmarcada(c, FinishEsi(c, v), FinishEsi(c, v).(fase := Esperando), Consola);
    }
  }

  lemma LiberadaEstimada(c: Config, s: Estado, k: string)
    requires Estimada(c, s, Consola) && k in s.colas
    ensures Estimada(c, Liberada(s, k), Consola)
  {
    var a := Liberada(s, k);
    forall x | x in a.colas
      ensures ColaEstimada(a, x, Consola)
    {
      assert ColaEstimada(s, x, Consola);
      assert forall y | y in a.colas[x] :: y in s.colas[x];
    }
  }

  lemma ConsolaEstimada(c: Config, s: Estado, k: string)
    requires Regular(c) && Sana(s) && Estimada(c, s, Consola)
    ensures Estimada(c, UnlockKeyByConsole(c, s, k), Consola)
  {
    if k in s.colas {
      ConsolaEs(c, s, k);
      LiberadaEstimada(c, s, k);
      if Despierta(s, k) { AvisarEstimada(c, Liberada(s, k), k); }
    }
  }

  lemma NuevoEstimado(c: Config, s: Estado)
    requires Regular(c) && Estimada(c, s, Consola)
    ensures Estimada(c, NuevoEsi(c, s), Consola)
  {
    forall k | k in s.colas ensures ColaEstimada(NuevoEsi(c, s), k, Consola) { assert ColaEstimada(s, k, Consola); }
  }

  lemma DespacharEstimado(c: Config, s: Estado)
    requires Estimada(c, s, Consola) && s.ready != []
    ensures Estimada(c, Despachar(c, s), Consola)
  {
    var l := if s.fase.Arranque? then s.ready else Ordenar(c, s, s.ready);
    forall q | q in l ensures q in s.ready { OrdenarMiembros(c, s, s.ready, q); }
    EstimadaEnmarcada(c, s, Despachar(c, s), Consola);
  }

  lemma PasoEstimado(c: Config, s: Estado, ev: Evento)
    requires Regular(c) && Sana(s) && Estimada(c, s, Consola) && Habilitado(s, ev)
    ensures Estimada(c, Paso(c, s, ev), Consola)
  {
    match ev
    case Llega => NuevoEstimado(c, s);
    case Despacha => DespacharEstimado(c, s);
    case Instruye(p, r) => InstruccionEstimada(c, s, p, r);
    case Desbloquea(k) => ConsolaEstimada(c, s, k);
  }

  /** In every run under HRRN the estimates of all ESIs lie between 1 and the larger of the
      initial estimate and the instructions run, so no comparison of the sort divides by zero. */
  lemma {:induction false} EstimadaSiempre(c: Config, s: Estado, evs: seq<Evento>)
    requires Regular(c) && Sana(s) && Estimada(c, s, Consola) && Corrida(c, s, evs)
    ensures Estimada(c, Final(c, s, evs), Consola)
    ensures forall q | q in Final(c, s, evs).ready :: ResponseRatio(Dato(Final(c, s, evs), q)) >= 1.0
    decreases |evs|
  {
    if evs != [] {
      PasoSano(c, s, evs[0]);
      PasoEstimado(c, s, evs[0]);
      EstimadaSiempre(c, Paso(c, s, evs[0]), evs[1..]);
    } else {
      forall q | q in s.ready ensures ResponseRatio(Dato(s, q)) >= 1.0 { RazonDefinida(c.inicial, s.datos[q]); }
    }
  }

  /** From the start of the Planificador, under HRRN with alpha in 0..100 and an initial
      estimate of at least 1: whatever happens, an ESI of the ready list has an estimate in
      1..max(initial, instructions run) and a response ratio of at least 1. */
  lemma RazonSiempre(c: Config, bloqueadas: set<string>, evs: seq<Evento>, q: Quien)
    requires Regular(c) && Corrida(c, Inicial(bloqueadas), evs)
    requires q in Final(c, Inicial(bloqueadas), evs).ready
    ensures var d := Dato(Final(c, Inicial(bloqueadas), evs), q);
            1.0 <= d.estimada <= Techo(c.inicial, d) as real && ResponseRatio(d) >= 1.0
  {
    InicialPartido(bloqueadas);
    InicialEstimado(c, bloqueadas);
    EstimadaSiempre(c, Inicial(bloqueadas), evs);
  }

  lemma InicialEstimado(c: Config, bloqueadas: set<string>)
    ensures Estimada(c, Inicial(bloqueadas), Consola)
  {
    var s := Inicial(bloqueadas);
    forall k | k in s.colas ensures ColaEstimada(s, k, Consola) {}
  }

  // ---- which ESI HRRN takes ----

  /** `p` has waited at least as long as `q` for what it is expected to need: the comparison of the
      response ratios with the divisions cleared. */
  predicate EsperaMas(p: Datos, q: Datos) { p.espera * q.estimada >= q.espera * p.estimada }

  ghost predicate Positivas(s: Estado, l: seq<Quien>) { forall q | q in l :: Dato(s, q).estimada > 0.0 }

  /** The list stands in that order. */
  ghost predicate PorEspera(s: Estado, l: seq<Quien>) {
    forall i, j | 0 <= i < j < |l| :: EsperaMas(Dato(s, l[i]), Dato(s, l[j]))
  }

  lemma AscendenteEspera(c: Config, s: Estado, l: seq<Quien>)
    requires c.algoritmo.HRRN? && Ascendente(c, s, l) && Positivas(s, l)
    ensures PorEspera(s, l)
  {
    forall i, j | 0 <= i < j < |l| ensures EsperaMas(Dato(s, l[i]), Dato(s, l[j])) {
      assert Antes(c, Dato(s, l[i]), Dato(s, l[j]));
      RazonCompara(Dato(s, l[i]), Dato(s, l[j]));
    }
  }

  lemma OrdenadaPorEspera(c: Config, s: Estado) returns (l: seq<Quien>)
    requires c.algoritmo.HRRN? && Positivas(s, s.ready)
    ensures l == Ordenar(c, s, s.ready) && |l| == |s.ready| && PorEspera(s, l) && forall q :: q in l <==> q in s.ready
  {
    l := Ordenar(c, s, s.ready);
    OrdenarLargo(c, s, s.ready);
    OrdenarAscendente(c, s, s.ready);
    forall q ensures q in l <==> q in s.ready { OrdenarMiembros(c, s, s.ready, q); }
    AscendenteEspera(c, s, l);
  }

  lemma PrimeroEspera(s: Estado, l: seq<Quien>, q: Quien)
    requires PorEspera(s, l) && q in l
    ensures EsperaMas(Dato(s, l[0]), Dato(s, q))
  {
    var j :| 0 <= j < |l| && l[j] == q;
  }

  lemma DespachoEspera(c: Config, s: Estado)
    requires c.algoritmo.HRRN? && s.fase.Esperando? && s.ready != [] && Positivas(s, s.ready)
    ensures var t := Despachar(c, s);
            && (forall q | q in s.ready :: EsperaMas(Dato(s, t.unEsi), Dato(s, q)))
            && PorEspera(s, t.ready)
  {
    var l := OrdenadaPorEspera(c, s);
    forall q | q in s.ready ensures EsperaMas(Dato(s, l[0]), Dato(s, q)) { PrimeroEspera(s, l, q); }
  }

  /** In every state that a run under HRRN reaches, a dispatch takes an ESI that no ready one has
      waited longer than for what it needs, and leaves the others in that order. */
  lemma DespachoHRRN(c: Config, bloqueadas: set<string>, evs: seq<Evento>)
    requires Regular(c) && Corrida(c, Inicial(bloqueadas), evs)
    ensures var s := Final(c, Inicial(bloqueadas), evs);
            s.fase.Esperando? && s.hayEsis > 0 ==>
              && s.ready != []
              && var t := Despachar(c, s);
                 && (forall q | q in s.ready :: EsperaMas(Dato(s, t.unEsi), Dato(s, q)))
                 && PorEspera(s, t.ready)
  {
    var s := Final(c, Inicial(bloqueadas), evs);
    InicialPartido(bloqueadas);
    InicialEstimado(c, bloqueadas);
    EstimadaSiempre(c, Inicial(bloqueadas), evs);
    ContadoSiempre(c, Inicial(bloqueadas), evs);
    assert Positivas(s, s.ready);
    if s.fase.Esperando? && s.hayEsis > 0 { DespachoEspera(c, s); }
  }
}
