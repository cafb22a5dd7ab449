/** A run of the whole system that ends in a theft: an ESI loses a key that it never let go. */
module Robada {
  import opened Opciones
  import opened Planificacion
  import opened Coordinacion
  import opened Sistema

  const C := Config(SJFCD, 100, 10)
  const E1 := Esi(1)
  const E2 := Esi(2)
  const D0 := Datos(0, 10.0, 10.0, 0.0)

  /** The run that `actos` make, through the states `ns`. */
  ghost predicate Camino(ns: seq<Red>, actos: seq<Acto>) {
    |ns| == |actos| + 1 && forall i | 0 <= i < |actos| :: Va(ns, actos, i)
  }

  ghost predicate Va(ns: seq<Red>, actos: seq<Acto>, i: nat)
    requires i < |actos| && |ns| == |actos| + 1
  {
    Posible(C, ns[i], actos[i]) && Actuar(C, ns[i], actos[i]) == ns[i + 1]
  }

  lemma UnPaso(n: Red, a: Acto, m: Red)
    requires Posible(C, n, a) && Actuar(C, n, a) == m
    ensures Camino([n, m], [a])
  {}

  lemma CaminoMas(ns: seq<Red>, xs: seq<Acto>, ms: seq<Red>, ys: seq<Acto>)
    requires Camino(ns, xs) && Camino(ms, ys) && ns[|xs|] == ms[0]
    ensures Camino(ns + ms[1..], xs + ys)
  {
    var fs, zs := ns + ms[1..], xs + ys;
    forall i | 0 <= i < |zs| ensures Va(fs, zs, i) {
      if i < |xs| {
        assert Va(ns, xs, i);
      } else {
        assert Va(ms, ys, i - |xs|);
        assert fs[i] == ms[i - |xs|];
      }
    }
  }

  lemma TresPasos(n: seq<Red>, a: Acto, b: Acto, d: Acto)
    requires |n| == 4 && Camino([n[0], n[1]], [a]) && Camino([n[1], n[2]], [b]) && Camino([n[2], n[3]], [d])
    ensures Camino(n, [a, b, d])
  {
    CaminoMas([n[0], n[1]], [a], [n[1], n[2]], [b]);
    CaminoMas([n[0], n[1]] + [n[1], n[2]][1..], [a] + [b], [n[2], n[3]], [d]);
    assert n == [n[0], n[1]] + [n[1], n[2]][1..] + [n[2], n[3]][1..];
    assert [a, b, d] == [a] + [b] + [d];
  }

  lemma {:induction false} CaminoEsHistoria(ns: seq<Red>, actos: seq<Acto>)
    requires Camino(ns, actos)
    ensures Historia(C, ns[0], actos) && Tras(C, ns[0], actos) == ns[|actos|]
    decreases |actos|
  {
    if actos != [] {
      assert Va(ns, actos, 0);
      forall i | 0 <= i < |actos| - 1 ensures Va(ns[1..], actos[1..], i) { assert Va(ns, actos, i + 1); }
      CaminoEsHistoria(ns[1..], actos[1..]);
    }
  }

  // ---- one step, from any state ----

  /** What an instruction leaves in the data of the ESI that runs it, under SJF. */
  function Corrido(s: Estado): map<Quien, Datos> {
    var d := Dato(s, s.unEsi);
    s.datos[s.unEsi := d.(instrucciones := d.instrucciones + 1, estimada := d.estimada - 1.0)]
  }

  lemma PideLibre(s: Estado, k: string)
    requires s.fase.Corriendo? && !s.fin && k !in s.colas
    ensures Instruccion(C, s, Chequear(k), Ok)
         == s.(block := false, colas := s.colas[k := []], reservas := s.reservas + [Reserva(s.unEsi, k)],
               datos := Corrido(s), recien := false)
  {
    assert Concede(s, k);
  }

  lemma PideTomada(s: Estado, k: string)
    requires s.fase.Corriendo? && !s.fin && !s.abortar && !Concede(s, k)
    ensures Instruccion(C, s, Chequear(k), Bloqueo)
         == s.(block := true, colas := s.colas[k := s.colas[k] + [s.unEsi]], datos := Corrido(s),
               recien := false, fin := true, fase := Esperando)
  {
    var u := UpdateValues(C, Reportar(Preguntado(C, s, Chequear(k)), Bloqueo));
    assert u == s.(block := true, colas := s.colas[k := s.colas[k] + [s.unEsi]], datos := Corrido(s), recien := false);
  }

  lemma EligeUnico(s: Estado, q: Quien)
    requires s.fase.Esperando? && s.ready == [q]
    ensures Despachar(C, s)
         == s.(hayEsis := s.hayEsis - 1, unEsi := q, ready := [], fase := Corriendo, fin := false, recien := true)
  {
    assert [q][1..] == [];
    assert Ordenar(C, s, [q]) == Insertar(C, s, q, []);
  }

  /** The one instance, with the keys it holds. */
  function Nodos(claves: set<string>): seq<Nodo> { [Nodo("i", true, 999, 0, 0, claves)] }

  function Coordinador(claves: set<string>, dicc: map<Quien, set<string>>): Coord {
    Coord(EL, Nodos(claves), 0, dicc)
  }

  lemma AsignaUnica(claves: set<string>, dicc: map<Quien, set<string>>, k: string)
    requires k !in claves
    ensures AssignInstance(Coordinador(claves, dicc), k, {0}) == Some(Coordinador(claves + {k}, dicc))
  {
    var c := Coordinador(claves, dicc);
    assert Buscar(c.nodos, PorClave(k)) == -1;
    assert Elegir(c, k, false) == Some((0, 0));
    assert Anotar(c, 0, k) == Coordinador(claves + {k}, dicc);
  }

  function Quiere(k: string): Acto { Pide(Get(k), false, {0}, 0) }

  /** A GET of a key that nobody ever asked for. */
  lemma GetLibre(n: Red, claves: set<string>, k: string, m: Red)
    requires n.plan.fase.Corriendo? && !n.plan.fin && k !in n.plan.colas && k !in claves
    requires n.plan.unEsi in n.coord.dicc && n.coord == Coordinador(claves, n.coord.dicc)
    requires var s, d := n.plan, n.coord.dicc;
             && m.plan == s.(block := false, colas := s.colas[k := []], reservas := s.reservas + [Reserva(s.unEsi, k)],
                             datos := Corrido(s), recien := false)
             && m.coord == Coordinador(claves + {k}, d[s.unEsi := d[s.unEsi] + {k}])
    ensures Camino([n, m], [Quiere(k)])
  {
    AsignaUnica(claves, n.coord.dicc, k);
    PideLibre(n.plan, k);
    UnPaso(n, Quiere(k), m);
  }

  /** A GET of a key that somebody owns or waits for. */
  lemma GetTomada(n: Red, k: string, m: Red)
    requires n.plan.fase.Corriendo? && !n.plan.fin && !n.plan.abortar && !Concede(n.plan, k)
    requires n.plan.unEsi in n.coord.dicc
    requires var s := n.plan;
             m == n.(plan := s.(block := true, colas := s.colas[k := s.colas[k] + [s.unEsi]], datos := Corrido(s),
                                recien := false, fin := true, fase := Esperando))
    ensures Camino([n, m], [Quiere(k)])
  {
    PideTomada(n.plan, k);
    UnPaso(n, Quiere(k), m);
  }

  // ---- the run ----

  /** The instance and the two ESIs connect, and the first gets the CPU. */
  const ABREN := [Entra("i"), Nace, Nace, Elige]

  /** The first takes "h" and blocks on the key of the console. */
  const PRIMERO := [Quiere("h"), Quiere("c"), Elige]

  /** The second takes "k"; the console lets "c" go, and the first, woken, takes the CPU from it
      and blocks on "k"; the second takes "j". */
  const SEGUNDO := [Quiere("k"), Suelta("c"), Quiere("k"), Elige, Quiere("j")]

  function Plan(fase: Fase, e: Quien, ready: seq<Quien>, colas: map<string, seq<Quien>>, reservas: seq<Reserva>,
                datos: map<Quien, Datos>, hayEsis: int, block: bool, fin: bool, recien: bool): Estado {
    Estado(fase, e, ready, colas, reservas, [], datos, hayEsis, block, false, fin, 2, 0, recien)
  }

  function Abierta(): Red {
    Red(Plan(Corriendo, E1, [E2], map["c" := [Consola]], [], map[E1 := D0, E2 := D0], 1, false, false, true),
        Coordinador({}, map[E1 := {}, E2 := {}]))
  }

  /** The instance and the two ESIs have connected. */
  function Listas(): Red {
    Red(Plan(Arranque, Consola, [E1, E2], map["c" := [Consola]], [], map[E1 := D0, E2 := D0], 2, false, false, false),
        Coordinador({}, map[E1 := {}, E2 := {}]))
  }

  lemma Conectan()
    ensures var n0 := Apertura({"c"}, EL);
            var n1 := n0.(coord := Coordinador({}, map[]));
            Camino([n0, n1, Actuar(C, n1, Nace), Listas()], [Entra("i"), Nace, Nace])
  {
    var n0 := Apertura({"c"}, EL);
    var n1 := Actuar(C, n0, Entra("i"));
    assert n1 == n0.(coord := Coordinador({}, map[]));
    var n2 := Actuar(C, n1, Nace);
    var n3 := Actuar(C, n2, Nace);
    assert n3.plan.ready == [E1, E2];
    assert n3.plan.colas == map["c" := [Consola]];
    assert n3.coord.dicc == map[E1 := {}, E2 := {}];
  }

  lemma EligePrimero()
    ensures Camino([Listas(), Abierta()], [Elige])
  {}

  /** The first owns "h". */
  function ConH(): Red {
    Red(Plan(Corriendo, E1, [E2], map["c" := [Consola], "h" := []], [Reserva(E1, "h")],
             map[E1 := Datos(1, 9.0, 10.0, 0.0), E2 := D0], 1, false, false, false),
        Coordinador({"h"}, map[E1 := {"h"}, E2 := {}]))
  }

  lemma TomaH()
    ensures Camino([Abierta(), ConH()], [Quiere("h")])
  {
    assert [] + [Reserva(E1, "h")] == [Reserva(E1, "h")];
    assert {} + {"h"} == {"h"};
    assert map[E1 := {}, E2 := {}][E1 := {"h"}] == map[E1 := {"h"}, E2 := {}];
    GetLibre(Abierta(), {}, "h", ConH());
  }

  /** The first waits for "c". */
  function EnC(): Red {
    Red(Plan(Esperando, E1, [E2], map["c" := [Consola, E1], "h" := []], [Reserva(E1, "h")],
             map[E1 := Datos(2, 8.0, 10.0, 0.0), E2 := D0], 1, true, true, false),
        Coordinador({"h"}, map[E1 := {"h"}, E2 := {}]))
  }

  lemma EsperaC()
    ensures Camino([ConH(), EnC()], [Quiere("c")])
  {
    assert [Consola] + [E1] == [Consola, E1];
    GetTomada(ConH(), "c", EnC());
  }

  /** The second has the CPU. */
  function Turno2(): Red {
    Red(Plan(Corriendo, E2, [], map["c" := [Consola, E1], "h" := []], [Reserva(E1, "h")],
             map[E1 := Datos(2, 8.0, 10.0, 0.0), E2 := D0], 0, true, false, true),
        Coordinador({"h"}, map[E1 := {"h"}, E2 := {}]))
  }

  lemma EligeSegundo()
    ensures Camino([EnC(), Turno2()], [Elige])
  {
    EligeUnico(EnC().plan, E2);
  }

  /** The second owns "k". */
  function ConK(): Red {
    Red(Plan(Corriendo, E2, [], map["c" := [Consola, E1], "h" := [], "k" := []],
             [Reserva(E1, "h"), Reserva(E2, "k")],
             map[E1 := Datos(2, 8.0, 10.0, 0.0), E2 := Datos(1, 9.0, 10.0, 0.0)], 0, false, false, false),
        Coordinador({"h", "k"}, map[E1 := {"h"}, E2 := {"k"}]))
  }

  lemma TomaK()
    ensures Camino([Turno2(), ConK()], [Quiere("k")])
  {
    assert [Reserva(E1, "h")] + [Reserva(E2, "k")] == [Reserva(E1, "h"), Reserva(E2, "k")];
    assert {"h"} + {"k"} == {"h", "k"} && {} + {"k"} == {"k"};
    assert map[E1 := {"h"}, E2 := {}][E2 := {"k"}] == map[E1 := {"h"}, E2 := {"k"}];
    GetLibre(Turno2(), {"h"}, "k", ConK());
  }

  /** The console wakes the first, which takes the CPU. */
  function Despertada(): Red {
    Red(Plan(Corriendo, E1, [E2], map["c" := [], "h" := [], "k" := []], [Reserva(E1, "h"), Reserva(E2, "k")],
             map[E1 := Datos(2, 2.0, 8.0, 0.0), E2 := Datos(1, 9.0, 10.0, 0.0)], 1, false, false, true),
        Coordinador({"h", "k"}, map[E1 := {"h"}, E2 := {"k"}]))
  }

  lemma SueltaC()
    ensures Camino([ConK(), Despertada()], [Suelta("c")])
  {
    ConsolaSuelta();
    UnPaso(ConK(), Suelta("c"), Despertada());
  }

  lemma ConsolaSuelta()
    ensures UnlockKeyByConsole(C, ConK().plan, "c") == Despertada().plan
  {
    var s := ConK().plan;
    assert Primera(s.reservas, DeClave("c")) == -1;
    assert s.(reservas := Sacar(s.reservas, DeClave("c"))) == s;
    var p := Pop(s, "c");
    assert p.colas["c"] == [E1] && p.colas["c"][1..] == [];
    assert Pop(p, "c").colas == map["c" := [], "h" := [], "k" := []];
    assert Estimar(Datos(2, 8.0, 10.0, 0.0), 100) == Datos(2, 2.0, 8.0, 0.0);
    assert UnlockKeyByConsole(C, s, "c") == Avisar(C, Pop(p, "c"), E1);
    assert [] + [E2] == [E2];
  }

  /** The first waits for "k". */
  function EnK(): Red {
    Red(Plan(Esperando, E1, [E2], map["c" := [], "h" := [], "k" := [E1]], [Reserva(E1, "h"), Reserva(E2, "k")],
             map[E1 := Datos(3, 1.0, 8.0, 0.0), E2 := Datos(1, 9.0, 10.0, 0.0)], 1, true, true, false),
        Coordinador({"h", "k"}, map[E1 := {"h"}, E2 := {"k"}]))
  }

  lemma EsperaK()
    ensures Camino([Despertada(), EnK()], [Quiere("k")])
  {
    assert Reserva(E2, "k") == Despertada().plan.reservas[1];
    assert Tomada(Despertada().plan, "k");
    assert [] + [E1] == [E1];
    GetTomada(Despertada(), "k", EnK());
  }

  /** The second has the CPU again. */
  function Turno4(): Red {
    Red(Plan(Corriendo, E2, [], map["c" := [], "h" := [], "k" := [E1]], [Reserva(E1, "h"), Reserva(E2, "k")],
             map[E1 := Datos(3, 1.0, 8.0, 0.0), E2 := Datos(1, 9.0, 10.0, 0.0)], 0, true, false, true),
        Coordinador({"h", "k"}, map[E1 := {"h"}, E2 := {"k"}]))
  }

  lemma EligeOtra()
    ensures Camino([EnK(), Turno4()], [Elige])
  {
    EligeUnico(EnK().plan, E2);
  }

  /** It owns "j" too. */
  function Vispera(): Red {
    Red(Plan(Corriendo, E2, [], map["c" := [], "h" := [], "k" := [E1], "j" := []],
             [Reserva(E1, "h"), Reserva(E2, "k"), Reserva(E2, "j")],
             map[E1 := Datos(3, 1.0, 8.0, 0.0), E2 := Datos(2, 8.0, 10.0, 0.0)], 0, false, false, false),
        Coordinador({"h", "k", "j"}, map[E1 := {"h"}, E2 := {"k", "j"}]))
  }

  lemma TomaJ()
    ensures Camino([Turno4(), Vispera()], [Quiere("j")])
  {
    assert [Reserva(E1, "h"), Reserva(E2, "k")] + [Reserva(E2, "j")] == Vispera().plan.reservas;
    assert {"h", "k"} + {"j"} == {"h", "k", "j"} && {"k"} + {"j"} == {"k", "j"};
    assert map[E1 := {"h"}, E2 := {"k"}][E2 := {"k", "j"}] == map[E1 := {"h"}, E2 := {"k", "j"}];
    GetLibre(Turno4(), {"h", "k"}, "j", Vispera());
  }

  lemma Inicio() returns (ns: seq<Red>)
    ensures Camino(ns, [Entra("i"), Nace, Nace] + [Elige]) && ns[0] == Apertura({"c"}, EL) && ns[4] == Abierta()
  {
    var n0 := Apertura({"c"}, EL);
    var n1 := n0.(coord := Coordinador({}, map[]));
    Conectan();
    EligePrimero();
    CaminoMas([n0, n1, Actuar(C, n1, Nace), Listas()], [Entra("i"), Nace, Nace], [Listas(), Abierta()], [Elige]);
    ns := [n0, n1, Actuar(C, n1, Nace), Listas()] + [Listas(), Abierta()][1..];
  }

  lemma Medio() returns (ns: seq<Red>)
    ensures Camino(ns, [Quiere("h"), Quiere("c"), Elige]) && ns[0] == Abierta() && ns[3] == Turno2()
  {
    TomaH();
    EsperaC();
    EligeSegundo();
    ns := [Abierta(), ConH(), EnC(), Turno2()];
    TresPasos(ns, Quiere("h"), Quiere("c"), Elige);
  }

  lemma Fin5() returns (ns: seq<Red>)
    ensures Camino(ns, [Quiere("k"), Suelta("c"), Quiere("k")] + ([Elige] + [Quiere("j")]))
    ensures ns[0] == Turno2() && ns[5] == Vispera()
  {
    TomaK();
    SueltaC();
    EsperaK();
    TresPasos([Turno2(), ConK(), Despertada(), EnK()], Quiere("k"), Suelta("c"), Quiere("k"));
    EligeOtra();
    TomaJ();
    CaminoMas([EnK(), Turno4()], [Elige], [Turno4(), Vispera()], [Quiere("j")]);
    var ms := [EnK(), Turno4()] + [Turno4(), Vispera()][1..];
    var ls := [Turno2(), ConK(), Despertada(), EnK()];
    CaminoMas(ls, [Quiere("k"), Suelta("c"), Quiere("k")], ms, [Elige] + [Quiere("j")]);
    ns := ls + ms[1..];
  }

  lemma HastaLaVispera()
    ensures Historia(C, Apertura({"c"}, EL), ABREN + PRIMERO + SEGUNDO)
    ensures Tras(C, Apertura({"c"}, EL), ABREN + PRIMERO + SEGUNDO) == Vispera()
  {
    var ns := Inicio();
    var ms := Medio();
    var ls := Fin5();
    assert ABREN == [Entra("i"), Nace, Nace] + [Elige];
    assert SEGUNDO == [Quiere("k"), Suelta("c"), Quiere("k")] + ([Elige] + [Quiere("j")]);
    CaminoMas(ns, ABREN, ms, PRIMERO);
    CaminoMas(ns + ms[1..], ABREN + PRIMERO, ls, SEGUNDO);
    CaminoEsHistoria(ns + ms[1..] + ls[1..], ABREN + PRIMERO + SEGUNDO);
  }

  lemma StoreDespierta()
    ensures var s := Vispera().plan;
            EsDuenio(s, "k") && UnlockKey(C, s, "k").unEsi == E1
  {
    var s := Vispera().plan;
    assert s.reservas[1] == Reserva(E2, "k");
    var r := s.(reservas := Sacar(s.reservas, Exacta(E2, "k")));
    assert Estimar(Datos(3, 1.0, 8.0, 0.0), 100).estimada == 3.0;
    assert Avisar(C, Pop(r, "k"), E1).unEsi == E1;
  }

  lemma GuardaLaUnica()
    ensures SaveOnInstance(Vispera().coord, "k", {0}) == Some((Vispera().coord, 0))
  {
    var c := Vispera().coord;
    assert Halla(PorClave("k"), c.nodos[0]);
  }

  lemma RobaEnLaVispera()
    ensures Posible(C, Vispera(), Pide(Store("k"), true, {0}, 0)) && Robo(C, Vispera(), Store("k"), true, {0}, 0)
  {
    StoreDespierta();
    GuardaLaUnica();
    assert Vispera().plan.reservas[0] == Reserva(E1, "h");
  }

  /** Under SJF-CD the second ESI ends with the STORE of "k": the first, woken and shorter, gets
      the CPU before the end is told, and it is the first that is finished and loses "h", which
      its dictionary keeps. */
  lemma RoboAlcanzable()
    ensures Historia(C, Apertura({"c"}, EL), ABREN + PRIMERO + SEGUNDO)
    ensures var n := Tras(C, Apertura({"c"}, EL), ABREN + PRIMERO + SEGUNDO);
            && Posible(C, n, Pide(Store("k"), true, {0}, 0)) && Robo(C, n, Store("k"), true, {0}, 0)
            && Iguales(n) && !Iguales(Actuar(C, n, Pide(Store("k"), true, {0}, 0)))
  {
    HastaLaVispera();
    var n := Vispera();
    RobaEnLaVispera();
    VisperaIguales();
    AperturaSegura({"c"}, EL);
    SeguraSiempre(C, Apertura({"c"}, EL), ABREN + PRIMERO + SEGUNDO);
    PideIguales(C, n, Store("k"), true, {0}, 0);
  }

  lemma VisperaIguales()
    ensures Iguales(Vispera())
  {
    var n := Vispera();
    var r := n.plan.reservas;
    assert r[0] == Reserva(E1, "h") && r[1] == Reserva(E2, "k") && r[2] == Reserva(E2, "j");
  }
}
