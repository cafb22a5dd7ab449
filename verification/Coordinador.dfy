/** The Coordinador process: its list of instances, the pointer and the dictionaries changed in
    place, each operation proved equal to the functions that the promises are about. */
module Coordinadores {
  import opened Opciones
  import opened Planificacion
  import opened Coordinacion
  import Turnos
  import Letras

  class Coordinador {
    const algorithm: Reparto
    var instances: seq<Nodo>
    var instancePointer: nat
    var blockedKeys: map<Quien, set<string>>

    ghost function Actual(): (c: Coord)
      reads this
    {
      Coord(algorithm, instances, instancePointer, blockedKeys)
    }

    constructor (reparto: Reparto)
      ensures Actual() == Coord(reparto, [], 0, map[])
    {
      algorithm := reparto;
      instances, instancePointer, blockedKeys := [], 0, map[];
    }

    /** list_find over the instances. */
    method Find(b: Busca) returns (i: int)
      ensures i == Buscar(instances, b)
    {
      i := 0;
      while i < |instances|
        invariant 0 <= i <= |instances|
        invariant forall j | 0 <= j < i :: !Halla(b, instances[j])
      {
        if Halla(b, instances[i]) { return; }
        i := i + 1;
      }
      i := -1;
    }

    /** list_count_satisfying the active ones. */
    method CountActive() returns (n: nat)
      ensures n == Activos(instances)
    {
      n := 0;
      var i := |instances|;
      assert instances[i..] == [];
      while i > 0
        invariant 0 <= i <= |instances| && n == Activos(instances[i..])
      {
        i := i - 1;
        assert instances[i..][1..] == instances[i + 1..];
        if instances[i].activa { n := n + 1; }
      }
      assert instances[0..] == instances;
    }

    /** assign_letters; false stands for its division by zero. */
    method AssignLetters() returns (ok: bool)
      modifies `instances
      ensures ok == Coordinacion.AssignLetters(old(instances)).Some?
      ensures instances == if ok then Coordinacion.AssignLetters(old(instances)).value else old(instances)
      ensures ok && Letras.Apagadas(old(instances)) ==> Letras.BienLetrado(instances)
    {
      ghost var ns := instances;
      var cantInstances := CountActive();
      if cantInstances == 0 { return false; }
      var cantLetters := LETRAS;
      var lettersToInstances := cantLetters / cantInstances;
      if cantLetters % cantInstances != 0 { lettersToInstances := lettersToInstances + 1; }
      LetterRanges(cantLetters, lettersToInstances);
      ok := true;
      if Letras.Apagadas(ns) { Letras.AssignLettersReparte(ns); }
    }

    /** The pass of assign_letters over the list. */
    method LetterRanges(letters: int, lettersToInstances: int)
      modifies `instances
      ensures instances == Repartir(old(instances), letters, 0, lettersToInstances)
    {
      ghost var ns := instances;
      var cantLetters, assignedLetters, i := letters, 0, 0;
      ghost var todas := Repartir(ns, cantLetters, 0, lettersToInstances);
      assert ns[0..] == ns && instances[..0] + todas == todas;
      while i < |instances|
        invariant 0 <= i <= |instances| == |ns| && instances[i..] == ns[i..]
        invariant todas == instances[..i] + Repartir(ns[i..], cantLetters, assignedLetters, lettersToInstances)
      {
        assert instances[i] == instances[i..][0] == ns[i];
        RepartirPaso(instances[..i], ns, i, cantLetters, assignedLetters, lettersToInstances);
        var p := instances[i];
        if p.activa {
          if lettersToInstances <= cantLetters {
            p := p.(letraMin := 65 + assignedLetters, letraMax := 65 + assignedLetters + lettersToInstances - 1);
            assignedLetters := assignedLetters + lettersToInstances;
            cantLetters := cantLetters - lettersToInstances;
          } else {
            p := p.(letraMin := 65 + assignedLetters, letraMax := 65 + assignedLetters + cantLetters - 1);
          }
        }
        Escribe(instances, ns, i, p);
        instances := instances[i := p];
        i := i + 1;
      }
      assert instances[..i] == instances && ns[i..] == [];
    }

    /** The letters again, when the algorithm uses them. */
    method Reletter() returns (ok: bool)
      modifies `instances
      ensures ok == Letrado(old(Actual())).Some?
      ensures ok ==> Actual() == Letrado(old(Actual())).value
    {
      ok := true;
      if algorithm.KE? { ok := AssignLetters(); }
    }

    /** disconnect_instance_in_list. */
    method DisconnectInstanceInList(i: nat) returns (ok: bool)
      requires i < |instances|
      modifies `instances
      ensures ok == Desconectar(old(Actual()), i).Some?
      ensures ok ==> Actual() == Desconectar(old(Actual()), i).value
    {
      instances := instances[i := instances[i].(activa := false, letraMin := 0, letraMax := 0)];
      ok := Reletter();
    }

    /** add_instance_to_list. */
    method AddInstanceToList(name: string) returns (ok: bool)
      modifies `instances
      ensures ok == Conectar(old(Actual()), name).Some?
      ensures ok ==> Actual() == Conectar(old(Actual()), name).value
    {
      var i := Find(PorNombre(name));
      if i != -1 {
        instances := instances[i := instances[i].(activa := true)];
      } else {
        instances := instances + [Nodo(name, true, 999, 0, 0, {})];
      }
      ok := Reletter();
    }

    /** choose_by_counter. */
    method ChooseByCounter(simulate: bool) returns (i: nat)
      requires instancePointer < |instances|
      modifies `instancePointer
      ensures (i, instancePointer) == Coordinacion.ChooseByCounter(instances, old(instancePointer), simulate)
      ensures Turnos.PrimeraDesde(instances, old(instancePointer), i) && instancePointer < |instances|
    {
      ghost var p0 := instancePointer;
      i := instancePointer;
      if !simulate { instancePointer := instancePointer + 1; }
      ghost var meta := Avanza(instances, i, instancePointer);
      while !instances[i].activa && instancePointer < |instances|
        invariant i < |instances| && instancePointer <= |instances|
        invariant Avanza(instances, i, instancePointer) == meta
        decreases |instances| - instancePointer
      {
        i := instancePointer;
        instancePointer := instancePointer + 1;
      }
      if instancePointer >= |instances| { instancePointer := 0; }
      Turnos.ContadorElige(instances, p0, simulate);
    }

    /** choose_by_space, with the filters of find_by_free_space as loops. */
    method ChooseBySpace(simulate: bool) returns (i: int)
      modifies `instancePointer
      ensures var r := Coordinacion.ChooseBySpace(instances, old(instancePointer), simulate);
              if r.None? then i == -1 && instancePointer == old(instancePointer)
              else r.value == (i, instancePointer)
      ensures i != -1 ==>
                && 0 <= i < |instances| && instances[i].activa
                && forall j | 0 <= j < |instances| && instances[j].activa :: instances[j].libre <= instances[i].libre
    {
      var m := MasLibre(instances);
      if m.None? { return -1; }
      var l: seq<nat>, j := [], |instances|;
      while j > 0
        invariant 0 <= j <= |instances| && l == FindByFreeSpace(instances, m.value, j)
      {
        j := j - 1;
        if instances[j].activa && instances[j].libre == m.value { l := [j] + l; }
      }
      FindByFreeSpaceHalla(instances, m.value, 0);
      if |l| - 1 < instancePointer { instancePointer := 0; }
      assert Coordinacion.ChooseBySpace(instances, old(instancePointer), simulate).Some?;
      assert l != [];
      i := l[instancePointer];
      if !simulate { instancePointer := instancePointer + 1; }
    }

    /** choose_instance; -1 stands for a null pointer that the caller follows. */
    method ChooseInstance(k: string, simulate: bool) returns (i: int)
      modifies `instancePointer
      ensures var r := Elegir(old(Actual()), k, simulate);
              if r.None? then i == -1 else i == r.value.0 && instancePointer == r.value.1
    {
      match algorithm {
        case EL =>
          if instancePointer >= |instances| { return -1; }
          i := ChooseByCounter(simulate);
        case LSU => i := ChooseBySpace(simulate);
        case KE => i := Find(PorLetra(Letra(k)));
      }
    }

    /** The loop of assign_instance. */
    method ChooseUntilConnected(k: string, vivas: set<nat>) returns (ok: bool)
      modifies `instances, `instancePointer
      ensures ok == ElegirViva(old(Actual()), k, vivas).Some?
      ensures ok ==> Actual() == ElegirViva(old(Actual()), k, vivas).value
      decreases Activos(instances)
    {
      ghost var c := Actual();
      var i := ChooseInstance(k, false);
      if i == -1 { return false; }
      while instances[i].activa && i !in vivas
        invariant 0 <= i < |instances|
        invariant ElegirViva(c, k, vivas) ==
                  if Responde(Actual(), i, vivas) then Some(Anotar(Actual(), i, k))
                  else match Desconectar(Actual(), i)
                    case None => None
                    case Some(e) => ElegirViva(e, k, vivas)
        decreases Activos(instances)
      {
        ghost var d := Actual();
        ok := DisconnectInstanceInList(i);
        if !ok { return; }
        DesconectarBaja(d, i);
        i := ChooseInstance(k, false);
        if i == -1 { return false; }
      }
      instances := instances[i := instances[i].(claves := instances[i].claves + {k})];
      ok := true;
    }

    /** assign_instance. */
    method AssignInstance(k: string, vivas: set<nat>) returns (ok: bool)
      modifies `instances, `instancePointer
      ensures ok == Coordinacion.AssignInstance(old(Actual()), k, vivas).Some?
      ensures ok ==> Actual() == Coordinacion.AssignInstance(old(Actual()), k, vivas).value
    {
      var h := Find(PorClave(k));
      if h != -1 && instances[h].activa {
        if h in vivas { return true; }
        ok := DisconnectInstanceInList(h);
        if !ok { return; }
      }
      ok := ChooseUntilConnected(k, vivas);
    }

    /** save_on_instance; not ok stands for the null pointer of a key that no instance holds, and
        for the division by zero. */
    method SaveOnInstance(k: string, vivas: set<nat>) returns (ok: bool, i: int)
      modifies `instances
      ensures ok == Coordinacion.SaveOnInstance(old(Actual()), k, vivas).Some?
      ensures ok ==> (Actual(), i) == Coordinacion.SaveOnInstance(old(Actual()), k, vivas).value
    {
      i := Find(PorClave(k));
      if i == -1 { return false, -1; }
      if !instances[i].activa { i := Find(PorClaveActiva(k)); }
      if i == -1 { return true, -1; }
      if i in vivas { return true, i; }
      ok := DisconnectInstanceInList(i);
      i := -1;
    }

    /** operation_get, given the Planificador's answer. */
    method OperationGet(e: Quien, k: string, libre: bool, vivas: set<nat>) returns (ok: bool, a: Aviso)
      modifies this
      ensures var r := Coordinacion.OperationGet(old(Actual()), e, k, libre, vivas);
              ok == r.Some? && (ok ==> Salida(Actual(), a, -1) == r.value)
    {
      if !libre { return true, Bloqueado; }
      ok := AssignInstance(k, vivas);
      a := Exito;
      if ok {
        blockedKeys := blockedKeys[e := (if e in blockedKeys then blockedKeys[e] else {}) + {k}];
      }
    }

    /** update_instance. */
    method UpdateInstance(i: nat, libres: int)
      requires i < |instances|
      modifies `instances
      ensures Actual() == Coordinacion.UpdateInstance(old(Actual()), i, libres)
    {
      match algorithm {
        case LSU => instances := instances[i := instances[i].(libre := libres)];
        case _ =>
      }
    }

    /** operation_set, given the Planificador's answer and the report of the instance. */
    method OperationSet(e: Quien, k: string, tiene: bool, vivas: set<nat>, libres: int)
      returns (ok: bool, a: Aviso, i: int)
      modifies this
      ensures var r := Coordinacion.OperationSet(old(Actual()), e, k, tiene, vivas, libres);
              ok == r.Some? && (ok ==> Salida(Actual(), a, i) == r.value)
    {
      if e !in blockedKeys || k !in blockedKeys[e] || !tiene { return true, Abortado, -1; }
      ghost var c := Actual();
      ok, i := SaveOnInstance(k, vivas);
      a := if i == -1 then Abortado else Exito;
      if ok {
        SaveOnInstanceLlega(c, k, vivas);
        if i != -1 { UpdateInstance(i, libres); }
      }
    }

    /** operation_store. */
    method OperationStore(e: Quien, k: string, tiene: bool, vivas: set<nat>) returns (ok: bool, a: Aviso, i: int)
      modifies this
      ensures var r := Coordinacion.OperationStore(old(Actual()), e, k, tiene, vivas);
              ok == r.Some? && (ok ==> Salida(Actual(), a, i) == r.value)
    {
      if e !in blockedKeys || k !in blockedKeys[e] || !tiene { return true, Abortado, -1; }
      ok, i := SaveOnInstance(k, vivas);
      a := if i == -1 then Abortado else Exito;
      if ok && i != -1 {
        blockedKeys := blockedKeys[e := (if e in blockedKeys then blockedKeys[e] else {}) - {k}];
      }
    }
  }

  /** What assign_letters gives to the i-th instance. */
  function Parte(n: Nodo, cant: int, asig: int, l: int): Nodo {
    if !n.activa then n
    else if l <= cant then n.(letraMin := 65 + asig, letraMax := 65 + asig + l - 1)
    else n.(letraMin := 65 + asig, letraMax := 65 + asig + cant - 1)
  }

  lemma RepartirPaso(hecho: seq<Nodo>, ns: seq<Nodo>, i: nat, cant: int, asig: int, l: int)
    requires i < |ns|
    ensures var lleno := ns[i].activa && l <= cant;
            hecho + Repartir(ns[i..], cant, asig, l)
            == hecho + [Parte(ns[i], cant, asig, l)]
               + Repartir(ns[i + 1..], if lleno then cant - l else cant, if lleno then asig + l else asig, l)
  {
    assert ns[i..][1..] == ns[i + 1..];
  }

  lemma Escribe(a: seq<Nodo>, ns: seq<Nodo>, i: nat, p: Nodo)
    requires i < |a| == |ns| && a[i..] == ns[i..]
    ensures var b := a[i := p];
            b[i + 1..] == ns[i + 1..] && b[..i + 1] == a[..i] + [p]
  {
    assert a[i..][1..] == a[i + 1..] && ns[i..][1..] == ns[i + 1..];
  }
}
