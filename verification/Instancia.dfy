/** The Instancia process: the table and the arena as arrays, changed in place, each operation
    proved equal to the functions that the other modules reason about. */
module Instancias {
  import opened Opciones
  import opened Tabla
  import opened Arena
  import opened Compactacion
  import opened LRU
  import opened LRUSet
  import opened LRURefina
  import C = Circular
  import opened Volcado
  import F = Fifo
  import Archivos
  import Giros

  class Instancia {
    const T: nat
    const tabla: array<Entrada>
    const mem: array<char>
    var indexCircular: nat
    var comienzoDeEntradasLibres: nat
    var flagCompactar: bool
    var listaClaves: Copias

    ghost predicate Valid()
      reads this, tabla, mem
    {
      && T > 0 && mem.Length == tabla.Length * T
      && comienzoDeEntradasLibres <= tabla.Length
      && VACIO !in listaClaves
    }

    ghost function Almacenado(): (a: Almacen)
      reads this, tabla, mem
    {
      Almacen(tabla[..], mem[..])
    }

    ghost function MotorLRU(): Motor
      reads this, tabla, mem
    {
      Motor(Almacenado(), flagCompactar)
    }

    ghost function AnilloCIRC(): C.Anillo
      reads this, tabla, mem
    {
      C.Anillo(Almacenado(), flagCompactar, indexCircular, comienzoDeEntradasLibres)
    }

    /** dump and storeKey find a mapped file for every key of the table. */
    ghost predicate ConArchivo()
      reads this, tabla
    {
      Claves(tabla[..]) <= listaClaves.Keys
    }

    constructor (cantEntradas: nat, tamanioEntradas: nat)
      requires tamanioEntradas > 0
      ensures Valid() && fresh(tabla) && fresh(mem) && T == tamanioEntradas
      ensures tabla[..] == seq(cantEntradas, _ => LIMPIA)
      ensures !flagCompactar && indexCircular == 0 && comienzoDeEntradasLibres == 0 && listaClaves == map[]
    {
      T := tamanioEntradas;
      tabla := new Entrada[cantEntradas](_ => LIMPIA);
      mem := new char[cantEntradas * tamanioEntradas];
      indexCircular, comienzoDeEntradasLibres, flagCompactar := 0, 0, false;
      listaClaves := map[];
    }

    method GetCantPaginas(tamanioMensaje: nat) returns (cantPaginas: nat)
      requires T > 0
      ensures cantPaginas == Paginas(tamanioMensaje, T)
    {
      PaginasEsTecho(tamanioMensaje, T);
      if tamanioMensaje % T == 0 {
        cantPaginas := tamanioMensaje / T;
      } else {
        cantPaginas := tamanioMensaje / T + 1;
      }
    }

    method ConsultarTabla(clave: string) returns (r: int)
      ensures r == Tabla.ConsultarTabla(tabla[..], clave)
    {
      var i := 0;
      while i < tabla.Length
        invariant 0 <= i <= tabla.Length
        invariant forall j | 0 <= j < i :: tabla[j].clave != clave
      {
        if tabla[i].clave == clave { return i; }
        i := i + 1;
      }
      return -1;
    }

    method ConsultarTablaCIRC(clave: string) returns (r: int)
      requires Valid()
      ensures r == C.ConsultarCorta(tabla[..], comienzoDeEntradasLibres, clave)
    {
      ghost var t := tabla[..comienzoDeEntradasLibres];
      assert tabla[..][..comienzoDeEntradasLibres] == t;
      var i := 0;
      while i < comienzoDeEntradasLibres
        invariant 0 <= i <= comienzoDeEntradasLibres
        invariant forall j | 0 <= j < i :: t[j].clave != clave
      {
        if tabla[i].clave == clave {
          assert t[i].clave == clave;
          return i;
        }
        i := i + 1;
      }
      return -1;
    }

    method ConsultarTablaLRU(clave: string) returns (r: int, laMasVieja: int)
      requires Valid()
      modifies tabla
      ensures tabla[..] == Envejecer(old(tabla[..]), T)
      ensures r == Tabla.ConsultarTabla(tabla[..], clave) && laMasVieja == MasVieja(tabla[..])
    {
      r, laMasVieja := -1, 0;
      var i := 0;
      while i < tabla.Length
        invariant 0 <= i <= tabla.Length
        invariant forall j | 0 <= j < i :: tabla[j] == Envejecida(old(tabla[j]), T)
        invariant forall j | i <= j < tabla.Length :: tabla[j] == old(tabla[j])
        invariant 0 <= laMasVieja && forall j | 0 <= j < i :: tabla[j].age <= laMasVieja
        invariant laMasVieja == 0 || exists j | 0 <= j < i :: tabla[j].age == laMasVieja
        invariant -1 <= r < i && (r >= 0 ==> tabla[r].clave == clave)
        invariant forall j | 0 <= j < (if r == -1 then i else r) :: tabla[j].clave != clave
      {
        if Viva(tabla[i]) {
          tabla[i] := tabla[i].(age := tabla[i].age + 1);
        }
        if tabla[i].tamanio > T {
          tabla[i] := tabla[i].(age := -1);
        }
        if laMasVieja < tabla[i].age {
          laMasVieja := tabla[i].age;
        }
        if r == -1 && tabla[i].clave == clave {
          r := i;
        }
        i := i + 1;
      }
    }

    method BuscarEspacioLibre(cantPaginas: nat) returns (r: int)
      ensures r == LRU.BuscarEspacioLibre(tabla[..], cantPaginas)
    {
      var posicion, lugaresVacios := -1, 0;
      var i := 0;
      ghost var t, n := tabla[..], Max(1, cantPaginas);
      while i < tabla.Length
        invariant 0 <= i <= tabla.Length
        invariant 0 <= lugaresVacios <= i && lugaresVacios < n
        invariant posicion == if lugaresVacios == 0 then -1 else i - lugaresVacios
        invariant forall j | i - lugaresVacios <= j < i :: !Viva(t[j])
        invariant i - lugaresVacios > 0 ==> Viva(t[i - lugaresVacios - 1])
        invariant forall j | 0 <= j < i - lugaresVacios :: !Hueco(t, j, n)
      {
        if !Viva(tabla[i]) {
          if posicion == -1 {
            posicion := i;
          }
          lugaresVacios := lugaresVacios + 1;
          if lugaresVacios >= cantPaginas {
            assert Hueco(t, posicion, n);
            return posicion;
          }
        } else {
          forall j | i - lugaresVacios <= j <= i
            ensures !Hueco(t, j, n)
          {
            assert Viva(t[i]);
          }
          posicion := -1;
          lugaresVacios := 0;
        }
        i := i + 1;
      }
      return -1;
    }

    method FreeEntries() returns (r: nat)
      ensures r == Libres(tabla[..])
    {
      r := 0;
      var i := 0;
      while i < tabla.Length
        invariant 0 <= i <= tabla.Length
        invariant r == Libres(tabla[..i])
      {
        assert tabla[..i + 1] == tabla[..i] + [tabla[i]];
        LibresConcat(tabla[..i], [tabla[i]]);
        if !Viva(tabla[i]) {
          r := r + 1;
        }
        i := i + 1;
      }
      assert tabla[..i] == tabla[..];
    }

    method GuardarEnMem(valor: string, posicion: nat)
      requires Valid() && posicion < tabla.Length
      modifies mem
      ensures Almacenado() == EscribirValor(old(Almacenado()), T, posicion, valor)
    {
      Orden(posicion, tabla.Length, T);
      var ubicacionEnMem: nat := posicion * T;
      var bytes := valor + [NUL];
      var n := Min(|bytes|, mem.Length - ubicacionEnMem);
      forall b | 0 <= b < n {
        mem[ubicacionEnMem + b] := bytes[b];
      }
      assert mem[..] == Escribir(old(mem[..]), ubicacionEnMem, bytes);
    }

    method GetValue(clave: string) returns (valor: Option<string>)
      requires Valid()
      ensures valor == Arena.GetValue(Almacenado(), T, clave)
    {
      var posicion := ConsultarTabla(clave);
      if posicion == -1 {
        return None;
      }
      Orden(posicion, tabla.Length, T);
      var place: nat := posicion * T;
      var hasta := Min(place + tabla[posicion].tamanio, mem.Length);
      assert mem[..][place..hasta] == mem[place..hasta];
      return Some(mem[place..hasta]);
    }

    // ---- compactar ----

    method MoverSlot(x: nat, clavesVacias: nat)
      requires Valid() && x + clavesVacias < tabla.Length
      modifies tabla, mem
      ensures Almacenado() == Compactacion.MoverSlot(old(Almacenado()), T, PorTamanio, x, clavesVacias)
    {
      var y := x + clavesVacias;
      Orden(y, tabla.Length, T);
      CotaIndice(x, y, T);
      CotaIndice(0, x, T);
      var tamanio := tabla[y].tamanio;
      tabla[x] := tabla[y];
      MoverBytes(x * T, y * T, tamanio);
      tabla[y] := LIMPIA;
      assert tabla[..] == old(tabla[..])[x := old(tabla[y])][y := LIMPIA];
    }

    /** memcpy within the arena. */
    method MoverBytes(dst: nat, src: nat, n: nat)
      requires dst <= src <= mem.Length
      modifies mem
      ensures mem[..] == Copiar(old(mem[..]), dst, src, n)
    {
      var m := Min(n, mem.Length - src);
      forall b | 0 <= b < m {
        mem[dst + b] := mem[src + b];
      }
    }

    method CompactarHueco(i: nat, clavesVacias: nat)
      requires Valid()
      modifies tabla, mem
      ensures Almacenado() == MoverBloque(old(Almacenado()), T, PorTamanio, i, i + clavesVacias, clavesVacias)
    {
      var x, k := i, i + clavesVacias;
      ghost var fin := MoverBloque(Almacenado(), T, PorTamanio, i, k, clavesVacias);
      while x < k
        invariant i <= x <= k
        invariant MoverBloque(Almacenado(), T, PorTamanio, x, k, clavesVacias) == fin
      {
        if x + clavesVacias < tabla.Length {
          MoverSlot(x, clavesVacias);
        }
        x := x + 1;
      }
    }

    method Compactar()
      requires Valid()
      modifies this, tabla, mem
      ensures Valid() && flagCompactar == old(flagCompactar) && listaClaves == old(listaClaves)
      ensures Almacenado() == Compactacion.Compactar(old(Almacenado()), T, PorTamanio)
      ensures comienzoDeEntradasLibres == indexCircular == PrimeraLibre(tabla[..])
    {
      var i := 0;
      ghost var fin := Compactacion.Compactar(Almacenado(), T, PorTamanio);
      while i < tabla.Length
        invariant 0 <= i <= tabla.Length
        invariant CompactarDesde(Almacenado(), T, PorTamanio, i) == fin
        invariant flagCompactar == old(flagCompactar) && listaClaves == old(listaClaves) && Valid()
      {
        LlenarHueco(i);
        i := i + 1;
      }
      var e := ContarVivas();
      comienzoDeEntradasLibres, indexCircular := e, e;
    }

    /** A turn of the outer loop. */
    method LlenarHueco(i: nat)
      requires Valid() && i < tabla.Length
      modifies tabla, mem
      ensures CompactarDesde(Almacenado(), T, PorTamanio, i + 1) == CompactarDesde(old(Almacenado()), T, PorTamanio, i)
    {
      if !Viva(tabla[i]) {
        Desenrolla(Almacenado(), T, PorTamanio, i);
        var clavesVacias := ContarVacias(i);
        CompactarHueco(i, clavesVacias);
      }
    }

    /** The free slots together from slot i on. */
    method ContarVacias(i: nat) returns (clavesVacias: nat)
      requires i <= tabla.Length
      ensures clavesVacias == LargoVacio(tabla[..], i)
    {
      clavesVacias := 0;
      var j := i;
      while j < tabla.Length && !Viva(tabla[j])
        invariant i <= j <= tabla.Length && j == i + clavesVacias
        invariant forall l | i <= l < j :: !Viva(tabla[l])
      {
        clavesVacias := clavesVacias + 1;
        j := j + 1;
      }
      ghost var c := LargoVacio(tabla[..], i);
      assert i + c < tabla.Length ==> Viva(tabla[..][i + c]);
    }

    /** The live slots at the start of the table. */
    method ContarVivas() returns (e: nat)
      ensures e == PrimeraLibre(tabla[..])
    {
      e := 0;
      while e < tabla.Length && Viva(tabla[e])
        invariant 0 <= e <= tabla.Length && forall l | 0 <= l < e :: Viva(tabla[l])
      {
        e := e + 1;
      }
      ghost var p := PrimeraLibre(tabla[..]);
      assert p < tabla.Length ==> !Viva(tabla[..][p]);
      assert e < tabla.Length ==> !Viva(tabla[..][e]);
    }

    // ---- guardarEnTablaLRU ----

    method Desalojar(laMasVieja: int)
      modifies tabla
      ensures tabla[..] == LRU.Desalojar(old(tabla[..]), laMasVieja)
    {
      var i := 0;
      while i < tabla.Length
        invariant 0 <= i <= tabla.Length
        invariant forall j | 0 <= j < i :: tabla[j] == Desalojada(old(tabla[j]), laMasVieja)
        invariant forall j | i <= j < tabla.Length :: tabla[j] == old(tabla[j])
      {
        if tabla[i].age == laMasVieja {
          tabla[i] := tabla[i].(clave := VACIO, age := 0);
        }
        i := i + 1;
      }
    }

    /** The slots from `posicion` take the entry; the key that stood in each loses its file. */
    method Ocupar(clave: string, tamanio: nat, posicion: nat, cantPaginas: nat)
      requires Valid() && posicion + cantPaginas <= tabla.Length
      modifies tabla, this`listaClaves
      ensures tabla[..] == Colocada(old(tabla[..]), posicion, cantPaginas, Entrada(clave, tamanio, 0))
      ensures listaClaves == old(listaClaves) - Giros.Nombradas(old(tabla[..]), posicion, cantPaginas)
    {
      var x := posicion;
      while x < posicion + cantPaginas
        invariant posicion <= x <= posicion + cantPaginas
        invariant forall j | 0 <= j < tabla.Length ::
                    tabla[j] == if posicion <= j < x then Entrada(clave, tamanio, 0) else old(tabla[j])
        invariant listaClaves == old(listaClaves) - Giros.Nombradas(old(tabla[..]), posicion, x - posicion)
      {
        assert Giros.Nombradas(old(tabla[..]), posicion, x + 1 - posicion)
            == Giros.Nombradas(old(tabla[..]), posicion, x - posicion) + {old(tabla[x]).clave};
        listaClaves := listaClaves - {tabla[x].clave};
        tabla[x] := Entrada(clave, tamanio, 0);
        x := x + 1;
      }
    }

    method GuardarEnTablaLRU(clave: string, valor: string, cantPaginas: nat, laMasVieja: int)
      requires Valid() && cantPaginas == Paginas(|valor|, T)
      requires Cabe(tabla[..], cantPaginas, laMasVieja)
      modifies this, tabla, mem
      ensures Valid() && listaClaves == old(listaClaves)
      ensures MotorLRU() == Insertado(old(MotorLRU()), T, PorTamanio, clave, valor, laMasVieja)
      decreases Intentos(MotorLRU(), cantPaginas)
    {
      var posicion := BuscarEspacioLibre(cantPaginas);
      if posicion != -1 {
        assert Hueco(tabla[..], posicion, Max(1, cantPaginas));
        Ocupar(clave, |valor|, posicion, cantPaginas);
        GuardarEnMem(valor, posicion);
      } else {
        ReintentoAvanza(MotorLRU(), T, PorTamanio, cantPaginas, laMasVieja);
        if !flagCompactar {
          Compactar();
          flagCompactar := true;
        } else {
          Desalojar(laMasVieja);
          flagCompactar := false;
        }
        assert MotorLRU() == Reintento(old(MotorLRU()), T, PorTamanio, laMasVieja);
        GuardarEnTablaLRU(clave, valor, cantPaginas, laMasVieja);
      }
    }

    // ---- guardarEnTablaCIRC ----

    method GuardarEnTablaCIRC(clave: string, valor: string, cantPaginas: nat)
      requires Valid() && valor != "" && cantPaginas == Paginas(|valor|, T)
      requires C.Alcanzable(AnilloCIRC(), T, PorTamanio, cantPaginas)
      modifies this, tabla, mem
      ensures Valid()
      ensures AnilloCIRC() == C.Insertado(old(AnilloCIRC()), T, PorTamanio, clave, valor)
      ensures var u := C.Ubicar(old(AnilloCIRC()), T, PorTamanio, cantPaginas);
              listaClaves == old(listaClaves) - Giros.Nombradas(u.a.tabla, u.indice, cantPaginas)
      decreases C.Fase(AnilloCIRC(), T, PorTamanio, cantPaginas), C.Resto(AnilloCIRC())
    {
      if tabla.Length - indexCircular >= cantPaginas && tabla[indexCircular].tamanio <= T {
        assert C.Ubicar(AnilloCIRC(), T, PorTamanio, cantPaginas) == AnilloCIRC();
        Colocar(clave, valor, cantPaginas);
      } else {
        C.PasoAlcanzable(AnilloCIRC(), T, PorTamanio, cantPaginas);
        Avanzar(cantPaginas);
        GuardarEnTablaCIRC(clave, valor, cantPaginas);
      }
    }

    /** An activation that does not place the value: over a value of several slots, or, at the
        end of the table, a compaction and then the start. */
    method Avanzar(cantPaginas: nat)
      requires Valid() && cantPaginas >= 1 && !C.Listo(tabla[..], T, cantPaginas, indexCircular)
      modifies this, tabla, mem
      ensures Valid() && listaClaves == old(listaClaves)
      ensures AnilloCIRC() == C.Paso(old(AnilloCIRC()), T, PorTamanio, cantPaginas)
    {
      if tabla.Length - indexCircular >= cantPaginas {
        var tam := GetCantPaginas(tabla[indexCircular].tamanio);
        indexCircular := indexCircular + tam;
      } else if !flagCompactar {
        Compactar();
        flagCompactar := true;
      } else {
        indexCircular := 0;
        flagCompactar := false;
      }
    }

    /** The slots from indexCircular on take the value, and the index passes them. */
    method Colocar(clave: string, valor: string, cantPaginas: nat)
      requires Valid() && valor != "" && indexCircular + cantPaginas <= tabla.Length && cantPaginas >= 1
      modifies this, tabla, mem
      ensures Valid()
      ensures var s := old(AnilloCIRC());
              AnilloCIRC() == C.Anillo(
                EscribirValor(s.a.(tabla := Colocada(s.a.tabla, s.indice, cantPaginas, Entrada(clave, |valor|, 0))),
                              T, s.indice, valor),
                s.flag, s.indice + cantPaginas, Min(s.comienzo + cantPaginas, |s.a.tabla|))
      ensures listaClaves == old(listaClaves) - old(Giros.Nombradas(tabla[..], indexCircular, cantPaginas))
    {
      Ocupar(clave, |valor|, indexCircular, cantPaginas);
      comienzoDeEntradasLibres := Min(comienzoDeEntradasLibres + cantPaginas, tabla.Length);
      GuardarEnMem(valor, indexCircular);
      indexCircular := indexCircular + cantPaginas;
    }

    // ---- SET ----

    /** guardarEnClaves, for a key with no file yet: a file of zeros. Not ok is its exit, when the
        value has no bytes and mmap of a length 0 fails. */
    method GuardarEnClaves(clave: string, tamanio: nat) returns (ok: bool)
      requires T > 0
      modifies this`listaClaves
      ensures ok <==> clave in old(listaClaves) || tamanio > 0
      ensures listaClaves == if ok then Abrir(old(listaClaves), clave, tamanio, T) else old(listaClaves)
    {
      ok := true;
      if clave !in listaClaves {
        var cantPaginas := GetCantPaginas(tamanio);
        if cantPaginas == 0 { return false; }
        CotaIndice(0, cantPaginas, T);
        listaClaves := listaClaves[clave := seq(cantPaginas * T + 2, _ => NUL)];
      }
    }

    /** The slots from `e` that still name the key are freed; LRU also resets their age. */
    method LiberarSobrantes(clave: string, e: nat, conEdad: bool)
      modifies tabla
      ensures e > tabla.Length ==> tabla[..] == old(tabla[..])
      ensures e <= tabla.Length ==>
                var f := FinDeClave(old(tabla[..]), e, clave);
                tabla[..] == if conEdad then Liberada(old(tabla[..]), e, f) else C.SinClave(old(tabla[..]), e, f)
    {
      var i := e;
      while i < tabla.Length && tabla[i].clave == clave
        invariant e <= i && (e <= tabla.Length ==> i <= tabla.Length)
        invariant forall j | e <= j < i && j < tabla.Length :: old(tabla[j]).clave == clave
        invariant forall j | 0 <= j < tabla.Length ::
                    tabla[j] == if e <= j < i
                                then old(tabla[j]).(clave := VACIO, age := if conEdad then 0 else old(tabla[j]).age)
                                else old(tabla[j])
      {
        tabla[i] := tabla[i].(clave := VACIO);
        if conEdad {
          tabla[i] := tabla[i].(age := 0);
        }
        i := i + 1;
      }
      assert e <= tabla.Length ==> i == FinDeClave(old(tabla[..]), e, clave) by {
        if e <= tabla.Length {
          var f := FinDeClave(old(tabla[..]), e, clave);
          assert f < tabla.Length ==> old(tabla[..])[f].clave != clave;
          assert i < tabla.Length ==> old(tabla[..])[i].clave != clave;
        }
      }
    }

    method ActualizarLRU(clave: string, tamanio: nat, posicion: nat, cantPaginas: nat)
      requires posicion < tabla.Length
      modifies tabla
      ensures tabla[..] == Actualizada(old(tabla[..]), posicion, cantPaginas, clave, tamanio)
    {
      ghost var t := tabla[..];
      tabla[posicion] := tabla[posicion].(tamanio := tamanio, age := 0);
      assert tabla[..] == t[posicion := t[posicion].(tamanio := tamanio, age := 0)];
      LiberarSobrantes(clave, posicion + cantPaginas, true);
    }

    method ActualizarCIRC(clave: string, tamanio: nat, posicion: nat, cantPaginas: nat)
      requires posicion < tabla.Length
      modifies tabla
      ensures tabla[..] == C.ActualizadaCirc(old(tabla[..]), posicion, cantPaginas, clave, tamanio)
    {
      ghost var t := tabla[..];
      tabla[posicion] := tabla[posicion].(tamanio := tamanio);
      assert tabla[..] == t[posicion := t[posicion].(tamanio := tamanio)];
      LiberarSobrantes(clave, posicion + cantPaginas, false);
    }

    /** The SET message under LRU; the count of free slots goes to the coordinator. Not ok is the
        exit of a first SET with an empty value. Every key keeps a file, and no live slot records
        size 0, whatever the layout. */
    method SetLRU(clave: string, valor: string) returns (ok: bool, entradasLibres: nat)
      requires Valid() && clave != VACIO && LRURefina.Puede(MotorLRU(), T, clave, |valor|)
      modifies this, tabla, mem
      ensures Valid() && (ok <==> clave in old(listaClaves) || valor != "")
      ensures !ok ==> MotorLRU() == old(MotorLRU()) && listaClaves == old(listaClaves)
      ensures ok ==>
                && MotorLRU() == LRURefina.SetLRU(old(MotorLRU()), T, PorTamanio, clave, valor)
                && listaClaves == Abrir(old(listaClaves), clave, |valor|, T)
                && entradasLibres == Libres(tabla[..])
      ensures old(ConArchivo()) ==> ConArchivo()
      ensures old(SinCeros(tabla[..])) ==> SinCeros(tabla[..])
    {
      Archivos.SetConserva(MotorLRU(), T, PorTamanio, clave, valor);
      entradasLibres := 0;
      ok := GuardarEnClaves(clave, |valor|);
      if !ok { return; }
      var cantPaginas := GetCantPaginas(|valor|);
      var posicion, laMasVieja := ConsultarTablaLRU(clave);
      assert MotorLRU() == Envejecido(old(MotorLRU()), T);
      if posicion != -1 {
        ActualizarLRU(clave, |valor|, posicion, cantPaginas);
        GuardarEnMem(valor, posicion);
      } else {
        GuardarEnTablaLRU(clave, valor, cantPaginas, laMasVieja);
      }
      entradasLibres := FreeEntries();
    }

    /** The SET message under CIRC. Not ok is the exit of a first SET with an empty value. */
    method SetCIRC(clave: string, valor: string) returns (ok: bool, entradasLibres: nat)
      requires Valid() && clave != VACIO
      requires clave in listaClaves || valor != "" ==> C.Puede(AnilloCIRC(), T, PorTamanio, clave, valor)
      modifies this, tabla, mem
      ensures Valid() && (ok <==> clave in old(listaClaves) || valor != "")
      ensures !ok ==> AnilloCIRC() == old(AnilloCIRC()) && listaClaves == old(listaClaves)
      ensures ok ==>
                && AnilloCIRC() == C.SetCIRC(old(AnilloCIRC()), T, PorTamanio, clave, valor)
                && listaClaves == Abrir(old(listaClaves), clave, |valor|, T)
                                  - Giros.Reemplazadas(old(AnilloCIRC()), T, PorTamanio, clave, valor)
                && entradasLibres == Libres(tabla[..])
      ensures old(F.Uno(AnilloCIRC(), T) && ConArchivo()) && 1 <= |valor| <= T ==> ConArchivo()
    {
      entradasLibres := 0;
      ok := GuardarEnClaves(clave, |valor|);
      if !ok { return; }
      Giros.ArchivosQuedan(old(AnilloCIRC()), old(listaClaves), T, PorTamanio, clave, valor);
      var cantPaginas := GetCantPaginas(|valor|);
      var posicion := ConsultarTablaCIRC(clave);
      if posicion != -1 {
        ActualizarCIRC(clave, |valor|, posicion, cantPaginas);
        GuardarEnMem(valor, posicion);
      } else {
        GuardarEnTablaCIRC(clave, valor, cantPaginas);
      }
      entradasLibres := FreeEntries();
    }

    // ---- STORE and dump ----

    /** storeKey copies one byte past the value; false is the error reply to the coordinator. */
    method StoreKey(clave: string) returns (ok: bool)
      requires Valid() && (clave in Claves(tabla[..]) ==> clave in listaClaves) && clave != VACIO
      modifies this`listaClaves
      ensures ok <==> clave in Claves(tabla[..])
      ensures Tabla.ConsultarTabla(tabla[..], clave) != -1 ==> clave in old(listaClaves)
      ensures listaClaves == Guardar(old(listaClaves), Almacenado(), T, clave)
    {
      var posicion := ConsultarTabla(clave);
      assert posicion != -1 ==> tabla[..][posicion].clave in Claves(tabla[..]);
      if posicion == -1 {
        return false;
      }
      assert tabla[..][posicion].clave in Claves(tabla[..]);
      CopiarSlot(posicion, tabla[posicion].tamanio + 1);
      return true;
    }

    method CopiarSlot(i: nat, n: nat)
      requires Valid() && i < tabla.Length && tabla[i].clave in listaClaves && Viva(tabla[i])
      modifies this`listaClaves
      ensures 0 <= i * T <= mem.Length
      ensures var k := tabla[i].clave;
              listaClaves == old(listaClaves)[k := Pisar(old(listaClaves)[k], Leer(mem[..], i * T, n))]
    {
      CotaIndice(i, tabla.Length, T);
      CotaIndice(0, i, T);
      var ubicacionEnMem: nat := i * T;
      var hasta := Min(ubicacionEnMem + n, mem.Length);
      assert mem[..][ubicacionEnMem..hasta] == mem[ubicacionEnMem..hasta];
      listaClaves := listaClaves[tabla[i].clave := Pisar(listaClaves[tabla[i].clave], mem[ubicacionEnMem..hasta])];
    }

    /** One round of dump; false is its fatal error, at a slot it visits whose key has no file. With
        a live slot of size 0 it would not end. */
    method Dump() returns (ok: bool)
      requires Valid() && SinCeros(tabla[..])
      modifies this`listaClaves
      ensures ok <==> Encontradas(tabla[..], T, old(listaClaves.Keys), 0)
      ensures old(ConArchivo()) ==>
                ok && ConArchivo() && listaClaves == Volcar(old(listaClaves), Almacenado(), T, 0)
    {
      ghost var con := ConArchivo();
      var i := 0;
      ghost var fin := if con then Volcar(listaClaves, Almacenado(), T, 0) else listaClaves;
      ghost var todas := Encontradas(tabla[..], T, listaClaves.Keys, 0);
      while i < tabla.Length
        invariant listaClaves.Keys == old(listaClaves.Keys)
        invariant con ==> Volcar(listaClaves, Almacenado(), T, i) == fin
        invariant todas <==> Encontradas(tabla[..], T, listaClaves.Keys, i)
        decreases tabla.Length - i
      {
        EncontradasPaso(tabla[..], T, listaClaves.Keys, i);
        if Viva(tabla[i]) {
          if con { VolcarVivo(listaClaves, Almacenado(), T, i); }
          if tabla[i].clave !in listaClaves {
            return false;
          }
          CopiarSlot(i, tabla[i].tamanio);
          var cantPaginas := GetCantPaginas(tabla[i].tamanio);
          i := i + cantPaginas - 1;
        }
        i := i + 1;
      }
      return true;
    }
  }
}
