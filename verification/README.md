# A distributed key-value store with locks: model and proofs

Three processes share one store of keys and values.

- **Instancia** keeps values in a byte arena of `N` slots of `T` bytes beside a table of `N`
  entries (key, size, age). A value of L bytes takes ceil(L/T) slots in a row. SET finds room by
  first fit, compacts, and replaces by age (LRU) or by a circular index (CIRC); dump and STORE copy
  values to mapped files.
- **Planificador** gives the CPU to one ESI at a time (SJF-SD, SJF-CD or HRRN) and owns the locks:
  a list of owners, one queue of blocked ESIs a key, the ready list, the finished queue, the counter
  `hay_esis`, and the flags `block`, `abort_esi` and `fin_de_esi`. The console can free a key.
- **Coordinador** receives the GET, SET and STORE of the ESIs, asks the Planificador about the lock,
  keeps a dictionary of keys for each ESI, and sends each key to an instance: in turns (EL), to the
  one with most space (LSU), or by first letter (KE).

The code changes its state step by step, so each process is a class over arrays, sequences and maps
(`Instancia.dfy`, `Planificador.dfy`, `Coordinador.dfy`) whose methods are proved equal to functions
on plain values; the promises are then proved about those functions, over single steps and over all
runs. The other files, by component:

| files | about |
|---|---|
| `Tabla`, `Arena` | the table, its layout invariant, the bytes, `get_value`, the map that the arena stands for |
| `Compactacion`, `CompactacionUmbral` | compaction keeps the map; how large values may be for the copy as written |
| `LRU`, `LRUSet`, `LRURefina`, `Recencia` | termination, eviction, SET refines the map, ages and values over every run |
| `Cabida` | which insertions LRU can serve in a reachable state; small runs that reach what goes wrong |
| `Circular`, `Tendidos`, `Fifo` | termination under CIRC and where a value goes; values of any size until the index turns back; one-slot values form a bounded queue |
| `Volcado`, `Archivos`, `Giros` | dump visits each key once and copies its value; the mapped files over every run, under LRU and under CIRC |
| `Planificacion` | the scheduler as a machine: one function an operation, one step an event |
| `Exclusion`, `Lugares`, `SinPerdida`, `Claves`, `Relevos` | locks; where each ESI is; runs; owners and queues over runs; who gets a key and who is woken |
| `Despacho`, `Estimacion`, `Contabilidad` | the counter and the sort; HRRN estimates; what an ESI's fields count |
| `Coordinacion`, `Letras`, `Turnos`, `Asignaciones` | routing, the letters, the turns, and the instance that each GET is given to |
| `Respuestas`, `Informes` | the answers that wait in an instance's socket; the free space that the Coordinador records for it |
| `Sistema` | the three together, from an ESI's request to the instance that gets it |
| `Casos`, `Robada` | runs from the start that reach the states where the scheduler loses an ESI or a key |
| `Opciones` | a value or none |

## Where the code falls short of its intent

Each is proved: a condition that decides when the code is right, or an input or a run that fails it, or both.

- `compactar` copies `tamanio` bytes for every slot it moves, not one slot (Instancia/src/Instancia.c:582).
  The map is kept for all arenas exactly when no slot records more than `2T` bytes
  (`UmbralDeCompactar`, `ContraEjemplo`), and a wider first gap does not help (`HuecoAncho`).
  `CorrompeAlcanzable` is, for every T, a clean run that reaches a corrupted value. Copying one slot's
  bytes is right for all sizes (`CompactarConserva` with `PorSlot`).
- `guardarEnMem` writes a NUL after the value. When the value fills its slots exactly the NUL falls
  on the next slot; SET refines the map exactly when that slot is not live or begins with a NUL already
  (`SetRefina`, `SetEsFifo`). `PisaAlcanzable` is a clean run and then a SET whose NUL changes a value.
- An update never takes more slots than its key has. SET keeps the layout exactly when it does not
  grow a key in place (`SetDisposicion`), and one that does keeps the other values exactly when it
  writes over them what they already hold (`SetRefina`); `CrecerPisa` shows a neighbour destroyed.
- The LRU recursion compacts and evicts with one fixed age. It ends exactly when the slots asked for
  fit in the free ones plus those of that age (`TerminaSiiCabe`); in every reachable state that is the
  free slots and at most one more (`PuedeSii`). `SinLugarAlcanzable` is a clean run and then a SET that
  never returns. With `flagCompactar` at 1 it evicts even where a compaction would do.
- An empty value removes the key under LRU (`SetClaves`), and as the first value of a key it makes the
  process exit, for a file of no bytes cannot be mapped (`GuardarEnClaves`).
- A mapped file has for ever the length that the first value of its key asked for, and under LRU an
  eviction does not give it up. A dump or STORE writes the whole value exactly when it fits
  (`CopiadoLRU`); `ArchivoCorto` is a run where it does not. Under CIRC with one-slot values it always
  does (`CopiadoEntero`).
- A compaction asked for by the Coordinador moves `indexCircular`, and breaks the order of a full CIRC
  table unless the index was at its end (`CompactarFifo`, `PedidoDesordena`).
- `block` is cleared only by the next GET (Planificador/src/Planificador.c:553). An ESI that ends
  while it is stale is put in no list and is lost, and only then (`InstruccionPartida`,
  `PerdidaAlcanzable`). No ESI does while every turn on the CPU begins with a GET (`GetBasta`); such
  ESIs are then lost to the console alone, and only under SJF-CD (`DisciplinaBasta`). One lost with an abort
  also leaves `abort_esi` set, and then an ESI that blocks keeps the CPU (`BloqueaDeja`).
- `calculate_estimation` weighs the instructions run against the estimate before the last one, truncated,
  and not against the last one. It comes to the same exactly when alpha is 100 or the two agree
  (`EstimarAcierta`); `EstimarFalla` is an ESI for which it does not.
- Under SJF-CD the console's unlock compares with `un_esi` even when no ESI has the CPU; it misplaces
  an ESI exactly then (`ConsolaPartida`, `IntrusoAlcanzable`).
- Under SJF-CD a STORE may hand the CPU over in mid-instruction, and if it is the last of its script the
  end is charged to the woken ESI, which loses its keys. Owners and dictionaries part exactly then, or
  when the console frees a key that a connected ESI owns (`ActuarIguales`, `RoboAlcanzable`).
- `save_on_instance` tries the first active holder of a key and no other (`SaveOnInstanceLlega`,
  `OtraTenedora`), so the owner's SET or STORE fails exactly when that one does not answer, or none is
  active (`ElDuenioPuede`).
- `choose_by_counter` does not look before the pointer: with no active instance at or after it the last
  of the list is taken although inactive (`ContadorElige`, `EligeInactiva`).
- A simulated choice, made for STATUS, moves the turn on if the pointer is on an inactive instance
  (`SimuladaAvanza`); alternating with real ones it can keep an active instance from ever being chosen
  (`Hambre`).
- A STORE of a key that was replaced makes the instance answer twice (Instancia/src/Instancia.c:726, 467)
  and the Coordinador reads one answer, takes it for success and leaves the other for the next operation
  (Coordinador/src/Coordinador.c:322). From then on what a SET records under LSU
  is the number in an earlier answer, whatever it reports; until then it is its report (`InformeExacto`).
  `InformeAtrasado` is a run that gets there, and `PeorElegida` a wrong choice that follows.
- `assign_letters` divides by zero exactly when the last active instance goes (`CambiarLetras`), and a key
  that does not begin with a letter A to Z has no instance (`LetraLlega`).

## Readings

- Keys are already case-folded, and no key is "vacio".
- Loop guards that read an array before testing the index test the index first
  (Instancia/src/Instancia.c:386, 408, 568, 601).
- A `memcpy` within the arena is read as one that copies what was there before it; bytes past the end of
  the arena are dropped.
- `esi_has_key` returns what its missing `return` was to give (Planificador/src/Planificador.c:894).
- `list_sort` is a stable sort. `list_find`, queues and dictionaries are sequences and maps.
- The machine of the Planificador takes the exchange of one instruction, from header 21 to the answer of
  the ESI, as one step; new ESIs and console unlocks come between instructions.
- `test_connection` is a set of instances that respond while an operation lasts.

## Model

| member | source | states |
|---|---|---|
| `Tabla.PaginasEsTecho` | Instancia/src/Instancia.c:620-632 | counting slot by slot is the rounded-up quotient of getCantPaginas, and so many slots, and no fewer, hold the value |
| `Tabla.ConsultarTabla` | Instancia/src/Instancia.c:255-265 | the first slot that names the key, or -1 when none does |
| `Compactacion.CompactarConserva` | Instancia/src/Instancia.c:557-607 | compaction keeps the map, the layout, every live cell byte for byte with its age and their order, and the number of free slots; as written when all sizes are at most 2T, slot by slot for all sizes |
| `Compactacion.CompactarIdempotente` | Instancia/src/Instancia.c:557-607 | a second compaction changes nothing, whatever the layout and the sizes |
| `Compactacion.CompactarTabla` | Instancia/src/Instancia.c:564-607 | whatever the sizes, the table afterwards is its live entries in order and then free slots; the first free slot is the number of live ones |
| `Compactacion.CompactarDisposicion` | Instancia/src/Instancia.c:564-597 | compaction keeps each key's run in one piece, whatever is copied |
| `CompactacionUmbral.UmbralDeCompactar` | Instancia/src/Instancia.c:580-582 | copying `tamanio` bytes a slot keeps the map of every arena with sizes up to B exactly when B is at most 2T |
| `CompactacionUmbral.ContraEjemplo` | Instancia/src/Instancia.c:580-582 | for every slot size, an arena with a value of 2T+1 bytes that a compaction corrupts |
| `CompactacionUmbral.HuecoAncho` | Instancia/src/Instancia.c:573-591 | an arena whose first gap has four slots, with no value over five slots of one byte, that a compaction corrupts: a gap of one slot opens among what was moved |
| `LRU.MasVieja` | Instancia/src/Instancia.c:206-230 | the largest age, never below 0 |
| `LRU.BuscarDesde` | Instancia/src/Instancia.c:232-253 | the leftmost place with that many free slots in a row; -1 exactly when there is none |
| `LRU.BuscarEnApretada` | Instancia/src/Instancia.c:232-253 | after a compaction the search succeeds exactly when there are slots enough, and gives the first free one |
| `LRU.TerminaSiiCabe` | Instancia/src/Instancia.c:685-720 | from either flagCompactar the recursion of guardarEnTablaLRU ends exactly when the slots fit in the free ones plus those of laMasVieja, and then within three more activations |
| `LRUSet.EnvejecerConserva` | Instancia/src/Instancia.c:206-230 | ageing changes no key, no value and no layout |
| `LRUSet.DesalojarConserva` | Instancia/src/Instancia.c:707-714 | an eviction removes the single-slot keys of that age and keeps every other value |
| `LRUSet.HacerLugarMapa` | Instancia/src/Instancia.c:685-720 | whatever it compacts and evicts on the way to room, the map loses the victims and nothing else, as long as the compaction can be trusted: slots of at most 2T bytes as written, any slot by slot |
| `LRUSet.EscrituraMapa` | Instancia/src/Instancia.c:267-271 | a write of a value and its NUL changes the map at its own key only, exactly when the NUL falls on no live slot, or on one that begins with a NUL |
| `LRURefina.SetRefina` | Instancia/src/Instancia.c:395-417 | SET under LRU, values of any number of slots: the map loses the evicted key and gains the value, nothing else, exactly when the NUL, where the value is put, falls on no live slot or on one that begins with a NUL, or, where the key grows in place, when the bytes written past its slots are those already there and inside the arena |
| `LRURefina.SetDisposicion` | Instancia/src/Instancia.c:403-417 | SET keeps one run a key exactly when it does not grow the key in place |
| `LRURefina.SetClaves` | Instancia/src/Instancia.c:395-417 | the keys afterwards: those before, less the victims, and the one set unless its value is empty; growing in place too |
| `LRURefina.CrecerPisa` | Instancia/src/Instancia.c:403-414 | an update that grows a value and destroys its neighbour's |
| `LRURefina.SetBandera` | Instancia/src/Instancia.c:685-720 | flagCompactar after a SET: an update or a hole leaves it, a compaction that was enough sets it, and an eviction clears it unless one more compaction had to follow |
| `LRURefina.SetCrece` | Instancia/src/Instancia.c:403-414 | exactly when a SET that grows a key in place leaves every other value as it was |
| `Recencia.CorridaConserva` | Instancia/src/Instancia.c:337-423 | every run of SETs and compactions from the empty table in which no SET grows a key in place keeps the layout, and each single-slot age is the number of SETs since the key's last one |
| `Recencia.VictimaMenosReciente` | Instancia/src/Instancia.c:206-230 | in every reachable state a SET evicts at most one key, single-slot, and the least recently SET of those |
| `Recencia.DesalojaUna` | Instancia/src/Instancia.c:206-230 | in every reachable state an insertion that comes to evict evicts exactly one key, unless no single-slot key is stored; a freed slot never counts as the oldest |
| `Recencia.PasoAlDia` | Instancia/src/Instancia.c:395-417 | where every stored value is the last one SET, a SET keeps it so exactly when its terminator changes no live slot, and a trusted compaction always |
| `Recencia.CorridaAlDia` | Instancia/src/Instancia.c:781-799 | after any run whose terminators change no live slot and whose values the copy can be trusted with, get_value gives the last value SET for every key stored |
| `Cabida.PuedeSii` | Instancia/src/Instancia.c:685-720 | in every reachable state a SET of a new key returns exactly when its slots are at most the free ones, and one more if a single-slot key is stored |
| `Cabida.SinLugarAlcanzable` | Instancia/src/Instancia.c:685-720 | a clean run after which a SET never returns |
| `Cabida.PisaAlcanzable` | Instancia/src/Instancia.c:267-271 | a clean run after which a SET makes another key read the NUL |
| `Cabida.CorrompeAlcanzable` | Instancia/src/Instancia.c:580-582 | for every slot size, a clean run of SETs on four slots after which a compaction corrupts a stored value |
| `Cabida.ArchivoCorto` | Instancia/src/Instancia.c:308-324 | a run, with an eviction, after which a dump writes a part of a value |
| `Archivos.SetConserva` | Instancia/src/Instancia.c:395-417 | a SET, growing or not, on any table, leaves no key but those before and its own, and no live slot of size 0 |
| `Archivos.ArchivosSiempre` | Instancia/src/Instancia.c:753-773 | at every point of every run of SETs, compactions, dumps and STOREs under LRU a dump ends and finds the file of every key, no STORE follows a null pointer, and each file is as long as the first value of its key asked for |
| `Archivos.CopiadoLRU` | Instancia/src/Instancia.c:722-773 | in any run that grows no key in place a dump, or a STORE of the key, leaves the file of a stored key beginning with its value exactly when it fits that length; in a clean run that value is the last one SET |
| `Archivos.Perdura` | Instancia/src/Instancia.c:722-773 | in any clean run, from a dump or STORE of a stored key on and until the key is SET again, its file begins with its last value exactly when that fits, through any other SET, compaction, dump or STORE and even once the key is evicted |
| `Circular.TerminaSiiCamina` | Instancia/src/Instancia.c:634-683 | for a value that is not empty the recursion of guardarEnTablaCIRC ends exactly when one of the walks ahead of it meets a slot it may overwrite with room from there |
| `Circular.UbicarEs` | Instancia/src/Instancia.c:634-683 | where a value goes, on any table and from any index: where the walk over values of several slots ends from the index, or from 0 if flagCompactar is 1, or after a compaction from the first free slot or else from 0; and the flag left |
| `Circular.InsertadoDetras` | Instancia/src/Instancia.c:646-661 | after any insertion the slots before the index, as many as the value takes, are the new key's with its size, and no other slot changes |
| `Tendidos.PonerTiende` | Instancia/src/Instancia.c:374-393 | values of any number of slots, while no slot from the index on was ever used and none grows in place: a new value goes behind the others and moves the index by its slots, an updated one keeps its place, the others stay, and the map changes as it should exactly when the NUL changes no live slot |
| `Tendidos.TendidosSiempre` | Instancia/src/Instancia.c:634-661 | over every run of such SETs the index and comienzoDeEntradasLibres are the sum of the slots inserted, a key is stored exactly when its last SET had a value, on just the slots of that value from the place where it was inserted, and the short scan finds it there |
| `Tendidos.TendidosAlDia` | Instancia/src/Instancia.c:781-799 | and while no terminator changes a live slot every stored key reads the last value SET under it |
| `Fifo.ConsultaCortaExacta` | Instancia/src/Instancia.c:195-204 | the scan below comienzoDeEntradasLibres gives what the full scan gives |
| `Fifo.SetEsFifo` | Instancia/src/Instancia.c:374-393 | with one-slot values SET is a bounded queue: an update keeps the order, a new key goes last and a full table drops the oldest; the map follows exactly when the NUL falls on no live slot, or on one that begins with a NUL |
| `Fifo.CompactarFifo` | Instancia/src/Instancia.c:339-345 | a compaction on request keeps the order of the queue exactly when there is room or the index was at the end |
| `Giros.Correr` | Instancia/src/Instancia.c:634-683 | any run of one-slot SETs and compaction requests from the empty table keeps the invariant of the short scan, and the names alone decide which slot holds which key and where the index stands |
| `Giros.ConsultaSiempreExacta` | Instancia/src/Instancia.c:195-204 | after any such run the short scan gives what the full scan gives, and finds exactly the names of the reference wheel |
| `Giros.GirosFifo` | Instancia/src/Instancia.c:634-683 | such a run is a first-in first-out queue of its keys as long as no compaction is asked for while the index of a full table stands elsewhere |
| `Giros.PedidoDesordena` | Instancia/src/Instancia.c:339-345 | a run in which a compaction on request makes the next SET overwrite a key that is not the oldest |
| `Giros.GirosAlDia` | Instancia/src/Instancia.c:781-799 | after any such run whose terminators change no live slot every stored key reads the last value SET under it |
| `Giros.ArchivosCIRC` | Instancia/src/Instancia.c:646-657 | a one-slot SET gives up the file of the key it overwrites and of no other: the keys with a file stay those of the table |
| `Giros.Sucedidos` | Instancia/src/Instancia.c:646-657 | after any run of one-slot SETs, compaction requests, dumps and STOREs exactly the keys of the table have a file, of T + 2 bytes |
| `Giros.CopiadoEntero` | Instancia/src/Instancia.c:722-773 | after any such run a dump leaves the file of every stored key beginning with its whole value, and a STORE that of its key; in a clean run, the last one SET |
| `Volcado.VolcadoVisitaTodo` | Instancia/src/Instancia.c:753-773 | the walk of dump visits every live key once, at the slot consultarTabla finds; free_entries is N less the slots of the visited values |
| `Volcado.VolcadoFiel` | Instancia/src/Instancia.c:753-773 | a dump changes no file's length; the file of a live key becomes as much of its get_value as fits and then what it held, so it begins with the value exactly when that fits; no other file changes |
| `Volcado.GuardadoFiel` | Instancia/src/Instancia.c:722-738 | after a STORE the file of a stored key begins with its get_value exactly when that fits, then comes the byte that follows it in the arena, and the rest is what it was; no other file changes, and none at all for a key not stored |
| `Instancias.Instancia.constructor` | Instancia/src/Instancia.c:186-193 | an empty table, an arena of N*T bytes, both indexes at 0 |
| `Instancias.Instancia.GetCantPaginas` | Instancia/src/Instancia.c:620-632 | the number of slots of a value |
| `Instancias.Instancia.ConsultarTabla` | Instancia/src/Instancia.c:255-265 | the loop finds the first slot of the key |
| `Instancias.Instancia.ConsultarTablaCIRC` | Instancia/src/Instancia.c:195-204 | the same, below comienzoDeEntradasLibres |
| `Instancias.Instancia.ConsultarTablaLRU` | Instancia/src/Instancia.c:206-230 | one pass ages the table, finds the key and the largest age |
| `Instancias.Instancia.BuscarEspacioLibre` | Instancia/src/Instancia.c:232-253 | the counting loop is the leftmost first fit |
| `Instancias.Instancia.FreeEntries` | Instancia/src/Instancia.c:533-544 | the number of free slots |
| `Instancias.Instancia.GuardarEnMem` | Instancia/src/Instancia.c:267-271 | the arena afterwards, NUL and all |
| `Instancias.Instancia.GetValue` | Instancia/src/Instancia.c:781-799 | the bytes of the key's value, or none |
| `Instancias.Instancia.Compactar` | Instancia/src/Instancia.c:557-607 | table and arena in place are the compaction the lemmas are about; both indexes at the first free slot |
| `Instancias.Instancia.Desalojar` | Instancia/src/Instancia.c:708-713 | every slot of that age, and no other, is freed |
| `Instancias.Instancia.GuardarEnTablaLRU` | Instancia/src/Instancia.c:685-720 | terminates under the bound and leaves the insertion the lemmas are about |
| `Instancias.Instancia.GuardarEnTablaCIRC` | Instancia/src/Instancia.c:634-683 | terminates when a walk ahead succeeds, and leaves that insertion; the files of the overwritten keys go |
| `Instancias.Instancia.SetLRU` | Instancia/src/Instancia.c:364-423 | the SET message: the engine afterwards, the count of free slots reported, the file of a new key; whatever the layout every key of the table keeps a file and no live slot has size 0; the exit for an empty first value |
| `Instancias.Instancia.SetCIRC` | Instancia/src/Instancia.c:364-393 | the same under CIRC, and exactly the files it gives up; every key still has its file while values fit one slot; the exit for an empty first value |
| `Instancias.Instancia.StoreKey` | Instancia/src/Instancia.c:722-738 | an error for a key not in the table, else the start of its file, as far as it goes, is the value and one byte more |
| `Instancias.Instancia.Dump` | Instancia/src/Instancia.c:753-773 | with no live slot of size 0 a round ends; it fails exactly when it visits a key with no file; where every key has one, each visited value is copied into its file |
| `Instancias.Instancia.GuardarEnClaves` | Instancia/src/Instancia.c:287-335 | a key with no file gets one of zeros, as long as its value asks for; the exit exactly for a new key with no bytes |
| `Planificacion.Ordenar` | Planificador/src/Planificador.c:767-789 | sorting keeps the ESIs, each as often as before |
| `Planificacion.Primera` | Planificador/src/Planificador.c:854-863 | the first owner entry that satisfies the condition, or -1 |
| `Exclusion.CheckKeySana` | Planificador/src/Planificador.c:548-628 | a GET keeps one owner a key and the console at the head of queues of unowned keys |
| `Exclusion.UnlockKeySana` | Planificador/src/Planificador.c:635-726 | so does a STORE, which never wakes the console |
| `Exclusion.ReleaseKeysSana` | Planificador/src/Planificador.c:846-865 | so does the release of all the keys of an ESI |
| `Exclusion.UnlockKeyByConsoleSana` | Planificador/src/Consola.c:240-347 | so does the console's unlock |
| `Exclusion.PasoSano` | Planificador/src/Planificador.c:62-127 | so does every event, under each algorithm and whatever the flags |
| `SinPerdida.SanaSiempre` | Planificador/src/Planificador.c:62-127 | mutual exclusion in every state that any run reaches |
| `Lugares.InstruccionPartida` | Planificador/src/Planificador.c:80-126 | an instruction leaves every ESI in exactly one of CPU, ready, one queue, finished, exactly when its ESI does not end while `block` is stale |
| `Lugares.InstruccionPierde` | Planificador/src/Planificador.c:809-821 | an ESI that ends while `block` is stale is in none of them |
| `Lugares.BloqueaDeja` | Planificador/src/Planificador.c:90-103 | an ESI that blocks is in the queue and leaves the CPU exactly when `abort_esi` is clear |
| `Casos.PerdidaAlcanzable` | Planificador/src/Planificador.c:809-821 | a run from the start, under each algorithm, that reaches such an end |
| `SinPerdida.ConsolaPartida` | Planificador/src/Consola.c:240-347 | the console's unlock keeps every ESI in one place exactly when it hands no free CPU to an ESI under SJF-CD; before the first dispatch it wakes nobody |
| `Casos.IntrusoAlcanzable` | Planificador/src/Consola.c:240-347 | a run from the start after which the console's unlock hands a free CPU to an ESI |
| `SinPerdida.PasoPartido` | Planificador/src/Planificador.c:62-127 | the same for every event: no ESI lost or doubled exactly when the event is neither of the two |
| `SinPerdida.PartidaSiempre` | Planificador/src/Planificador.c:62-127 | over every run without such events every ESI that connected is in exactly one place |
| `SinPerdida.GetBasta` | Planificador/src/Planificador.c:548-553 | if every turn on the CPU begins with a GET no ESI ends under a stale `block`, over any run, whatever the console does and whether or not ESIs have been lost |
| `SinPerdida.DisciplinaBasta` | Planificador/src/Planificador.c:548-553 | such a run loses no ESI exactly when no console unlock of it hands a free CPU to an ESI, which is so of every run that is not under SJF-CD |
| `Despacho.PlanificadorSiempre` | Planificador/src/Planificador.c:62-127 | after any run from the start: at most one owner a key, a queue for every owned key, CONSOLA only heads queues of unowned keys and never runs or is ready, and hay_esis is the ready list less the silent wake-ups |
| `Despacho.ContadoSiempre` | Planificador/src/Planificador.c:104-123 | in every reachable state a dispatch that the semaphore allows finds the ready list non-empty; the difference is the wake-ups of unlock_esi |
| `Despacho.OrdenarAscendente` | Planificador/src/Planificador.c:767-789 | the list sorted stands in the order of the algorithm |
| `Despacho.OrdenarEstable` | Planificador/src/Planificador.c:767-789 | ESIs that the comparison does not tell apart keep the order they had |
| `Despacho.DespachoMejor` | Planificador/src/Planificador.c:104-123 | a dispatch takes an ESI that no ready one beats and keeps the others; the first one takes the first that came |
| `Estimacion.CotaSiiAlfa` | Planificador/src/Planificador.c:753-765 | calculate_estimation keeps all estimates between 1 and max(initial, instructions run) exactly for alpha in 0..100 |
| `Estimacion.RazonDefinida` | Planificador/src/Planificador.c:791-799 | on such an estimate the response ratio is defined, is the wait plus the estimate for each unit of the estimate, at least 1, and 1 exactly when the ESI has not waited |
| `Estimacion.RazonCompara` | Planificador/src/Planificador.c:777-799 | one ratio is at least another exactly when the first wait times the second estimate is at least the second wait times the first estimate |
| `Estimacion.DespachoHRRN` | Planificador/src/Planificador.c:104-123 | in every state that a run under HRRN reaches, a dispatch takes an ESI that no ready one has waited longer than for what it is expected to need, and leaves the others in that order |
| `Estimacion.TruncarHaciaCero` | Planificador/src/Planificador.c:756 | the older estimate loses its fraction, towards zero |
| `Estimacion.EstimadaSiempre` | Planificador/src/Planificador.c:728-765 | over every run under HRRN all estimates keep those bounds and every queued ESI has run an instruction |
| `Estimacion.RazonSiempre` | Planificador/src/Planificador.c:791-799 | from the start and after any run no ready ESI makes response_ratio divide by zero |
| `Estimacion.EstimarAcierta` | Planificador/src/Planificador.c:753-765 | calculate_estimation is the exponential average of the instructions run and the last estimate exactly when alpha is 100 or the estimate before it, truncated, equals it |
| `Estimacion.EstimarFalla` | Planificador/src/Planificador.c:753-765 | an ESI whose second estimate is 6 and should be 3.75 |
| `Contabilidad.PasoCuenta` | Planificador/src/Planificador.c:728-730 | in every event instructions_counter grows, by one, for the ESI that has the CPU when its question is answered and for no other |
| `Contabilidad.CuentaSiempre` | Planificador/src/Planificador.c:728-730 | over every run it grows by the instructions charged to the ESI |
| `Contabilidad.EsperaPaso` | Planificador/src/Planificador.c:835-844 | under HRRN a ready ESI waits one more for each instruction that another runs, and nothing else changes in it |
| `Contabilidad.EsperaSiempre` | Planificador/src/Planificador.c:835-844 | so, in a run that loses no ESI, its wait over any stay in the ready list is the number of instructions the others ran |
| `Contabilidad.DespiertaFresco` | Planificador/src/Planificador.c:711-722 | under HRRN an ESI that an event makes ready has waited 1 if the question of that event, a STORE, woke it, and 0 if it came, a release woke it or the console did |
| `Contabilidad.CorredorPaso` | Planificador/src/Planificador.c:728-751 | an ESI that runs an instruction without being preempted has run one more and, under SJF, is expected to need one less; nothing else in it changes, however the instruction ends |
| `Claves.ReservasPaso` | Planificador/src/Planificador.c:80-126 | the owners after any event, exactly and whatever `block` and `abort_esi` say: those before and the one granted, less what a STORE, a good end or the console lets go |
| `Claves.ReleaseKeysReservas` | Planificador/src/Planificador.c:846-865 | an ESI's release takes all its keys and nobody else's |
| `Claves.ReservaDura` | Planificador/src/Planificador.c:548-628 | in every run from the start, ESIs lost or not, an owned key stays with its owner and is granted to nobody until that owner or the console lets it go |
| `Claves.EntreConcesiones` | Planificador/src/Planificador.c:548-628 | between two grants of a key its first owner or the console released it |
| `Claves.ColaFifo` | Planificador/src/Planificador.c:601-626 | over every run those who were in a key's queue or came to it, in order, are those who left followed by those in it now |
| `Relevos.GetExacto` | Planificador/src/Planificador.c:548-628 | a GET is granted exactly when nobody owns the key and nobody stands in its queue: its ESI is then the last in the list of owners and `block` is clear; otherwise it is last in the queue and `block` is set; nothing else changes |
| `Relevos.StoreReleva` | Planificador/src/Planificador.c:635-726 | a STORE by the owner of a key that is waited for: the first in the queue is estimated again and is ready, or, under SJF-CD and if it needs less, has the CPU with the other one ready; the rest of the queue stays, hay_esis is posted once and the list is sorted |
| `Relevos.StoreSolo` | Planificador/src/Planificador.c:635-656 | with nobody waiting a STORE only takes the owner out, and by another it changes nothing |
| `Relevos.ConsolaReleva` | Planificador/src/Consola.c:240-347 | the console's unlock: every owner of the key goes, and CONSOLA if it is first in the queue; the first of the others is woken in the same way, to the end of the ready list, which is not sorted |
| `Relevos.ReleaseReleva` | Planificador/src/Planificador.c:846-963 | a release of all the keys of an ESI: for each, in the order of the list of owners, the first in its queue is estimated again and goes to the end of the ready list; no other queue changes, hay_esis is not posted and nothing is sorted |
| `Planificadores.Planificador.constructor` | Planificador/src/Planificador.c:187-206 | every configured key starts with CONSOLA alone in its queue |
| `Planificadores.Planificador.CheckKey` | Planificador/src/Planificador.c:548-628 | the state and the answer of a GET: 31 exactly when nobody owns the key or stands in its queue |
| `Planificadores.Planificador.CalculateEstimation` | Planificador/src/Planificador.c:753-765 | the new estimate, with the previous one truncated |
| `Planificadores.Planificador.SortListByAlgorithm` | Planificador/src/Planificador.c:767-789 | the ready list is sorted in place by insertion |
| `Planificadores.Planificador.UnlockKey` | Planificador/src/Planificador.c:635-726 | the state and the answer of a STORE, under the three algorithms |
| `Planificadores.Planificador.UnlockEsi` | Planificador/src/Planificador.c:922-963 | the wake-up of a release, without a post |
| `Planificadores.Planificador.ReleaseKeysAndUnlockEsis` | Planificador/src/Planificador.c:846-865 | the loop releases all the keys of the ESI, waking one ESI each |
| `Planificadores.Planificador.FinishEsi` | Planificador/src/Planificador.c:809-821 | nothing while `block`, else the finished queue and, unless aborting, the release |
| `Planificadores.Planificador.UpdateValues` | Planificador/src/Planificador.c:728-751 | the instruction is counted and, under HRRN, every ready ESI waits one more |
| `Planificadores.Planificador.UnlockKeyByConsole` | Planificador/src/Consola.c:240-347 | the owner goes, the console leaves the queue, and the next ESI wakes |
| `Planificadores.Planificador.ListBlockedEsis` | Planificador/src/Consola.c:349-374 | rotating the queue once lists it and leaves it as it was |
| `Planificadores.Planificador.WaitQuestion` | Planificador/src/Planificador.c:458-521 | the state after each question, and the answer to a SET |
| `Planificadores.Planificador.EjecutarInstruccion` | Planificador/src/Planificador.c:80-126 | a turn of the loop of main is the step the invariants are about |
| `Planificadores.Planificador.NewEsi` | Planificador/src/Planificador.c:338-366 | a new ESI is ready with the initial estimate, and posted |
| `Planificadores.Planificador.Dispatch` | Planificador/src/Planificador.c:104-125 | the sort and the removal of the first are the dispatch the lemmas are about |
| `Coordinacion.Buscar` | Coordinador/src/Coordinador.c:1374-1397 | the first instance that satisfies the condition, or -1 |
| `Coordinacion.ChooseBySpace` | Coordinador/src/Coordinador.c:1340-1358 | an active instance that no active one has more free space than; none exactly when none is active |
| `Coordinacion.AssignInstanceAnota` | Coordinador/src/Coordinador.c:1079-1118 | a GET of a key whose first holder responds changes nothing; any other gives the key to one instance, which holds it afterwards, and takes none from any |
| `Coordinacion.DesconectarCae` | Coordinador/src/Coordinador.c:1275-1298 | a disconnected instance is inactive and has no letters, with the keys and the free space it had; nothing else changes but the letters of the others |
| `Coordinacion.ConectarRevive` | Coordinador/src/Coordinador.c:1188-1230 | the first instance of the name is active again with its keys, or else a new one is last with none; the others stay but for their letters |
| `Coordinacion.SaveOnInstanceLlega` | Coordinador/src/Coordinador.c:1149-1186 | a SET or STORE goes to the first active holder if it answers, and to none exactly when there is none or it does not; one that does not answer is inactive from then on, and no other goes |
| `Coordinacion.OtraTenedora` | Coordinador/src/Coordinador.c:1153-1159 | a key gets a second active holder, the first stops answering, and the operation reaches none |
| `Coordinacion.SaveOnInstanceCae` | Coordinador/src/Coordinador.c:1149-1186 | for a key some instance holds, no null pointer is followed; a crash is exactly the loss of the last instance under KE |
| `Coordinacion.SetInforma` | Coordinador/src/Coordinador.c:951-973 | one step: under LSU a SET puts the number that the Coordinador reads as the report into the free space of the instance it reaches, and changes that of no other; no other algorithm changes any |
| `Respuestas.SiempreResponde` | Coordinador/src/Coordinador.c:250-345 | over every run of operations on an instance none waits for ever for an answer; all that was sent has been read exactly when no STORE was of an absent key; and then, under LSU, the free space is the last report |
| `Respuestas.InformeExacto` | Coordinador/src/Coordinador.c:577-597 | the next SET's report is the one recorded exactly when no STORE of an absent key has reached the instance; after one, the number recorded is the same whatever the SET reports |
| `Respuestas.AtrasoExacto` | Instancia/src/Instancia.c:722-726 | without compaction notices what an operation reads is the answer sent just as many before the last as there were STOREs of absent keys |
| `Respuestas.Atrasada` | Coordinador/src/Coordinador.c:304-322 | a run after which each report is recorded one SET late |
| `Respuestas.PeorElegida` | Coordinador/src/Coordinador.c:1340-1358 | choose_by_space then passes over the instance with most free slots |
| `Informes.InformeLRU` | Instancia/src/Instancia.c:420-423 | in every run of an LRU instance under LSU whose STOREs all find their key the free space recorded is the number of free slots, from the first SET on; nothing is left unread exactly in those runs |
| `Informes.InformeAtrasado` | Instancia/src/Instancia.c:722-726 | a run of an LRU instance, with an eviction and a STORE of the evicted key, after which three slots are free and none recorded |
| `Letras.AssignLettersReparte` | Coordinador/src/Coordinador.c:1232-1273 | with any number of active instances the letters A to Z are all given, inactive ones get none, and two ranges are the same or apart |
| `Letras.CambiarLetras` | Coordinador/src/Coordinador.c:1188-1298 | a connection or disconnection keeps that, and divides by zero exactly when the last active instance goes |
| `Letras.LetraLlega` | Coordinador/src/Coordinador.c:1360-1372 | after any run of them a key that begins with a letter, of either case, goes to the first instance whose range holds that letter, which is active, and any other key to none |
| `Letras.LetrasDeCada` | Coordinador/src/Coordinador.c:1232-1273 | each of n active instances gets in order the next ceil(26/n) letters while so many are left, and all the rest get the same ones, those that are left |
| `Letras.ColasIguales` | Coordinador/src/Coordinador.c:1263-1268 | with eight instances the last two share Y and Z |
| `Turnos.ContadorElige` | Coordinador/src/Coordinador.c:1320-1338 | the first active instance at or after the pointer if there is one, else the last; the pointer goes past it, except in a simulated choice of the active one it is on |
| `Turnos.EligeInactiva` | Coordinador/src/Coordinador.c:1320-1338 | two instances, the first active, and the inactive one is chosen |
| `Turnos.Equitativa` | Coordinador/src/Coordinador.c:1320-1338 | whatever the list and the pointer, k real choices take each of the n instances that are active or last floor or ceiling of k/n times and no other, with any simulated choices among them that find the pointer on an active instance |
| `Turnos.ParticipanActivos` | Coordinador/src/Coordinador.c:1320-1338 | that n is the number of active ones, and one more if the last is not; no turn is skipped without simulated choices, nor with all instances active |
| `Asignaciones.GetAsigna` | Coordinador/src/Coordinador.c:1079-1118 | a GET whose first holder does not respond, or is inactive, or that has none: under EL it goes to the first active instance from the pointer on, or the last, after those tried that did not respond, and the pointer stands behind it; under LSU to an active one with the most free space; under KE to the first whose range holds the letter; only instances that do not respond go inactive |
| `Asignaciones.EmpatesEnTurno` | Coordinador/src/Coordinador.c:1340-1358 | among the instances with the most free space the one that the pointer numbers is taken, or the first, and a real choice moves the pointer to the next |
| `Asignaciones.GetsEnTurno` | Coordinador/src/Coordinador.c:1079-1118 | under EL, over any run of GETs of new keys with every active instance responding, each key goes to the instance whose turn it is and to no other |
| `Asignaciones.GetsRepartidos` | Coordinador/src/Coordinador.c:1079-1118 | so of k new keys each of the n instances that are active or last gets floor or ceiling of k/n, and the others none |
| `Turnos.SimuladaAvanza` | Coordinador/src/Coordinador.c:1326-1327 | a simulated choice leaves the pointer if the instance there is active, and otherwise moves it as a real one would |
| `Turnos.Hambre` | Coordinador/src/Coordinador.c:1072-1077 | three instances, the second inactive: real and simulated choices in alternation never take the third, however many |
| `Coordinadores.Coordinador.AssignLetters` | Coordinador/src/Coordinador.c:1232-1273 | the running counters of the loop give the partition the lemmas are about |
| `Coordinadores.Coordinador.DisconnectInstanceInList` | Coordinador/src/Coordinador.c:1275-1298 | the instance is inactive, without letters, and the letters are given again |
| `Coordinadores.Coordinador.AddInstanceToList` | Coordinador/src/Coordinador.c:1188-1230 | a known name is active again with its keys, a new one is last with none |
| `Coordinadores.Coordinador.ChooseByCounter` | Coordinador/src/Coordinador.c:1320-1338 | the loop over the pointer is the choice the lemmas are about |
| `Coordinadores.Coordinador.ChooseBySpace` | Coordinador/src/Coordinador.c:1340-1358 | an active instance with the most free space, or none |
| `Coordinadores.Coordinador.AssignInstance` | Coordinador/src/Coordinador.c:1079-1118 | the holder if it responds, else instances are chosen until one does |
| `Coordinadores.Coordinador.SaveOnInstance` | Coordinador/src/Coordinador.c:1149-1186 | the instance reached, or -1 after a disconnection; not ok where a null pointer is followed or the letters are divided by zero |
| `Coordinadores.Coordinador.UpdateInstance` | Coordinador/src/Coordinador.c:951-973 | the number read as the report of an instance is kept, under LSU alone |
| `Coordinadores.Coordinador.OperationGet` | Coordinador/src/Coordinador.c:654-690 | the answer, the assignment and the dictionary of a GET |
| `Coordinadores.Coordinador.OperationSet` | Coordinador/src/Coordinador.c:692-764 | the three ways a SET aborts, and the instance it reaches |
| `Coordinadores.Coordinador.OperationStore` | Coordinador/src/Coordinador.c:766-833 | the same for a STORE, which then forgets the key |
| `Sistema.OperarDicc` | Coordinador/src/Coordinador.c:623-652 | what each operation does to the ESI's dictionary; every key of a dictionary stays with some instance |
| `Sistema.ActuarSegura` | Coordinador/src/Coordinador.c:654-833 | every step of the three processes keeps: the keys a connected ESI owns at the Planificador are in its dictionary, and an instance holds each |
| `Sistema.SeguraSiempre` | Planificador/src/Planificador.c:458-521 | so in every state that any run reaches |
| `Sistema.GetSii` | Coordinador/src/Coordinador.c:654-690 | in every reachable state a GET is refused exactly when some ESI owns the key or somebody stands in its queue, and its ESI is then last there; otherwise it succeeds if an instance can be found, and its ESI owns the key while it goes on |
| `Sistema.AbortaSinPedir` | Coordinador/src/Coordinador.c:719-724 | a SET or STORE of a key that its ESI did not get, or a broken operation, aborts the ESI without reaching an instance, and no key changes owner |
| `Sistema.PedirConectados` | Coordinador/src/Coordinador.c:406-423 | an ESI has a dictionary until it ends, well or aborted, and no longer |
| `Sistema.SoloElDuenio` | Coordinador/src/Coordinador.c:766-833 | in every reachable state a SET or STORE that gets to an instance comes from the one owner of its key, goes to an active holder, and save_on_instance never follows a null pointer |
| `Sistema.ElDuenioPuede` | Coordinador/src/Coordinador.c:692-833 | in every reachable state the owner's SET or STORE is never refused for a lock; it fails exactly when no holder is active or the first active one does not answer, and crashes exactly when that one was the last under KE |
| `Sistema.ActuarIguales` | Planificador/src/Consola.c:265-271 | a step leaves dictionaries and owners in agreement exactly when it is neither the console's unlock of a key a connected ESI owns nor a STORE, last of its script, that gave the CPU to a connected ESI with keys |
| `Robada.RoboAlcanzable` | Planificador/src/Planificador.c:80-126 | a run of the whole system from the start that ends in such a STORE |
| `Sistema.AperturaSegura` | Planificador/src/Planificador.c:187-206 | the start, with any keys blocked by configuration, satisfies what every step keeps |
| `Sistema.IgualesSiempre` | Coordinador/src/Coordinador.c:654-833 | so over every run without those, harmless preemptions included |

## Left out

- Sockets, select, semaphores as system objects, logs, configuration parsing, mmap and files: the messages remain as steps, `hay_esis` as an integer and each mapped file as its bytes.
- Integer widths and C float rounding: estimates are over the reals, sizes and counters are unbounded.
- Instancias.Instancia.SetCIRC: for values of several slots after the index has turned back, or a compaction was asked for, only where a value goes, its effect on table and arena and its termination are stated, because the code may then overwrite part of a value.
- LRURefina.SetRefina: is for a SET whose compaction, if it compacts, is one to trust; `UmbralDeCompactar` decides that.
- Recencia.CorridaAlDia: says nothing of runs in which a terminator changes a live slot or a value is over 2T bytes as written; `PasoAlDia` and `UmbralDeCompactar` say what those do.
- Planificadores.Planificador.ReleaseKeysAndUnlockEsis: t_esi records are values in a map by name, not shared objects; the lists hold names.
- Circular.TerminaSiiCamina: is for values with bytes; the insertion of an empty one under CIRC may read one entry past the table, which the model does not hold.
- Contabilidad.EsperaSiempre: is for runs that lose no ESI; after one lost with an abort a blocked ESI may stay on the CPU (`BloqueaDeja`), and wait and run at once.
- Coordinadores.Coordinador.DisconnectInstanceInList: takes the instance; the source looks it up by a socket number already closed (Coordinador/src/Coordinador.c:543, 1277, 1310), which a new connection may have been given, and then the older record is the one marked.
- Respuestas.Tras: is for one connection, without STATUS, whose answer carries the length in the field that the Coordinador does not read (Instancia/src/Instancia.c:486-492, Coordinador/src/Coordinador.c:345-362), so that the bytes of the value stay unread.
- Volcado.Pisar: bytes copied past the end of a mapped file are dropped; the source may fault when they leave the last page of the mapping.
- Planificacion.ResponseRatio: is 0 where the source would divide by zero, which `RazonSiempre` rules out under HRRN.
- STATUS across processes and the compaction broadcast to the other instances.
- The console's BLOCK, KILL and DEADLOCK: the first does not compile and the others are empty.
- Progress of waiting ESIs: a woken one asks again and may queue behind others while nobody owns the key.
- The counting semaphore `one_instance`, and the thread of an instance that reconnects.
- Letters that a signed char cannot hold, such as the N with tilde at Coordinador/src/Coordinador.c:1366, and empty keys under KE.
- The parser of ESI scripts: an ESI may ask for anything at any time.
