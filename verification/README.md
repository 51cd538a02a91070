# Verification of the operating-system simulator

A model, in Dafny, of the logic of a small distributed operating system: a kernel, a CPU with its memory
management unit, a paged memory and an I/O module with a file system. Names follow the program, in Spanish.

Every component has two sides. A value (`Disco`, `Memoria`, `Cache`, `Kernel`, `Interfaz`, a byte sequence) with one
function for each operation says what the operation makes of the state, and the lemmas are about those functions. A
class (`DialFS`, `MemoriaDeUsuario`, `MMU`, `ModuloKernel`, `Conexion`, `Paquete`, `Lector`) has the program's fields
and loops, and each of its methods is proved to leave exactly the value of the function.

| files | component |
|---|---|
| `Comunes.dfy`, `Orden.dfy` | bytes, copies, counting, first occurrence, units of a size; lists that work as queues |
| `DialFs.dfy`, `DialFsOps.dfy`, `DialFsBits.dfy`, `DialFsRuns.dfy`, `DialFsFallas.dfy`, `DialFsDisco.dfy` | the file system: compaction, operations, the bits and places they leave, runs, a disk they spoil, and the class |
| `Paginacion.dfy`, `Acceso.dfy`, `Espacios.dfy`, `MemoriaUsuario.dfy` | paged memory: frames and tables, chunked accesses, address spaces and runs, and the class |
| `Tlb.dfy`, `TlbFifo.dfy`, `TlbLru.dfy`, `Traduccion.dfy`, `TlbCorridas.dfy`, `Mmu.dfy` | the TLB, replacement over runs, address translation with its runs, replacement over those, and the class |
| `MemoriaFallas.dfy` | a memory and a TLB on which requests go wrong |
| `KernelEstado.dfy`, `KernelRecursos.dfy`, `KernelPasos.dfy`, `KernelSucesos.dfy` | the kernel's lists, resources, handlers and events |
| `KernelEfectos.dfy`, `KernelLlamados.dfy` | what each event does in full, and whom the units given back go to |
| `KernelCuentas.dfy`, `KernelSemaforos.dfy`, `KernelPrioridad.dfy`, `KernelCorridas.dfy`, `KernelOrden.dfy` | units, semaphores, quanta, runs, and arrival order |
| `KernelFallas.dfy`, `KernelModulo.dfy` | runs that get stuck or admit too many, and the class |
| `InterfazIO.dfy`, `InterfazOrden.dfy`, `InterfazCarreras.dfy`, `InterfazModulo.dfy` | the protocol between the kernel and an interface, arrival order, its two races, and the class |
| `Codec.dfy`, `CodecPaquete.dfy` | the wire format, and the packet and reader classes |

`dafny verify dfyconfig.toml` checks everything.

## Where the program departs from its intent

The model keeps the program as it is; each departure here is a theorem, most of them with the exact condition.

- Growing a file always compacts, because the contiguity test looks at the file's own blocks
  (`DialFsOps.NuncaContiguos`); compacting for an empty file clears its reserved block
  (`DialFs.CompactarExactoSii`), which growing then marks again (`DialFsOps.TruncarCrece`).
- Shrinking frees indices one too high (`DialFsBits.AchicarBits`, `DialFsOps.AchicarInvSii`,
  `DialFsBits.AchicarPierdeUno`); deleting an empty file and creating an existing one leak blocks (`DialFsOps.EliminarExactoSii`, `DialFsOps.CrearExactoSii`). A concrete
  disk for each is in `DialFsFallas.dfy`, and `DialFsRuns.PasoExactoSii` says which operations keep the bitmap exact.
  Truncating to a size with the same block count changes nothing, not even the size.
- An access that starts inside a page goes on in the physically next frame (`Acceso.AccesoLogicoSii`,
  `Acceso.PisaMarcoSiguiente`), which may be another process's (`MemoriaFallas.CruceAjeno`).
- A flush of the TLB goes back to index 1 (`Tlb.LimpiarTodoSii`) and leaves the FIFO index where it was
  (`TlbFifo.LimpiarFifoSii`), and only a resize to 0 flushes (`Traduccion.ResizeCoherenteSii`).
- Killing a process that waits for a resource it holds can lose a unit and leave a waiter behind
  (`KernelPasos.EliminarInvSii`, `KernelPasos.EliminarUnidades`, `KernelFallas.QuedaVarado`).
- Killing a process in READY leaves a token with nobody behind it, and the dispatch that takes it keeps the CPU's
  token (`KernelCorridas.DespachoVacioDetiene`).
- An admission that finds NEW empty, as after a kill there, never unlocks the mutex of the list
  (`KernelCorridas.AdmisionVaciaDetiene`, `KernelCorridas.EsperaNewDetiene`, `KernelFallas.MuerteEnNewDetiene`).
- The check of the degree does not count a process that another thread has taken out of one list and not put in the next
  one yet, so the degree can be exceeded by one (`KernelCorridas.GradoMasUno`, `KernelFallas.UnoDeMas`).
- The refusal of a busy interface is sent after its mutex is free, and a file write announces its end before it frees
  the flag. So the last end pending can go out before a refusal, and a request can be found busy with no end left to come;
  only at these two moments can a process be left waiting with nothing to resume it (`InterfazIO.PasoProgresoSii`,
  `InterfazCarreras.CorridaPerdida`, `InterfazCarreras.RechazoTardio`, `InterfazCarreras.FinAntes`).
- The standard-input request is written and read in different layouts (`Codec.StdinNoVuelve`).

## What the program demands

These are the preconditions and the guards of runs, all of them things a caller can see before the call.

- DialFS: the number of blocks is a multiple of 8, as the bitmap is made of whole bytes. A block is free before a create,
  and the blocks of a grown file fit behind the others: without them the program writes outside its arrays. Reads and writes
  lie inside the file.
- Memory: sizes, pids and addresses are not negative. A request names an existing process, and an access starts in a frame
  of its table; every chunk lies in the table and in memory.
- TLB: a page missing from the TLB is in the page table. LRU replaces an entry only if some entry was used before now,
  as its scan returns -1 otherwise (`Tlb.IndiceLruSii`). Each operation reads the clock once: the two readings of an
  LRU insertion (`mmu.c:64-81`), for the scan and for the new entry, are taken to be equal. Pids are never reused.
- Kernel: a whole handler is one atomic step, from the semaphores it waits for to its end, even where the program
  takes a mutex several times: WAIT counts down in one section and joins the queue in another (`recursos.c:152-171`),
  and an end or a kill returns its resources one by one. A kill from the console in between is not part of the model,
  and a handler that blocks half way for ever is one that does not happen. What happens in the middle is modelled for
  the check of the degree alone: a process between two lists, one at a time as whoever moves it has
  `sem_planificacion`. `sem_grado_multiprogamacion` is not modelled, so there are more runs here than it lets through.
  Resource names have at most 10 characters, so the name kept in a resource is its key. The CPU answers for the
  process it has, and the I/O module for blocked processes that wait for no resource. RR is dispatched with somebody
  in READY: with a token left by a kill and READY empty the program takes from an empty list
  (`planificacion.c:236-247`), which is not part of the model. Only the theorems about the resources and their units
  over runs leave out the kills that lose a unit; those about lists, semaphores, the degree, quanta and the order of
  the ready lists hold whoever is killed.
- I/O: a process asks only while it is not blocked and is not killed in the middle. All the threads of an interface may
  interleave.
- Codec: strings hold no NUL and their length fits in 32 bits, and integers fit in their width.

## Model

| member | source | states |
|---|---|---|
| `DialFs.CantidadEsTecho` | entradasalida/src/fileSystem/bitmap.c:83-91 | The block count of a size is the ceiling of its division: enough blocks, and one fewer would not do. |
| `DialFs.BloqueLibre` | entradasalida/src/fileSystem/bitmap.c:55-66 | First fit: the lowest clear bit, or -1 exactly when every bit is set. |
| `DialFs.OrdenEntra` | entradasalida/src/fileSystem/compactacion.c:35-53 | Counting argument: with disjoint extents inside the disk, the compacted extents of any set of files, in any order, end inside the disk. |
| `DialFs.CompactadosEntran` | entradasalida/src/fileSystem/compactacion.c:55-60 | The compacted files with the grown one behind them fit in the bitmap and in the byte array, so no copy of the compaction runs past the end. |
| `DialFs.EmpaquetarConserva` | entradasalida/src/fileSystem/compactacion.c:17-63 | After the move every file, the one saved in the side buffer included, has its old size and its old bytes. |
| `DialFs.CompactarConserva` | entradasalida/src/fileSystem/compactacion.c:17-63 | For any order of the dictionary keys and any layout, compaction leaves the map from names to bytes unchanged. |
| `DialFs.EmpaquetarDisjuntos` | entradasalida/src/fileSystem/compactacion.c:35-67 | Extents after compaction are pairwise disjoint and inside the disk. |
| `DialFs.EmpaquetarSinHuecos` | entradasalida/src/fileSystem/compactacion.c:35-67 | A block below the start of the grown file belongs to exactly some other file, and none at or above it does: the layout has no gaps and the grown file is last. |
| `DialFs.CompactarExactoSii` | entradasalida/src/fileSystem/compactacion.c:62-78 | The bitmap marks exactly the extents after compaction if and only if the grown file is not empty; an empty one loses its reserved block. |
| `DialFs.CompactarIdempotente` | entradasalida/src/fileSystem/compactacion.c:3-98 | Compacting again with the same key order changes neither bytes, records nor bitmap. |
| `DialFsBits.CompactarLugares` | entradasalida/src/fileSystem/compactacion.c:22-67 | Afterwards the files lie one after another from block 0 in the order of the dictionary, the one being grown last. |
| `DialFsDisco.DialFS.ReubicarOtros` | entradasalida/src/fileSystem/compactacion.c:22-53 | The relocation loop over the other files reaches the block, records and buffer of the specification after all of them. |
| `DialFsDisco.DialFS.CompactarDisco` | entradasalida/src/fileSystem/compactacion.c:3-98 | The whole in-place compaction is the specified one, for the disk as it was. |
| `DialFsOps.CrearInv` | entradasalida/src/fileSystem/operaciones.c:3-14 | Creating keeps extents disjoint, inside the disk and marked. |
| `DialFsOps.CrearContenidos` | entradasalida/src/fileSystem/operaciones.c:3-14 | Creating maps the name to no bytes and changes no other file. |
| `DialFsOps.CrearExactoSii` | entradasalida/src/fileSystem/operaciones.c:3-14 | The bitmap stays exact if and only if the name was not in use; a reused name leaks the old extent. |
| `DialFsBits.CrearBits` | entradasalida/src/fileSystem/operaciones.c:3-14 | The new file is on the lowest free block, the only one that becomes marked, and no other record changes. |
| `DialFsOps.EliminarInv` | entradasalida/src/fileSystem/operaciones.c:16-36 | Deleting keeps the surviving extents disjoint and marked. |
| `DialFsOps.EliminarContenidos` | entradasalida/src/fileSystem/operaciones.c:16-36 | Deleting removes the name from the map and touches no other file. |
| `DialFsOps.EliminarExactoSii` | entradasalida/src/fileSystem/operaciones.c:26-31 | The bitmap stays exact if and only if the file is missing or not empty; an empty file keeps its reserved block for ever. |
| `DialFsBits.EliminarBits` | entradasalida/src/fileSystem/operaciones.c:16-36 | A deletion clears exactly the blocks of the file, none if it is empty, and removes that record alone. |
| `DialFsOps.NuncaContiguos` | entradasalida/src/fileSystem/operaciones.c:51-63 | The contiguity test starts at a block of the file itself, so it never succeeds and every growth compacts. |
| `DialFsOps.TruncarCrece` | entradasalida/src/fileSystem/operaciones.c:38-80 | Growing, whatever the key order: bitmap exact and without gaps, the old bytes kept as a prefix, the new size, and every other file as it was. |
| `DialFsOps.AchicarInvSii` | entradasalida/src/fileSystem/operaciones.c:82-100 | Shrinking keeps every extent marked if and only if no file starts right after the file: the freed indices are one too high. |
| `DialFsOps.AchicarExactoSii` | entradasalida/src/fileSystem/operaciones.c:89-92 | Shrinking leaves the bitmap exact if and only if the new size is 0 and no file starts right after. |
| `DialFsBits.AchicarBits` | entradasalida/src/fileSystem/operaciones.c:82-100 | A shrink clears the blocks given up but, unless the new size is 0, the first one, and also the block right after the file; no other bit changes, and the file stays in its place with its new size. |
| `DialFsBits.AchicarPierdeUno` | entradasalida/src/fileSystem/operaciones.c:89-92 | On an exact disk with nobody right after the file, a shrink to a size other than 0 loses exactly one block, the first one after the new end. |
| `DialFsBits.AchicarDesmarcaUno` | entradasalida/src/fileSystem/operaciones.c:89-92 | After a shrink a block that is owned and not marked is the one right after the old end, and there is one exactly when that block was somebody's. |
| `DialFsOps.AchicarContenidos` | entradasalida/src/fileSystem/operaciones.c:82-100 | Shrinking keeps the retained bytes and every other file, whatever happens to the bitmap. |
| `DialFsOps.LeerContenido` | entradasalida/src/main.c:272-275 | A read gives the bytes of the file's entry in the map. |
| `DialFsOps.EscribirContenidos` | entradasalida/src/main.c:388-390 | A write inside a file replaces those bytes of its entry in the map, keeps the invariant and changes no other file. |
| `DialFsDisco.DialFS.PrimerBloqueLibre` | entradasalida/src/fileSystem/bitmap.c:55-66 | The scan returns the first clear bit, or -1. |
| `DialFsDisco.DialFS.Contiguos` | entradasalida/src/fileSystem/bitmap.c:93-102 | The scan answers whether every block of the range is clear. |
| `DialFsDisco.DialFS.CrearArchivo` | entradasalida/src/fileSystem/operaciones.c:3-14 | In place, the specified creation. |
| `DialFsDisco.DialFS.EliminarArchivo` | entradasalida/src/fileSystem/operaciones.c:16-36 | In place, the specified deletion, missing names included. |
| `DialFsDisco.DialFS.TruncarArchivo` | entradasalida/src/fileSystem/operaciones.c:38-105 | In place, the specified truncation on all its branches: missing file, growth with compaction, shrink, same block count. |
| `DialFsDisco.DialFS.LeerArchivo` | entradasalida/src/main.c:272-275 | On a consistent disk, a read inside a file returns those bytes of its entry in the map of contents. |
| `DialFsDisco.DialFS.EscribirArchivo` | entradasalida/src/main.c:388-390 | The copy into the byte array is the specified write. |
| `DialFsRuns.PasoRefina` | entradasalida/src/fileSystem/operaciones.c:3-105 | Every enabled operation keeps the invariant and is one step of a map from names to bytes. |
| `DialFsRuns.CorridaRefina` | entradasalida/src/fileSystem/operaciones.c:3-105 | DialFS refines that map over every run, and extents stay disjoint, inside the disk and marked. |
| `DialFsRuns.PasoExactoSii` | entradasalida/src/fileSystem/operaciones.c:3-105 | On a disk whose set bits are exactly the blocks of the files, an operation keeps them so if and only if it is not the creation of a name in use, the deletion of an empty file or a shrink, unless to nothing. |
| `DialFsRuns.CorridaExacta` | entradasalida/src/fileSystem/operaciones.c:3-105 | In every run without those operations the set bits are exactly the blocks of the files, each with one owner. |
| `DialFsRuns.CrecerRecupera` | entradasalida/src/fileSystem/compactacion.c:69-78 | In every run, whatever was lost before, a growth leaves the set bits equal to the blocks of the files again. |
| `DialFsRuns.LecturaDeLoEscrito` | entradasalida/src/main.c:266-275 | A read returns the last bytes written there, through any number of other operations and compactions. |
| `DialFsFallas.AchicarPisa` | entradasalida/src/fileSystem/operaciones.c:89-92 | On a concrete exact disk, shrinking a file marks the first block of the file right after it as free. |
| `DialFsFallas.CrearSobreOtro` | entradasalida/src/fileSystem/operaciones.c:3-14 | The file created next on that disk gets that block: two files own it. |
| `DialFsFallas.AchicarPierde` | entradasalida/src/fileSystem/operaciones.c:89-92 | On the same exact disk, shrinking the last file to half leaves a block marked that nobody owns, and harms no file. |
| `DialFsFallas.EliminarYCrearPierden` | entradasalida/src/fileSystem/operaciones.c:3-36 | On the same exact disk, deleting an empty file and creating a name in use leave blocks marked that nobody owns. |
| `Paginacion.LibresAlCambiar` | memoria/src/paginacion.c:16-28 | Setting or clearing one bit moves the count of free frames by exactly one. |
| `Paginacion.HayLibre` | memoria/src/paginacion.c:3-14 | While the count of clear bits is positive first fit finds a frame. |
| `Paginacion.OcuparInv` | memoria/src/paginacion.c:16-21 | Giving a process the first free frame keeps the counter exact, the set bits equal to the frames in some table, and the tables injective and disjoint. |
| `Paginacion.SoltarInv` | memoria/src/paginacion.c:23-28 | Taking back a process's last frame keeps the same invariant. |
| `Paginacion.AmpliarCorrecto` | memoria/src/operaciones.c:29-35 | With enough free frames the growing loop never gets -1 and appends exactly the pages asked for. |
| `Paginacion.ReducirCorrecto` | memoria/src/operaciones.c:42-47 | The shrinking loop leaves exactly the prefix of the table. |
| `Paginacion.ResizeTodoONada` | memoria/src/operaciones.c:9-50 | Resizing fails if and only if fewer frames are free than pages missing, and then changes nothing; otherwise the table has the ceiling of bytes over page size and keeps the common prefix, and no other table changes. |
| `Paginacion.ResizePrimeros` | memoria/src/paginacion.c:3-14 | The pages that a resize adds are on the lowest free frames, in increasing order. |
| `Paginacion.CrearInvSii` | memoria/src/operaciones.c:59-60 | Creating a process keeps the invariant if and only if its pid had no pages. |
| `Paginacion.EliminarDevuelve` | memoria/src/operaciones.c:68-80 | Deleting a process returns exactly its frames and changes neither other tables nor memory. |
| `MemoriaUsuario.MemoriaDeUsuario.ObtenerMarcoLibre` | memoria/src/paginacion.c:3-14 | The scan returns the first free frame or -1. |
| `MemoriaUsuario.MemoriaDeUsuario.LiberarMarcosDeProceso` | memoria/src/paginacion.c:30-46 | The loop clears the bits of the whole table and raises the counter by its length. |
| `MemoriaUsuario.MemoriaDeUsuario.ResizeProceso` | memoria/src/operaciones.c:9-50 | In place, the specified resize with its return code. |
| `MemoriaUsuario.MemoriaDeUsuario.EliminarProceso` | memoria/src/operaciones.c:68-80 | In place, the specified deletion. |
| `Acceso.DirInyectiva` | memoria/src/operaciones.c:135-146 | No two bytes of an access share an address, at any starting offset and across any pages. |
| `Acceso.EscritosEn` | memoria/src/operaciones.c:168-178 | A write puts every byte at its address and leaves all the others alone. |
| `Acceso.LeerLoEscrito` | memoria/src/operaciones.c:135-178 | Writing and reading back at any offset and length is the identity. |
| `Acceso.CopiarStringEn` | memoria/src/operaciones.c:182-189 | A copy at any two offsets, aligned or not, puts at each destination address the source byte as it was before and leaves every other address alone. |
| `Acceso.AccesoLogicoSii` | memoria/src/operaciones.c:126-146 | The chunk loops visit exactly the logical bytes asked for if and only if the access starts at a page boundary or every page it goes on into lies on the physically next frame. |
| `Acceso.PisaMarcoSiguiente` | memoria/src/operaciones.c:133-138 | Otherwise the access reaches the first byte of the physically next frame, whoever owns it. |
| `MemoriaFallas.CruceAjeno` | memoria/src/operaciones.c:151-180 | In a concrete consistent memory, a write of one process across its two pages puts its second byte in the address space of another process, and not in its own. |
| `Espacios.CaminoRecuperado` | memoria/src/operaciones.c:93-111 | From the physical address that translation gives, the memory module finds the page and offset again. |
| `Espacios.AlineadoAccesible` | memoria/src/operaciones.c:118-146 | An aligned access never indexes the page table or memory past its end, and visits its logical bytes. |
| `Espacios.LeerLogico` | memoria/src/operaciones.c:118-149 | An aligned read gives the logical bytes [a, a+n). |
| `Espacios.EscribirLogico` | memoria/src/operaciones.c:151-180 | An aligned write replaces exactly the logical bytes [a, a+n) of its process and no byte of any process besides. |
| `Espacios.CopiarStringMueve` | memoria/src/operaciones.c:182-189 | The destination of a string copy gets the source bytes as they were before, overlapping or not; everything else is kept. |
| `Espacios.ResizeEspacios` | memoria/src/operaciones.c:9-50 | A resize keeps the retained logical contents of the process and all of the others'. |
| `Espacios.PasoRefina` | memoria/src/operaciones.c:9-189 | Every request keeps the allocator invariant and is one step of a map from pids to bytes; a resize leaves it alone exactly when too few frames are free. |
| `Espacios.CorridaRefina` | memoria/src/operaciones.c:9-189 | Paged memory refines that map over every run of create, resize, delete, write and copy. |
| `Espacios.LecturaDeLoEscrito` | memoria/src/operaciones.c:118-180 | After an aligned write, through any requests of any process that leave those bytes alone, the same access is still possible and returns them. |
| `MemoriaUsuario.SiguienteVuelta` | memoria/src/operaciones.c:135-146 | One round of either chunk loop: the chunk lies in memory, the next page in the table, and the loop stands at the next address. |
| `MemoriaUsuario.MemoriaDeUsuario.ObtenerPaginaDeMarco` | memoria/src/operaciones.c:98-111 | The scan returns the first page on the frame, or -1. |
| `MemoriaUsuario.MemoriaDeUsuario.ObtenerDatosDeMemoria` | memoria/src/operaciones.c:118-149 | The chunk loop fills the buffer with the bytes at the addresses of the access, one by one. |
| `MemoriaUsuario.MemoriaDeUsuario.AgregarDatosAMemoria` | memoria/src/operaciones.c:151-180 | The chunk loop leaves memory as writing the bytes one by one would. |
| `MemoriaUsuario.MemoriaDeUsuario.CopyString` | memoria/src/operaciones.c:182-189 | In place, the specified copy through a buffer. |
| `Tlb.Buscar` | cpu/src/mmu/mmu.c:98-113 | The first entry for the page, or -1 exactly when there is none. |
| `Tlb.IndiceLruSii` | cpu/src/mmu/mmu.c:20-35 | The LRU scan finds a victim if and only if some entry was last used before now. |
| `Tlb.LimpiarEs` | cpu/src/mmu/mmu.c:116-128 | What a flush leaves: the entries of other processes in order, and also the second entry when the first one belonged to the process. |
| `Tlb.LimpiarTodoSii` | cpu/src/mmu/mmu.c:116-128 | A flush drops every entry of the process if and only if the first two entries are not both its own. |
| `MemoriaFallas.VaciadoIncompleto` | cpu/src/mmu/mmu.c:116-128 | A concrete bounded TLB with unique keys whose flush leaves an entry of the process. |
| `Tlb.InsertarValida` | cpu/src/mmu/mmu.c:37-87 | An insertion keeps the size bound and the keys unique and adds that entry only. |
| `Tlb.LimpiarValida` | cpu/src/mmu/mmu.c:116-128 | A flush keeps the size bound and the keys unique. |
| `Tlb.InsertarFifo` | cpu/src/mmu/mmu.c:41-62 | The rotation of the list at the circular index is a bounded queue: newest in, and oldest out when full. |
| `TlbFifo.CorridaFifo` | cpu/src/mmu/mmu.c:41-62 | Over every run of lookups, hits and misses, the FIFO TLB cut at its index is the bounded queue of the pages looked up. |
| `TlbFifo.LimpiarFifoSii` | cpu/src/mmu/mmu.c:116-128 | After a flush, whatever is looked up next, the TLB holds what the bounded queue of the surviving entries in order of arrival would hold, if and only if the index stood at an end or the process had no entry. |
| `MemoriaFallas.VaciadoDesordena` | cpu/src/mmu/mmu.c:116-128 | A concrete full FIFO TLB whose flush breaks the order of arrival. |
| `Tlb.InsertarLru` | cpu/src/mmu/mmu.c:64-81 | With a clock that advances, LRU evicts the least recently used entry: the entries ordered by use are a queue. |
| `Tlb.TocarLru` | cpu/src/mmu/mmu.c:103-108 | A hit makes its entry the most recently used one. |
| `TlbLru.RecientesSii` | cpu/src/mmu/mmu.c:103-108 | The reference list has exactly the pages looked up, in the order of their last lookups. |
| `TlbLru.CorridaLru` | cpu/src/mmu/mmu.c:64-114 | Over every run of lookups from an empty LRU TLB with a clock that advances, its entries in order of use are the latest pages of that list, as many as fit. |
| `TlbLru.EnCacheLruSii` | cpu/src/mmu/mmu.c:64-114 | In such a run a page is cached if and only if it is one of the latest looked up, as many as the TLB has places. |
| `TlbLru.VictimaLru` | cpu/src/mmu/mmu.c:64-81 | In such a run whoever is replaced was last used before everyone else that was cached. |
| `TlbCorridas.CorridaUsa` | cpu/src/mmu/mmu.c:149-201 | In a run of CPU and memory module without flushes the TLB goes through its lookups and nothing else. |
| `TlbCorridas.SistemaFifo` | cpu/src/mmu/mmu.c:149-201 | In every such run from an empty FIFO TLB the TLB is the bounded queue of the pages translated. |
| `TlbCorridas.SistemaLruSii` | cpu/src/mmu/mmu.c:149-201 | In every such run from an empty LRU TLB with a clock that advances, a page is cached if and only if it is one of the latest translated. |
| `Traduccion.TraducirTransparente` | cpu/src/mmu/mmu.c:149-201 | Hit or miss, the address is table[a/page]*page + a%page with the offset below the page size, and the TLB stays coherent. |
| `Traduccion.ResizeCoherenteSii` | cpu/src/ciclo_instruccion/ciclo_instruccion.c:273-281 | A resize to a size other than 0 leaves the TLB coherent if and only if fewer frames are free than pages missing, or no cached page of the process is past the new size. |
| `Traduccion.ResizeACeroCoherenteSii` | cpu/src/ciclo_instruccion/ciclo_instruccion.c:277-280 | Shrinking to nothing leaves it coherent if and only if its first two entries are not both the process's. |
| `MemoriaFallas.ResizeDejaRestos` | cpu/src/ciclo_instruccion/ciclo_instruccion.c:273-281 | A concrete consistent memory and coherent TLB on which a resize to one page, and one to nothing, leave a cached page that the process no longer has. |
| `Traduccion.PasoInvSii` | cpu/src/ciclo_instruccion/ciclo_instruccion.c:273-281 | A step of CPU and memory keeps coherence, bounds, keys and the frame invariant if and only if it is not one of those two kinds of resize. |
| `Traduccion.CorridaTransparente` | cpu/src/mmu/mmu.c:149-201 | In every run without those resizes, shrinks included, every translation gives the byte of the page table. |
| `Mmu.MMU.GetIndexForLru` | cpu/src/mmu/mmu.c:20-35 | The scan keeps the minimum so far and where it is. |
| `Mmu.MMU.InsertarEnTlb` | cpu/src/mmu/mmu.c:37-87 | In place, the specified insertion for FIFO, LRU and a TLB of size 0. |
| `Mmu.MMU.ObtenerMarcoEnTlb` | cpu/src/mmu/mmu.c:89-114 | In place, the specified lookup, noting the time under LRU; -1 on a miss. |
| `Mmu.MMU.LimpiarTlb` | cpu/src/mmu/mmu.c:116-128 | The loop that goes back to index 1 after a removal leaves what the specification of the flush says. |
| `Mmu.MMU.TraducirDireccionAFisica` | cpu/src/mmu/mmu.c:149-201 | In place, the specified translation. |
| `KernelEstado.EnUnaSolaCola` | kernel/src/planificacion/planificacion.c:126-141 | A created process is in the list that its table entry names, its PCB agrees, and it is in no other list. |
| `KernelEstado.MoverColas` | kernel/src/planificacion/planificacion.c:353-358 | Taking a process out of its list and putting it in another keeps that. |
| `KernelRecursos.IncrementarEs` | kernel/src/recursos/recursos.c:113-141 | One unit more: the counter rises and, when units are owed, the first waiter and no other leaves the queue and takes it. |
| `KernelRecursos.IncrementarRecursos` | kernel/src/recursos/recursos.c:113-141 | It keeps every queue as long as the units owed, and the waiters of each resource equal to the blocked processes that name it. |
| `KernelRecursos.DevolverEs` | kernel/src/recursos/recursos.c:261-270 | Giving back everything held: each resource gains the units of it and that many of its first waiters are served in order. |
| `KernelRecursos.IncrementarUnidades` | kernel/src/recursos/recursos.c:113-141 | One unit more is one unit more in all, free or in the waiter's hands, unless the waiter is the process being ended. |
| `KernelPasos.EliminarInvSii` | kernel/src/recursos/recursos.c:261-283 | Ending a process keeps lists, queues and counters consistent if and only if it does not wait for a resource it holds with more units than waiters before it and fewer than waiters in all. |
| `KernelPasos.EliminarUnidades` | kernel/src/recursos/recursos.c:261-283 | It loses one unit of exactly that resource in exactly that case, and none otherwise. |
| `KernelFallas.QuedaVarado` | kernel/src/recursos/recursos.c:261-283 | In that case one waiter more than units owed stays in the queue. |
| `KernelFallas.EsperaAlcanzable` | kernel/src/recursos/recursos.c:152-171 | A concrete run from the start of the kernel that gets there: process 1 asks twice for the only unit and process 2 once. |
| `KernelEfectos.CreaEfecto` | kernel/src/planificacion/planificador-largo.c:44-66 | A creation adds one process with the next pid, in NEW and at the end of its list, and changes nothing else. |
| `KernelEfectos.AdmiteEfecto` | kernel/src/conexion/conexion.c:859-869 | An admission moves the oldest new process to the end of READY with a token, and nothing else; with nobody new it locks the list. |
| `KernelEfectos.DespachaEfecto` | kernel/src/planificacion/planificacion.c:200-303 | A dispatch takes both tokens and moves to the CPU the head of the priority list, under VRR if there is one, or else of READY, with the quantum and the time that VRR notes; nothing else changes. |
| `KernelEfectos.FinDeQuantumEfecto` | kernel/src/conexion/conexion.c:390-412 | The preempted process goes to the end of READY with a token, the CPU is free and nothing else changes. |
| `KernelEfectos.PideIOEfecto` | kernel/src/planificacion/planificacion.c:405-428 | A process that asks for I/O goes to the end of the blocked list, charged for its burst under VRR, the CPU is free and nothing else changes. |
| `KernelEfectos.FinIOEfecto` | kernel/src/planificacion/planificacion.c:430-449 | The end of an I/O operation moves its process from the blocked list to the end of the priority list, under VRR with quantum left, or else of READY, with a token; nothing else changes. |
| `KernelEfectos.WaitEfecto` | kernel/src/recursos/recursos.c:152-171 | A WAIT takes a free unit and the process goes on; with none it goes to the end of the queue and of the blocked list, its PCB names the resource and the CPU is free; nothing else changes. |
| `KernelLlamados.DevolverServidas` | kernel/src/recursos/recursos.c:261-276 | Giving units back serves exactly the processes called, each in the turn of its queue: they leave the blocked list for READY or the priority list in that order, each with a token, one unit more and waiting for nothing, and nobody else changes. |
| `KernelLlamados.SignalEfecto` | kernel/src/conexion/conexion.c:995-1017 | A SIGNAL: one unit more, the first waiter if any leaves the queue and is served, the process that signals holds one unit less if it held any and goes on running, and nothing else changes. |
| `KernelLlamados.AcabaEfecto` | kernel/src/planificacion/planificador-largo.c:177-202 | An exit, a request for a resource or interface that does not exist, a failed I/O operation and a kill: the process is in EXIT and out of its list and queue, each resource serves as many of its first waiters as units the process had of it, in their order, the CPU is free if the process was running, and nobody else changes. |
| `KernelSucesos.WaitInv` | kernel/src/recursos/recursos.c:152-171 | A WAIT keeps lists and queues, with or without units. |
| `KernelSucesos.SignalInv` | kernel/src/conexion/conexion.c:995-1017 | A SIGNAL keeps lists and queues. |
| `KernelSucesos.TerminarInv` | kernel/src/conexion/conexion.c:413-456 | A process that exits or runs out of memory leaves lists and queues consistent. |
| `KernelSucesos.DespacharInv` | kernel/src/planificacion/planificacion.c:208-250 | A round of the short-term scheduler keeps lists and queues, under the three algorithms. |
| `KernelSucesos.PasoInvSii` | kernel/src/conexion/conexion.c:383-485 | Every event of the kernel keeps every process in one list and the queues as long as the units owed, if and only if nobody is killed in the way that loses a unit. |
| `KernelCuentas.WaitUnidades` | kernel/src/conexion/conexion.c:1019-1038 | A WAIT neither makes nor loses units. |
| `KernelCuentas.SignalUnidades` | kernel/src/conexion/conexion.c:995-1017 | A SIGNAL makes a unit exactly when the process did not hold one. |
| `KernelCuentas.PasoUnidades` | kernel/src/conexion/conexion.c:995-1038 | Exactly which events change the units of a resource, and by how much. |
| `KernelRecursos.IncrementarCasos` | kernel/src/recursos/recursos.c:113-141 | However the queues stand, one unit more wakes at most one process, and only one that is in the list of blocked ones. |
| `KernelSucesos.PasoColas` | kernel/src/conexion/conexion.c:383-485 | Every event, kills included, keeps every process in exactly the list its table entry names. |
| `KernelCorridas.CorridaOrdenada` | kernel/src/planificacion/planificacion.c:126-141 | In every state of every run each created process is in exactly one list, the one the state table names. |
| `KernelCorridas.CorridaSana` | kernel/src/recursos/recursos.c:43-230 | In every state of a run in which nobody is killed in the way that loses a unit, the waiters of each resource are as many as the units owed, and are the blocked processes that name it. |
| `KernelCorridas.CorridaUnidades` | kernel/src/recursos/recursos.c:43-230 | Conservation over runs: free units plus units of live processes are the initial ones plus the SIGNALs by non-holders. |
| `KernelSemaforos.PasoCuentas` | kernel/src/planificacion/planificacion.c:200-303 | How every event moves the scheduler's two semaphores against the lists, and the count of active processes. |
| `KernelSemaforos.EliminarLargo` | kernel/src/planificacion/planificador-largo.c:183-202 | A process killed while ready leaves its token in the semaphore. |
| `KernelCorridas.CorridaSemaforos` | kernel/src/planificacion/planificacion.c:200-303 | Over runs, the ready semaphore is ahead of the ready lists by the processes killed while ready less the dispatches that found nobody, each of which takes the CPU's token. |
| `KernelCorridas.UnoSoloEnEjecucion` | kernel/src/planificacion/planificacion.c:208-250 | The free CPU token and the running processes never add up to more than one. |
| `KernelCorridas.SinMuertosListos` | kernel/src/planificacion/planificacion.c:208-283 | If nobody is killed while ready both semaphores are exact, and whenever the ready one has a token the scheduler finds somebody, under each of the three algorithms. |
| `KernelCorridas.DespachoVacioDetiene` | kernel/src/planificacion/planificacion.c:212-230 | A dispatch that finds nobody stops the kernel: no process runs and none is dispatched ever again. |
| `KernelFallas.MuerteEnReadyDetiene` | kernel/src/planificacion/planificador-largo.c:117-202 | A concrete run that gets there: create, admit, kill while ready, dispatch. |
| `KernelSemaforos.ComprobarAMitad` | kernel/src/conexion/conexion.c:835-852 | A check of the degree made while a process is out of its list and not in the next one yet is a check that does not count it. |
| `KernelCorridas.CotaDesde` | kernel/src/conexion/conexion.c:827-875 | Active processes, with an admission that has passed the check, never exceed a bound of what the checks compare with: the degree, or one more when made in the middle of a move. |
| `KernelCorridas.GradoDeMultiprogramacion` | kernel/src/conexion/conexion.c:827-875 | While the degree is never lowered and no check is made in the middle of a move, at most that many processes are ready, running or blocked. |
| `KernelCorridas.GradoMasUno` | kernel/src/conexion/conexion.c:827-875 | While the degree is never lowered, whenever the checks are made, at most one process more than the degree is ready, running or blocked. |
| `KernelFallas.UnoDeMas` | kernel/src/conexion/conexion.c:827-875 | A concrete run that gets to one more, with a check made in the middle of a move after a process is killed while new. |
| `KernelCorridas.GradoBajado` | kernel/src/consola/consola.c:57-79 | Once the degree, with one more for a check in the middle of a move, is at most the processes there are, with no admission under way, they can only become fewer. |
| `KernelCorridas.AdmisionVaciaDetiene` | kernel/src/conexion/conexion.c:859-869 | After an admission that finds NEW empty, which never unlocks its mutex, nobody is created, admitted or killed ever again and active processes can only become fewer. |
| `KernelCorridas.EsperaNewDetiene` | kernel/src/planificacion/planificador-largo.c:117-202 | Once a kill or another admission waits for that mutex, with the semaphore of the long-term scheduler taken, no process ends ever again. |
| `KernelFallas.MuerteEnNewDetiene` | kernel/src/planificacion/planificador-largo.c:117-202 | A concrete run that gets there: a process is killed while new after its admission has passed the check. |
| `KernelOrden.PasoTurnos` | kernel/src/planificacion/planificacion.c:200-303 | Only an admission or a dispatch takes from the front of a waiting list, only a kill from elsewhere, and everybody joins at the end. |
| `KernelOrden.ListaEnOrden` | kernel/src/planificacion/planificacion.c:208-283 | First come, first served in NEW, READY and the priority list, over every run: while a process stays, those behind it stay behind, unless killed. |
| `KernelOrden.EsperaEnOrden` | kernel/src/recursos/recursos.c:186-230 | Waiters of a resource are served in the order in which they came, over runs. |
| `KernelPrioridad.VuelveConPrioridadSii` | kernel/src/planificacion/planificacion.c:430-449 | A process that stops being blocked goes to the priority list if and only if the algorithm is VRR and part of its quantum is left, else to READY. |
| `KernelPrioridad.PasoCobro` | kernel/src/planificacion/planificacion.c:391-449 | Which events change a quantum or a starting time and how; the priority list keeps only quanta between 0 and the configured one. |
| `KernelCorridas.CorridaQuanta` | kernel/src/planificacion/planificacion.c:251-294 | Under VRR a process's quantum is the configured one less its bursts that ended in I/O since its last dispatch from READY. |
| `KernelCorridas.DespachoVRR` | kernel/src/planificacion/planificacion.c:251-294 | Every VRR dispatch gives the timer a quantum in (0, Q], the one the process keeps, and takes from the priority list whenever somebody is there. |
| `KernelModulo.ModuloKernel.RecursoIncrementar` | kernel/src/recursos/recursos.c:113-141 | In place, the specified increment. |
| `KernelModulo.ModuloKernel.RecursoDecrementar` | kernel/src/recursos/recursos.c:152-171 | In place, the specified WAIT. |
| `KernelModulo.ModuloKernel.LiberarRecursosTomados` | kernel/src/recursos/recursos.c:261-283 | The release loop and the departure from the queue leave what the specification says. |
| `KernelModulo.ModuloKernel.HayarPcb` | kernel/src/planificacion/planificador-largo.c:117-166 | The search through the four lists finds and removes exactly a process that is new, ready or blocked. |
| `KernelModulo.ModuloKernel.FinalizarProceso` | kernel/src/planificacion/planificador-largo.c:168-202 | In place, the specified kill; once the mutex of NEW stays locked, the call keeps the semaphore of the long-term scheduler. |
| `KernelModulo.ModuloKernel.MoverAReady` | kernel/src/conexion/conexion.c:859-869 | In place, the specified admission; with NEW empty the mutex of the list stays locked, and once it is the call keeps the semaphore of the long-term scheduler. |
| `KernelModulo.ModuloKernel.PlanificadorCortoPlazo` | kernel/src/planificacion/planificacion.c:200-303 | In place, the specified dispatch of FIFO, RR and VRR, empty lists included. |
| `KernelModulo.ModuloKernel.BloquearProceso` | kernel/src/planificacion/planificacion.c:405-428 | In place: out of the CPU, charged under VRR if for I/O, into the blocked list. |
| `KernelModulo.ModuloKernel.DesbloquearProceso` | kernel/src/planificacion/planificacion.c:430-449 | In place: to the priority list when quantum is left under VRR, else to READY. |
| `KernelModulo.ModuloKernel.AtenderFinDeQuantum` | kernel/src/conexion/conexion.c:390-412 | In place, the specified end of quantum. |
| `KernelModulo.ModuloKernel.AtenderTerminar` | kernel/src/conexion/conexion.c:413-456 | In place, the specified end of a running process. |
| `KernelModulo.ModuloKernel.RecibirWait` | kernel/src/conexion/conexion.c:457-483 | In place, WAIT on any resource; one that does not exist ends the process. |
| `KernelModulo.ModuloKernel.RecibirSignal` | kernel/src/conexion/conexion.c:457-483 | In place, SIGNAL on any resource; one that does not exist ends the process. |
| `KernelModulo.ModuloKernel.AtenderErrorIO` | kernel/src/conexion/conexion.c:556-570 | In place, the end of a process whose I/O failed. |
| `InterfazIO.PasoInv` | kernel/src/conexion/conexion.c:571-590 | Every step, in any order, keeps each blocked requester in exactly one place and the busy flag with one worker at most. |
| `InterfazIO.AtiendeSii` | entradasalida/src/main.c:423-464 | The request taken goes to service exactly when it is supported and the flag is free, is to be refused exactly when it is supported and the flag is taken, and gets an error otherwise; nobody else changes place. |
| `InterfazIO.PasoProgresoSii` | entradasalida/src/main.c:423-453 | A step keeps the guarantee that whoever waits has an end of operation coming if and only if it neither announces the last end pending while a refusal is not sent yet, nor finds the interface busy with no end left to announce. |
| `InterfazIO.CorridaConserva` | kernel/src/conexion/conexion.c:746-816 | No request is lost or doubled in any run, races included. |
| `InterfazIO.CorridaProgresa` | kernel/src/conexion/conexion.c:746-816 | In every run without those two races, file writes included, whoever waits has an end of operation coming. |
| `InterfazIO.PasoAvanza` | entradasalida/src/main.c:139-157 | Without new requests every step lowers a measure of the work left. |
| `InterfazIO.QuietoSinEspera` | kernel/src/conexion/conexion.c:746-816 | When nothing else can happen nobody is left waiting. |
| `InterfazIO.TodosAtendidos` | kernel/src/conexion/conexion.c:746-816 | In every run without those two races, file writes included, once requests stop coming only so many steps are possible, and when they run out every requester has been answered. |
| `InterfazOrden.ListaEnOrden` | kernel/src/conexion/conexion.c:755-757 | Whoever waits for an interface is resumed before those that came to its list later, in every run. |
| `InterfazOrden.CanalesFifo` | kernel/src/conexion/conexion.c:746-816 | At any point of any run, what was received on each of the two channels and what is on its way are, in that order, what was sent: each request, the one sent again for the first of the list, each refusal, error and end. |
| `InterfazCarreras.PierdeSiiCarrera` | kernel/src/conexion/conexion.c:746-816 | Where the guarantee held, a step that leaves no supported request on its way, and no end that will find anybody in the list, leaves somebody lost if and only if it is one of the two races. |
| `InterfazCarreras.CorridaPerdida` | kernel/src/conexion/conexion.c:746-816 | From such a lost state every run without new requests keeps somebody waiting, and one that can do nothing else stops with somebody in the kernel's list. |
| `InterfazCarreras.RechazoTardio` | entradasalida/src/main.c:430-441 | A run in which the end of an operation overtakes a refusal and leaves its process waiting with nothing to resume it. |
| `InterfazCarreras.FinAntes` | entradasalida/src/main.c:323-329 | A run in which a file write announces its end before freeing the flag, with the same result. |
| `InterfazModulo.Conexion.AtenderKernel` | entradasalida/src/main.c:423-464 | In place. Every requester stays in exactly one place, and the guarantee of an end for whoever waits is kept if and only if it is not a supported request that finds the flag taken with no worker that still has an end to announce. |
| `InterfazModulo.Conexion.AtenderIO` | kernel/src/conexion/conexion.c:571-590 | In place. The requesters left are each in exactly one place, and an end that resumes only the first process of the list keeps the guarantee for the others. |
| `InterfazModulo.Conexion.LiberarInterfaz` | entradasalida/src/main.c:148-153 | In place. At most one worker still has the flag, every requester stays in exactly one place, and freeing the flag first always keeps the guarantee. |
| `InterfazModulo.Conexion.EnviarFinIO` | entradasalida/src/main.c:152-153 | In place. The guarantee is kept if and only if it is not the last end pending with a refusal still to be sent. |
| `InterfazModulo.Conexion.EnviarFinDeEscritura` | entradasalida/src/main.c:323-329 | In place. Announcing the end of a write before freeing the flag keeps the guarantee if and only if no refusal is still to be sent or another worker has an end to announce. |
| `Codec.VueltaI64` | utils/src/utils/codec/deserializar.c:13-21 | A signed 64-bit integer is read back, negative ones included. |
| `Codec.VueltaOpcional` | utils/src/utils/codec/deserializar.c:124-133 | A string or its absence is read back, NULL being length 0. |
| `Codec.VueltaTomados` | utils/src/utils/codec/deserializar.c:135-143 | A list of any length of held resources is read back and the cursor ends after it. |
| `Codec.VueltaRegistros` | utils/src/utils/codec/deserializar.c:99-114 | The eleven registers are read back. |
| `Codec.VueltaPcb` | utils/src/utils/codec/deserializar.c:116-152 | A serialized PCB anywhere in a stream is read back whole and the cursor stops at its last byte. |
| `Codec.VueltaRegistro` | utils/src/utils/codec/deserializar.c:33-50 | A typed register of 8 or 32 bits is read back. |
| `Codec.VueltaContexto` | utils/src/utils/codec/deserializar.c:154-175 | The execution context with the PCB inside is read back. |
| `Codec.VueltaPeticion` | utils/src/utils/codec/deserializar.c:522-602 | Every gen_sleep, stdout and fs_* request, wherever it is in a stream, is read back whole by the reader of its code. |
| `Codec.DosPeticiones` | utils/src/utils/codec/deserializar.c:177-188 | Two messages in a row: the second is read from where the first ended. |
| `Codec.StdinNoVuelve` | utils/src/utils/codec/serializar.c:492-501 | The standard-input request is never read to its end: its reader takes the length of the repeated name for the register. |
| `CodecPaquete.Paquete.AgregarTomados` | utils/src/utils/codec/serializar.c:140-149 | The loop appends the count and every held resource. |
| `CodecPaquete.Paquete.SerializarPcb` | utils/src/utils/codec/serializar.c:119-156 | The buffer grows by the specified bytes of the PCB. |
| `CodecPaquete.Paquete.SerializarContexto` | utils/src/utils/codec/serializar.c:158-175 | The buffer grows by the specified bytes of the context. |
| `CodecPaquete.Paquete.SerializarPeticion` | utils/src/utils/codec/serializar.c:567-637 | The buffer grows by the specified bytes of the request. |
| `CodecPaquete.Lector.DeserializarTomados` | utils/src/utils/codec/deserializar.c:135-143 | The reader's loop gives the specified list and moves the cursor past it. |
| `CodecPaquete.Lector.DeserializarPcb` | utils/src/utils/codec/deserializar.c:116-152 | The reader gives the specified PCB and moves the cursor past it. |
| `CodecPaquete.Lector.DeserializarPeticion` | utils/src/utils/codec/deserializar.c:522-602 | The reader gives the specified request and moves the cursor past it. |
| `CodecPaquete.Viaje` | utils/src/utils/codec/serializar.c:503-510 | A request written by one end is the request read by the other. |

## Left out

- `DialFsOps.Liberar`: clearing a bit past the last block, when the last file shrinks, changes nothing here; the program clears a bit outside its array.
- `InterfazIO.TodosAtendidos`: assumes runs without the two races; `InterfazIO.PasoProgresoSii` says at each step when one happens and `InterfazCarreras.CorridaPerdida` what follows.
- `InterfazCarreras.CorridaPerdida`: without new requests, since the end of somebody else's operation may resume the process left waiting.
- `TlbLru.CorridaLru`: assumes clock readings that strictly advance; with equal readings the scan takes the first of the oldest, or none (`Tlb.IndiceLruSii`).
- `TlbCorridas.SistemaFifo`: runs without flushes; `TlbFifo.LimpiarFifoSii` says what each flush does to the order.
- `Espacios.LecturaDeLoEscrito`: for a write at aligned addresses; `Acceso.LeerLoEscrito` covers the others one write and one read at a time, since an access that is not aligned may touch other processes.
- `KernelCorridas.CorridaQuanta`: the clock readings are those of the events; the polling of the timer thread is not part of the model.
- Persistence: `bitmap.dat`, `bloques.dat` and the metadata files, and what survives a restart.
- Sockets, handshakes, operation codes on the wire, thread creation and the order in which a mutex is won; messages are FIFO sequences and steps are atomic.
- Mutexes as objects, but for the one of NEW once it is locked for ever: `agregar_a_lista_con_semaforos` locks a copy of its mutex.
- The semaphores of the RR quantum and of the pause command, and the time quanta take.
- Killing a running process from the console, which only sends an interrupt; its later exit is the event `Termina`.
- Killing a process in the middle of an I/O operation, whose interface still answers for it.
- Instruction fetch and decode, register arithmetic and the loops that count a register down.
- The interface and file names of busy answers, and the fields of the waiting list beyond the pid.
- The busy answer of a standard-output interface, whose reader expects a register where its writer puts four bytes.
- Ownership of memory: PCBs that travel to the CPU and back are values, and freed buffers have no model.
- Logging, configuration files, console commands and delays.
