/** The kernel as a value: process lists, state table, resources and semaphores, and one function for
    each handler, taken as one atomic step. */
module KernelEstado {
  import opened Comunes

  datatype Estado = NEW | READY | EXEC | BLOCKED | EXITT | READY_AUX

  datatype Planificacion = FIFO | RR | VRR

  datatype Pcb = Pcb(estado: Estado, quantum: int, tiempoInicial: int, tomados: seq<string>, esperando: Option<string>)

  datatype Recurso = Recurso(instancias: int, bloqueados: seq<nat>)

  /** The six process lists. */
  datatype Colas = Colas(nuevos: seq<nat>, ready: seq<nat>, exec: seq<nat>, blocked: seq<nat>, salida: seq<nat>, auxiliar: seq<nat>)

  /** `newTrabada`: nobody will ever let go of the mutex of the NEW list. `largoTomado`: whoever has the semaphore of the
      long-term scheduler waits for that mutex. */
  datatype Kernel = Kernel(
    algoritmo: Planificacion, quantum: int,
    colas: Colas, pcbs: map<nat, Pcb>, estados: seq<Estado>,
    recursos: map<string, Recurso>,
    cpuLibre: int, enReady: int,
    grado: int, admision: bool,
    newTrabada: bool, largoTomado: bool)

  // ---------------------------------------------------------------- lists

  function Cola(c: Colas, e: Estado): seq<nat> {
    match e
    case NEW => c.nuevos
    case READY => c.ready
    case EXEC => c.exec
    case BLOCKED => c.blocked
    case EXITT => c.salida
    case READY_AUX => c.auxiliar
  }

  function ConCola(c: Colas, e: Estado, s: seq<nat>): Colas {
    match e
    case NEW => c.(nuevos := s)
    case READY => c.(ready := s)
    case EXEC => c.(exec := s)
    case BLOCKED => c.(blocked := s)
    case EXITT => c.(salida := s)
    case READY_AUX => c.(auxiliar := s)
  }

  lemma ColaCambiada(c: Colas, e: Estado, s: seq<nat>, f: Estado)
    ensures Cola(ConCola(c, e, s), f) == if e == f then s else Cola(c, f)
  {
  }

  /** A created pid. */
  predicate Creado(k: Kernel, p: nat) {
    1 <= p <= |k.estados|
  }

  /** The process leaves the list its state names. */
  function Sacar(k: Kernel, p: nat): Kernel
    requires Creado(k, p)
  {
    var e := k.estados[p - 1];
    k.(colas := ConCola(k.colas, e, Quitar(Cola(k.colas, e), p)))
  }

  /** `actualizar_estado_pcb`: new state in the PCB and in the table, and last place in the list. */
  function Poner(k: Kernel, p: nat, e: Estado): Kernel
    requires Creado(k, p) && p in k.pcbs
  {
    k.(pcbs := k.pcbs[p := k.pcbs[p].(estado := e)], estados := k.estados[p - 1 := e],
       colas := ConCola(k.colas, e, Cola(k.colas, e) + [p]))
  }

  function Mover(k: Kernel, p: nat, e: Estado): Kernel
    requires Creado(k, p) && p in k.pcbs
  {
    Poner(Sacar(k, p), p, e)
  }

  // ---------------------------------------------------------------- invariant of the lists

  /** The process is in the list of state `e`. */
  predicate EnCola(k: Kernel, e: Estado, p: nat) {
    p in Cola(k.colas, e)
  }

  /** The state table says `e`. */
  predicate Figura(k: Kernel, e: Estado, p: nat) {
    Creado(k, p) && k.estados[p - 1] == e
  }

  /** Every created process is in exactly the list its table entry names, once, except those that a
      handler has in its hands. */
  ghost predicate InvColas(k: Kernel, enMano: set<nat>) {
    && (forall p: nat :: p in k.pcbs <==> Creado(k, p))
    && (forall p: nat :: p in k.pcbs ==> Figura(k, k.pcbs[p].estado, p))
    && (forall e: Estado, p: nat :: EnCola(k, e, p) <==> Figura(k, e, p) && p !in enMano)
    && (forall e: Estado :: SinRepetidos(Cola(k.colas, e)))
  }

  /** With nothing in hand: every created pid is in one list and no other, the one its table entry and its PCB name. */
  lemma EnUnaSolaCola(k: Kernel, p: nat, e: Estado, f: Estado)
    requires InvColas(k, {}) && Creado(k, p)
    ensures EnCola(k, k.estados[p - 1], p) && k.pcbs[p].estado == k.estados[p - 1]
    ensures EnCola(k, e, p) && EnCola(k, f, p) ==> e == f
  {
    assert Figura(k, k.estados[p - 1], p);
  }

  lemma SacarColas(k: Kernel, enMano: set<nat>, p: nat)
    requires InvColas(k, enMano) && Creado(k, p)
    ensures InvColas(Sacar(k, p), enMano + {p})
  {
    var e := k.estados[p - 1];
    var r := Sacar(k, p);
    var s := Cola(k.colas, e);
    assert SinRepetidos(s);
    QuitarSinRepetidos(s, p);
    forall f: Estado ensures SinRepetidos(Cola(r.colas, f)) {
      ColaCambiada(k.colas, e, Quitar(s, p), f);
    }
    hide SinRepetidos, Quitar;
    forall f: Estado, q: nat ensures EnCola(r, f, q) <==> Figura(r, f, q) && q !in enMano + {p} {
      ColaCambiada(k.colas, e, Quitar(s, p), f);
      assert EnCola(k, f, q) <==> Figura(k, f, q) && q !in enMano;
      assert q in s <==> EnCola(k, e, q);
    }
  }

  lemma PonerColas(k: Kernel, enMano: set<nat>, p: nat, e: Estado)
    requires InvColas(k, enMano) && Creado(k, p) && p in enMano
    ensures p in k.pcbs && InvColas(Poner(k, p, e), enMano - {p})
  {
    var r := Poner(k, p, e);
    var s := Cola(k.colas, e);
    assert SinRepetidos(s) && (p in s <==> EnCola(k, e, p));
    forall f: Estado ensures SinRepetidos(Cola(r.colas, f)) {
      ColaCambiada(k.colas, e, s + [p], f);
    }
    hide SinRepetidos;
    forall f: Estado, q: nat ensures EnCola(r, f, q) <==> Figura(r, f, q) && q !in enMano - {p} {
      PonerEnCola(k, p, e, f, q);
      assert EnCola(k, f, q) <==> Figura(k, f, q) && q !in enMano;
    }
    forall q: nat | q in r.pcbs ensures Figura(r, r.pcbs[q].estado, q) {
      PonerEnCola(k, p, e, r.pcbs[q].estado, q);
    }
  }

  lemma PonerEnCola(k: Kernel, p: nat, e: Estado, f: Estado, q: nat)
    requires Creado(k, p) && p in k.pcbs
    ensures EnCola(Poner(k, p, e), f, q) <==> EnCola(k, f, q) || (f == e && q == p)
    ensures Figura(Poner(k, p, e), f, q) <==> if q == p then f == e else Figura(k, f, q)
  {
    ColaCambiada(k.colas, e, Cola(k.colas, e) + [p], f);
  }

  lemma MoverColas(k: Kernel, enMano: set<nat>, p: nat, e: Estado)
    requires InvColas(k, enMano) && Creado(k, p) && p !in enMano
    ensures p in k.pcbs && InvColas(Mover(k, p, e), enMano)
  {
    hide InvColas, Poner;
    SacarColas(k, enMano, p);
    PonerColas(Sacar(k, p), enMano + {p}, p, e);
    assert enMano + {p} - {p} == enMano;
  }

  /** The lists do not depend on the rest of the PCBs. */
  lemma PcbColas(k: Kernel, enMano: set<nat>, p: nat, b: Pcb)
    requires InvColas(k, enMano) && p in k.pcbs && b.estado == k.pcbs[p].estado
    ensures InvColas(k.(pcbs := k.pcbs[p := b]), enMano)
  {
    hide SinRepetidos;
    var r := k.(pcbs := k.pcbs[p := b]);
    assert forall e: Estado, q: nat :: (EnCola(r, e, q) <==> EnCola(k, e, q)) && (Figura(r, e, q) <==> Figura(k, e, q));
  }

  lemma MismasColas(k: Kernel, r: Kernel, enMano: set<nat>)
    requires InvColas(k, enMano) && r.colas == k.colas && r.pcbs == k.pcbs && r.estados == k.estados
    ensures InvColas(r, enMano)
  {
    hide SinRepetidos;
    assert forall e: Estado, q: nat :: (EnCola(r, e, q) <==> EnCola(k, e, q)) && (Figura(r, e, q) <==> Figura(k, e, q));
  }
}
