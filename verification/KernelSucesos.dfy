/** Every event the kernel handles as a step, and what one step keeps. */
module KernelSucesos {
  import opened Comunes
  import opened KernelEstado
  import opened KernelRecursos
  import opened KernelPasos

  datatype Suceso =
    | Crea
    | Comprueba(enMovimiento: bool)
    | Admite
    | CambiaGrado(grado: int)
    | Despacha(ahora: int)
    | FinDeQuantum
    | Termina
    | SinInterfaz
    | PideWait(recurso: string)
    | PideSignal(recurso: string)
    | PideIO(ahora: int)
    | FinIO(pid: nat)
    | ErrorIO(pid: nat)
    | Mata(pid: nat)
    | EsperaNew

  // ---------------------------------------------------------------- long and short term scheduling

  /** `crear_proceso`: pids are given in order, from 1 on. */
  function Crear(k: Kernel): Kernel {
    var p := |k.estados| + 1;
    k.(pcbs := k.pcbs[p := Pcb(NEW, 0, 0, [], None)], estados := k.estados + [NEW],
       colas := k.colas.(nuevos := k.colas.nuevos + [p]))
  }

  /** Processes that count for the degree of multiprogramming. */
  function Activos(k: Kernel): nat {
    |k.colas.ready| + |k.colas.auxiliar| + |k.colas.exec| + |k.colas.blocked|
  }

  /** `mover_a_ready`, first half: compares with the degree and lets the locks go. It does not count a process that
      another thread has taken out of one list and not put in the next one yet; only one at a time can be there. */
  function Comprobar(k: Kernel, enMovimiento: bool): Kernel {
    if Activos(k) - Uno(enMovimiento) >= k.grado then k else k.(admision := true)
  }

  /** `mover_a_ready`, second half: the oldest new process, if there is one, becomes ready; if there is none the mutex
      of the list stays locked. */
  function Admitir(k: Kernel): Kernel
    requires k.colas.nuevos != [] ==> Creado(k, k.colas.nuevos[0]) && k.colas.nuevos[0] in k.pcbs
  {
    var s := k.(admision := false);
    if k.colas.nuevos == [] then s.(newTrabada := true)
    else Mover(s, k.colas.nuevos[0], READY).(enReady := k.enReady + 1)
  }

  /** The process the short-term scheduler takes. */
  function Siguiente(k: Kernel): Option<nat> {
    if k.algoritmo == VRR && k.colas.auxiliar != [] then Some(k.colas.auxiliar[0])
    else if k.colas.ready != [] then Some(k.colas.ready[0])
    else None
  }

  /** The quantum the timer gets: what was left, for a process of the priority list, else a whole one. */
  function QuantumDado(k: Kernel, p: nat): int
    requires p in k.pcbs
  {
    if k.colas.auxiliar != [] && k.colas.auxiliar[0] == p then k.pcbs[p].quantum else k.quantum
  }

  /** One round of `planificadorCortoPlazo`; with no process it keeps both semaphores it took. */
  function Despachar(k: Kernel, ahora: int): Kernel
    requires Siguiente(k).Some? ==> Creado(k, Siguiente(k).value) && Siguiente(k).value in k.pcbs
  {
    var s := k.(cpuLibre := k.cpuLibre - 1, enReady := k.enReady - 1);
    match Siguiente(k)
    case None => s
    case Some(p) =>
      var b := if k.algoritmo == VRR then k.pcbs[p].(quantum := QuantumDado(k, p), tiempoInicial := ahora) else k.pcbs[p];
      Mover(ConPcb(s, p, b), p, EXEC)
  }

  /** Back from the CPU at the end of its quantum. */
  function Desalojar(k: Kernel, p: nat): Kernel
    requires EnCpu(k, p)
  {
    SoltarCpu(Mover(k, p, READY).(enReady := k.enReady + 1))
  }

  /** Blocked for I/O; VRR charges the burst to its quantum. */
  function BloquearIO(k: Kernel, p: nat, ahora: int): Kernel
    requires EnCpu(k, p)
  {
    var b := k.pcbs[p];
    var c := if k.algoritmo == VRR then b.(quantum := b.quantum - (ahora - b.tiempoInicial)) else b;
    SoltarCpu(Mover(ConPcb(k, p, c), p, BLOCKED))
  }

  function AtenderWait(k: Kernel, p: nat, r: string): Kernel
    requires EnCpu(k, p)
  {
    if r in k.recursos then Wait(k, p, r) else SoltarCpu(Eliminar(k, p))
  }

  function AtenderSignal(k: Kernel, p: nat, r: string): Kernel
    requires EnCpu(k, p)
  {
    if r in k.recursos then Signal(k, p, r) else SoltarCpu(Eliminar(k, p))
  }

  /** A process that `hayar_pcb` finds in a list; a running one is only interrupted. */
  predicate Matable(k: Kernel, p: nat) {
    Creado(k, p) && p in k.pcbs && k.estados[p - 1] in {NEW, READY, BLOCKED, READY_AUX}
  }

  function Matar(k: Kernel, p: nat): Kernel {
    if Matable(k, p) then Eliminar(k, p) else k
  }

  // ---------------------------------------------------------------- steps

  function EnEjecucion(k: Kernel): nat
    requires k.colas.exec != []
  {
    k.colas.exec[0]
  }

  predicate BloqueadoPorIO(k: Kernel, p: nat) {
    Bloqueado(k, p) && k.pcbs[p].esperando == None
  }

  /** A process that ends, and an admission, take the semaphore of the long-term scheduler. */
  predicate TomaLargo(k: Kernel, s: Suceso) {
    || s.Admite? || s.Termina? || s.SinInterfaz? || s.ErrorIO? || s.Mata?
    || ((s.PideWait? || s.PideSignal?) && s.recurso !in k.recursos)
  }

  /** A creation, an admission and a kill take the mutex of the NEW list. */
  predicate TomaNew(s: Suceso) {
    s.Crea? || s.Admite? || s.Mata?
  }

  /** When an event can happen: semaphores and mutexes let the thread through to the end, the CPU answers for the process
      it has, and the I/O module for one that is blocked. RR takes from READY without looking. A kill or another admission
      that waits for ever for the NEW list is `EsperaNew`. */
  predicate Posible(k: Kernel, s: Suceso) {
    && (k.newTrabada ==> !TomaNew(s)) && (k.largoTomado ==> !TomaLargo(k, s))
    && match s
    case Crea | CambiaGrado(_) | Mata(_) => true
    case Comprueba(enMovimiento) => enMovimiento ==> Activos(k) > 0
    case EsperaNew => k.newTrabada && !k.largoTomado
    case Admite => k.admision && (k.colas.nuevos != [] ==> Creado(k, k.colas.nuevos[0]) && k.colas.nuevos[0] in k.pcbs)
    case Despacha(_) =>
      && k.cpuLibre > 0 && k.enReady > 0 && (k.algoritmo == RR ==> k.colas.ready != [])
      && (Siguiente(k).Some? ==> Creado(k, Siguiente(k).value) && Siguiente(k).value in k.pcbs)
    case FinDeQuantum | Termina | SinInterfaz | PideWait(_) | PideSignal(_) | PideIO(_) =>
      k.colas.exec != [] && EnCpu(k, EnEjecucion(k))
    case FinIO(p) => BloqueadoPorIO(k, p)
    case ErrorIO(p) => BloqueadoPorIO(k, p)
  }

  function Paso(k: Kernel, s: Suceso): Kernel
    requires Posible(k, s)
  {
    match s
    case Crea => Crear(k)
    case Comprueba(enMovimiento) => Comprobar(k, enMovimiento)
    case Admite => Admitir(k)
    case CambiaGrado(g) => k.(grado := g)
    case Despacha(ahora) => Despachar(k, ahora)
    case FinDeQuantum => Desalojar(k, EnEjecucion(k))
    case Termina => Terminar(k, EnEjecucion(k))
    case SinInterfaz => SoltarCpu(Eliminar(k, EnEjecucion(k)))
    case PideWait(r) => AtenderWait(k, EnEjecucion(k), r)
    case PideSignal(r) => AtenderSignal(k, EnEjecucion(k), r)
    case PideIO(ahora) => BloquearIO(k, EnEjecucion(k), ahora)
    case FinIO(p) => Desbloquear(k, p)
    case ErrorIO(p) => Eliminar(k, p)
    case Mata(p) => Matar(k, p)
    case EsperaNew => k.(largoTomado := true)
  }

  // ---------------------------------------------------------------- lists and resources

  lemma MismoInv(k: Kernel, s: Kernel)
    requires Inv(k) && s.colas == k.colas && s.pcbs == k.pcbs && s.estados == k.estados && s.recursos == k.recursos
    ensures Inv(s)
  {
    MismasColas(k, s, {});
    hide InvColas, Recuento;
    assert forall q: nat, x: string :: (EnEspera(s, q, x) <==> EnEspera(k, q, x)) && (Espera(s, q, x) <==> Espera(k, q, x));
    assert forall q: nat :: Figura(s, BLOCKED, q) <==> Figura(k, BLOCKED, q);
  }

  lemma PcbInv(k: Kernel, p: nat, b: Pcb)
    requires Inv(k) && p in k.pcbs && b.estado == k.pcbs[p].estado && b.esperando == k.pcbs[p].esperando
    requires forall r :: r in b.tomados ==> r in k.recursos
    ensures Inv(ConPcb(k, p, b))
  {
    PcbColas(k, {}, p, b);
    hide InvColas, Recuento;
    var s := ConPcb(k, p, b);
    assert forall q: nat, x: string :: (EnEspera(s, q, x) <==> EnEspera(k, q, x)) && (Espera(s, q, x) <==> Espera(k, q, x));
    assert forall q: nat :: Figura(s, BLOCKED, q) <==> Figura(k, BLOCKED, q);
  }

  /** Moving a process touches its state and the lists. */
  lemma MoverEs(k: Kernel, p: nat, e: Estado)
    requires Creado(k, p) && p in k.pcbs
    ensures var s := Mover(k, p, e);
            && s == k.(colas := s.colas, pcbs := k.pcbs[p := k.pcbs[p].(estado := e)], estados := k.estados[p - 1 := e])
            && forall q: nat, f: Estado :: Figura(s, f, q) <==> if q == p then f == e else Figura(k, f, q)
  {
    hide Quitar;
  }

  /** A process that waits for nothing may go from any list to any list. */
  lemma MoverInv(k: Kernel, p: nat, e: Estado)
    requires Inv(k) && Creado(k, p) && p in k.pcbs && k.pcbs[p].esperando == None
    ensures Inv(Mover(k, p, e))
  {
    hide InvColas, Recuento, Mover;
    MoverColas(k, {}, p, e);
    MoverEs(k, p, e);
    var s := Mover(k, p, e);
    forall q: nat, x: string
      ensures EnEspera(s, q, x) <==> EnEspera(k, q, x)
      ensures Espera(s, q, x) <==> Espera(k, q, x)
      ensures EnEspera(s, q, x) ==> q != p
    {
    }
  }

  lemma NoEspera(k: Kernel, p: nat)
    requires Inv(k) && p in k.pcbs && !Figura(k, BLOCKED, p)
    ensures k.pcbs[p].esperando == None
  {
    hide InvColas;
    assert k.pcbs[p].esperando.Some? ==> Espera(k, p, k.pcbs[p].esperando.value);
  }

  lemma EnCpuFigura(k: Kernel, p: nat)
    requires InvColas(k, {}) && EnCpu(k, p)
    ensures Figura(k, EXEC, p) && EnCola(k, EXEC, p) && p in k.pcbs && Creado(k, p)
  {
    assert p in Cola(k.colas, EXEC);
    assert EnCola(k, EXEC, p);
  }

  lemma EnCpuEs(k: Kernel, p: nat)
    requires Inv(k) && EnCpu(k, p)
    ensures Figura(k, EXEC, p) && k.pcbs[p].esperando == None && EnCola(k, EXEC, p) && p in k.pcbs && Creado(k, p)
  {
    hide InvColas, InvRecursos;
    EnCpuFigura(k, p);
    NoEspera(k, p);
  }

  lemma CrearInv(k: Kernel)
    requires Inv(k)
    ensures Inv(Crear(k))
  {
    CrearColas(k);
    var s, p := Crear(k), |k.estados| + 1;
    assert !Creado(k, p);
    hide InvColas, Recuento;
    forall q: nat, x: string
      ensures EnEspera(s, q, x) <==> EnEspera(k, q, x)
      ensures Espera(s, q, x) <==> Espera(k, q, x)
      ensures Figura(k, BLOCKED, q) ==> Figura(s, BLOCKED, q)
    {
    }
  }

  lemma CrearColas(k: Kernel)
    requires InvColas(k, {})
    ensures InvColas(Crear(k), {})
  {
    var s, p := Crear(k), |k.estados| + 1;
    assert !EnCola(k, NEW, p) by { assert !Figura(k, NEW, p); }
    assert SinRepetidos(Cola(k.colas, NEW));
    assert forall e: Estado :: SinRepetidos(Cola(s.colas, e)) by {
      forall e: Estado ensures SinRepetidos(Cola(s.colas, e)) {
        assert SinRepetidos(Cola(k.colas, e));
      }
    }
    hide SinRepetidos;
    forall e: Estado, q: nat
      ensures EnCola(s, e, q) <==> Figura(s, e, q)
    {
      assert EnCola(k, e, q) <==> Figura(k, e, q);
    }
    forall q: nat | q in s.pcbs ensures Figura(s, s.pcbs[q].estado, q) {
      if q != p {
        assert Figura(k, k.pcbs[q].estado, q);
      }
    }
  }

  lemma WaitInv(k: Kernel, p: nat, r: string)
    requires Inv(k) && EnCpu(k, p) && r in k.recursos
    ensures Inv(Wait(k, p, r))
  {
    EnCpuEs(k, p);
    var rec := k.recursos[r];
    assert Recuento(rec);
    if rec.instancias - 1 < 0 {
      EsperarInv(k, p, r);
    } else {
      var k1 := ConRecurso(k, r, Recurso(rec.instancias - 1, rec.bloqueados));
      ConRecursoInv(k, r, k1.recursos[r]);
      var b := k.pcbs[p].(tomados := k.pcbs[p].tomados + [r]);
      PcbInv(k1, p, b);
    }
  }

  lemma ConRecursoInv(k: Kernel, r: string, rec: Recurso)
    requires Inv(k) && r in k.recursos && Recuento(rec) && rec.bloqueados == k.recursos[r].bloqueados
    ensures Inv(ConRecurso(k, r, rec))
  {
    var s := ConRecurso(k, r, rec);
    MismasColas(k, s, {});
    hide InvColas, Recuento;
    assert forall q: nat, x: string :: (EnEspera(s, q, x) <==> EnEspera(k, q, x)) && (Espera(s, q, x) <==> Espera(k, q, x));
    assert forall q: nat :: Figura(s, BLOCKED, q) <==> Figura(k, BLOCKED, q);
  }

  lemma EsperarInv(k: Kernel, p: nat, r: string)
    requires Inv(k) && EnCpu(k, p) && r in k.recursos && k.recursos[r].instancias <= 0
    ensures Inv(Wait(k, p, r))
  {
    hide InvColas, Recuento, Mover;
    EnCpuEs(k, p);
    EsperarRecuento(k, p, r);
    var rec := k.recursos[r];
    var k1 := ConRecurso(k, r, Recurso(rec.instancias - 1, rec.bloqueados + [p]));
    var s := Wait(k, p, r);
    EsperarColas(k, k1, p, r);
    MoverEs(k1, p, BLOCKED);
    forall q: nat, x: string
      ensures EnEspera(s, q, x) <==> EnEspera(k, q, x) || (q == p && x == r)
      ensures Espera(s, q, x) <==> Espera(k, q, x) || (q == p && x == r)
    {
    }
    forall q: nat ensures Figura(s, BLOCKED, q) <==> Figura(k, BLOCKED, q) || q == p {
      assert Figura(k1, BLOCKED, q) <==> Figura(k, BLOCKED, q);
      assert Figura(s, BLOCKED, q) <==> Figura(Mover(k1, p, BLOCKED), BLOCKED, q);
    }
  }

  lemma EsperarColas(k: Kernel, k1: Kernel, p: nat, r: string)
    requires InvColas(k, {}) && EnCpu(k, p) && r in k.recursos && k.recursos[r].instancias <= 0
    requires k1 == ConRecurso(k, r, Recurso(k.recursos[r].instancias - 1, k.recursos[r].bloqueados + [p]))
    ensures InvColas(Wait(k, p, r), {})
  {
    hide InvColas, Mover;
    MismasColas(k, k1, {});
    MoverColas(k1, {}, p, BLOCKED);
    MoverEs(k1, p, BLOCKED);
    var k2 := Mover(k1, p, BLOCKED);
    var b := k2.pcbs[p].(esperando := Some(r));
    PcbColas(k2, {}, p, b);
    MismasColas(ConPcb(k2, p, b), Wait(k, p, r), {});
  }

  lemma EsperarRecuento(k: Kernel, p: nat, r: string)
    requires Inv(k) && Figura(k, EXEC, p) && r in k.recursos && k.recursos[r].instancias <= 0
    ensures var rec := k.recursos[r];
            Recuento(Recurso(rec.instancias - 1, rec.bloqueados + [p]))
  {
    assert Recuento(k.recursos[r]);
    assert !EnEspera(k, p, r);
  }

  lemma SignalInv(k: Kernel, p: nat, r: string)
    requires Inv(k) && EnCpu(k, p) && r in k.recursos
    ensures Inv(Signal(k, p, r))
  {
    hide InvColas, InvRecursos, Incrementar, Quitar;
    EnCpuEs(k, p);
    IncrementarColas(k, {}, r);
    IncrementarRecursos(k, {}, r);
    IncrementarAjeno(k, {}, r, p);
    var s := Incrementar(k, r);
    QuitarTomados(s, p, r);
    PcbInv(s, p, s.pcbs[p].(tomados := Quitar(s.pcbs[p].tomados, r)));
  }

  lemma QuitarTomados(k: Kernel, p: nat, r: string)
    requires Inv(k) && p in k.pcbs
    ensures forall x :: x in Quitar(k.pcbs[p].tomados, r) ==> x in k.recursos
  {
    forall x | x in Quitar(k.pcbs[p].tomados, r) ensures x in k.recursos {
      assert x in k.pcbs[p].tomados;
    }
  }

  lemma TerminarInv(k: Kernel, p: nat)
    requires Inv(k) && EnCpu(k, p)
    ensures Inv(Terminar(k, p))
  {
    hide InvColas, InvRecursos, Devolver, Mover;
    EnCpuEs(k, p);
    var t := k.pcbs[p].tomados;
    DevolverInv(k, {}, t, |t|);
    DevolverAjeno(k, {}, t, |t|, p);
    var s := Devolver(k, t, |t|);
    assert s == Liberar(k, p);
    MoverInv(s, p, EXITT);
    MismoInv(Mover(s, p, EXITT), Terminar(k, p));
  }

  lemma DespacharInv(k: Kernel, ahora: int)
    requires Inv(k) && Posible(k, Despacha(ahora))
    ensures Inv(Despachar(k, ahora))
  {
    var s := k.(cpuLibre := k.cpuLibre - 1, enReady := k.enReady - 1);
    MismoInv(k, s);
    if Siguiente(k).Some? {
      var p := Siguiente(k).value;
      SiguienteEs(k);
      NoEspera(k, p);
      hide InvColas, InvRecursos, Mover;
      var b := if k.algoritmo == VRR then k.pcbs[p].(quantum := QuantumDado(k, p), tiempoInicial := ahora) else k.pcbs[p];
      TomadosDe(k, p);
      PcbInv(s, p, b);
      MoverInv(ConPcb(s, p, b), p, EXEC);
    }
  }

  lemma TomadosDe(k: Kernel, p: nat)
    requires Inv(k) && p in k.pcbs
    ensures forall r :: r in k.pcbs[p].tomados ==> r in k.recursos
  {
  }

  lemma SiguienteEs(k: Kernel)
    requires InvColas(k, {}) && Siguiente(k).Some?
    ensures var p := Siguiente(k).value;
            Creado(k, p) && p in k.pcbs && k.estados[p - 1] in {READY, READY_AUX}
            && (k.estados[p - 1] == READY_AUX <==> k.algoritmo == VRR && k.colas.auxiliar != [])
  {
    var p := Siguiente(k).value;
    var e := if k.algoritmo == VRR && k.colas.auxiliar != [] then READY_AUX else READY;
    assert p in Cola(k.colas, e) && EnCola(k, e, p);
  }

  /** An event in which no process ends while it waits for a resource it holds with units enough to lose one. */
  ghost predicate SinPerdida(k: Kernel, s: Suceso) {
    s.Mata? && Matable(k, s.pid) ==> forall r :: !PierdeUnidad(k, s.pid, r)
  }

  /** Every event keeps every process in one list and the wait queues as long as the units owed, if and only
      if nobody is killed while waiting for a resource it holds in the way that loses a unit. */
  lemma PasoInvSii(k: Kernel, s: Suceso)
    requires Inv(k) && Posible(k, s)
    ensures Inv(Paso(k, s)) <==> SinPerdida(k, s)
  {
    hide Inv, Wait, Signal, Terminar, Eliminar, Mover, PierdeUnidad;
    match s
    case Crea => CrearInv(k);
    case Comprueba(m) => MismoInv(k, Comprobar(k, m));
    case Admite => AdmitirInv(k);
    case CambiaGrado(g) => MismoInv(k, k.(grado := g));
    case Despacha(ahora) => DespacharInv(k, ahora);
    case FinDeQuantum => DesalojarInv(k, EnEjecucion(k));
    case Termina => TerminarInv(k, EnEjecucion(k));
    case SinInterfaz => ExpulsarInv(k, EnEjecucion(k));
    case PideWait(r) =>
      if r in k.recursos { WaitInv(k, EnEjecucion(k), r); } else { ExpulsarInv(k, EnEjecucion(k)); }
    case PideSignal(r) =>
      if r in k.recursos { SignalInv(k, EnEjecucion(k), r); } else { ExpulsarInv(k, EnEjecucion(k)); }
    case PideIO(ahora) => BloquearIOInv(k, EnEjecucion(k), ahora);
    case FinIO(p) => DesbloquearInv(k, p);
    case ErrorIO(p) => ErrorIOInv(k, p);
    case Mata(p) => if Matable(k, p) { EliminarInvSii(k, p); }
    case EsperaNew => MismoInv(k, Paso(k, s));
  }

  lemma AdmitirInv(k: Kernel)
    requires Inv(k) && Posible(k, Admite)
    ensures Inv(Admitir(k))
  {
    var s := k.(admision := false);
    MismoInv(k, s);
    if k.colas.nuevos != [] {
      var p := k.colas.nuevos[0];
      assert p in Cola(k.colas, NEW) && EnCola(k, NEW, p);
      NoEspera(k, p);
      hide Inv, Mover;
      MoverInv(s, p, READY);
      MismoInv(Mover(s, p, READY), Admitir(k));
    } else {
      MismoInv(k, Admitir(k));
    }
  }

  lemma DesalojarInv(k: Kernel, p: nat)
    requires Inv(k) && EnCpu(k, p)
    ensures Inv(Desalojar(k, p))
  {
    hide Inv, Mover;
    EnCpuEs(k, p);
    MoverInv(k, p, READY);
    MismoInv(Mover(k, p, READY), Desalojar(k, p));
  }

  lemma ExpulsarInv(k: Kernel, p: nat)
    requires Inv(k) && EnCpu(k, p)
    ensures Inv(SoltarCpu(Eliminar(k, p)))
  {
    hide Inv, Eliminar;
    EnCpuEs(k, p);
    EliminarInvSii(k, p);
    MismoInv(Eliminar(k, p), SoltarCpu(Eliminar(k, p)));
  }

  lemma BloquearIOInv(k: Kernel, p: nat, ahora: int)
    requires Inv(k) && EnCpu(k, p)
    ensures Inv(BloquearIO(k, p, ahora))
  {
    hide Inv, Mover;
    EnCpuEs(k, p);
    TomadosDe(k, p);
    var b := k.pcbs[p];
    var c := if k.algoritmo == VRR then b.(quantum := b.quantum - (ahora - b.tiempoInicial)) else b;
    PcbInv(k, p, c);
    MoverInv(ConPcb(k, p, c), p, BLOCKED);
    MismoInv(Mover(ConPcb(k, p, c), p, BLOCKED), BloquearIO(k, p, ahora));
  }

  lemma DesbloquearInv(k: Kernel, p: nat)
    requires Inv(k) && BloqueadoPorIO(k, p)
    ensures Inv(Desbloquear(k, p))
  {
    hide Inv, Mover;
    MoverInv(k, p, Destino(k, k.pcbs[p]));
    MismoInv(Mover(k, p, Destino(k, k.pcbs[p])), Desbloquear(k, p));
  }

  lemma ErrorIOInv(k: Kernel, p: nat)
    requires Inv(k) && BloqueadoPorIO(k, p)
    ensures Inv(Eliminar(k, p))
  {
    assert EnCola(k, BLOCKED, p) ==> Figura(k, BLOCKED, p);
    hide Inv, Eliminar;
    EliminarInvSii(k, p);
  }

  // ---------------------------------------------------------------- the lists alone

  /** Every event keeps every process in exactly the list its state names, whoever is killed. */
  lemma PasoColas(k: Kernel, s: Suceso)
    requires InvColas(k, {}) && Posible(k, s)
    ensures InvColas(Paso(k, s), {})
  {
    hide InvColas, Wait, Signal, Terminar, Eliminar, Mover, Despachar;
    match s
    case Crea => CrearColas(k);
    case Comprueba(m) => MismasColas(k, Comprobar(k, m), {});
    case Admite => AdmitirColas(k);
    case CambiaGrado(g) => MismasColas(k, k.(grado := g), {});
    case Despacha(ahora) => DespacharColas(k, ahora);
    case FinDeQuantum =>
      EnCpuFigura(k, EnEjecucion(k));
      MoverColas(k, {}, EnEjecucion(k), READY);
      MismasColas(Mover(k, EnEjecucion(k), READY), Paso(k, s), {});
    case Termina => TerminarColas(k, EnEjecucion(k));
    case SinInterfaz => ExpulsarColas(k, EnEjecucion(k));
    case PideWait(r) =>
      if r in k.recursos { WaitColas(k, EnEjecucion(k), r); } else { ExpulsarColas(k, EnEjecucion(k)); }
    case PideSignal(r) =>
      if r in k.recursos { SignalColas(k, EnEjecucion(k), r); } else { ExpulsarColas(k, EnEjecucion(k)); }
    case PideIO(ahora) => BloquearIOColas(k, EnEjecucion(k), ahora);
    case FinIO(p) =>
      MoverColas(k, {}, p, Destino(k, k.pcbs[p]));
      MismasColas(Mover(k, p, Destino(k, k.pcbs[p])), Desbloquear(k, p), {});
    case ErrorIO(p) => EliminarColas(k, p);
    case Mata(p) => if Matable(k, p) { EliminarColas(k, p); }
    case EsperaNew => MismasColas(k, Paso(k, s), {});
  }

  lemma AdmitirColas(k: Kernel)
    requires InvColas(k, {}) && Posible(k, Admite)
    ensures InvColas(Admitir(k), {})
  {
    hide InvColas, Mover;
    var s := k.(admision := false);
    MismasColas(k, s, {});
    if k.colas.nuevos != [] {
      var p := k.colas.nuevos[0];
      assert Creado(s, p);
      MoverColas(s, {}, p, READY);
      MismasColas(Mover(s, p, READY), Admitir(k), {});
    } else {
      MismasColas(k, Admitir(k), {});
    }
  }

  lemma DespacharColas(k: Kernel, ahora: int)
    requires InvColas(k, {}) && Posible(k, Despacha(ahora))
    ensures InvColas(Despachar(k, ahora), {})
  {
    hide InvColas, Mover;
    var s := k.(cpuLibre := k.cpuLibre - 1, enReady := k.enReady - 1);
    MismasColas(k, s, {});
    if Siguiente(k).Some? {
      var p := Siguiente(k).value;
      var b := if k.algoritmo == VRR then k.pcbs[p].(quantum := QuantumDado(k, p), tiempoInicial := ahora) else k.pcbs[p];
      PcbColas(s, {}, p, b);
      assert Creado(ConPcb(s, p, b), p);
      MoverColas(ConPcb(s, p, b), {}, p, EXEC);
    }
  }

  /** What a running process gives back leaves it, and the lists, as they have to be. */
  lemma LiberarColas(k: Kernel, p: nat)
    requires InvColas(k, {}) && Figura(k, EXEC, p) && p in k.pcbs
    ensures var s, d := Liberar(k, p), Devolver(k, k.pcbs[p].tomados, |k.pcbs[p].tomados|);
            && InvColas(s, {}) && Figura(s, EXEC, p) && p in s.pcbs
            && s == d.(recursos := s.recursos, pcbs := s.pcbs)
  {
    hide InvColas, Devolver, Quitar;
    var t := k.pcbs[p].tomados;
    DevolverColas(k, {}, t, |t|);
    DevolverAjeno(k, {}, t, |t|, p);
    var d := Devolver(k, t, |t|);
    if k.pcbs[p].esperando.Some? {
      PcbColas(d, {}, p, d.pcbs[p].(esperando := None));
      MismasColas(ConPcb(d, p, d.pcbs[p].(esperando := None)), Liberar(k, p), {});
    }
  }

  lemma TerminarColas(k: Kernel, p: nat)
    requires InvColas(k, {}) && EnCpu(k, p)
    ensures InvColas(Terminar(k, p), {})
  {
    hide InvColas, Liberar, Mover;
    EnCpuFigura(k, p);
    LiberarColas(k, p);
    var s := Liberar(k, p);
    MoverColas(s, {}, p, EXITT);
    MismasColas(Mover(s, p, EXITT), Terminar(k, p), {});
  }

  lemma ExpulsarColas(k: Kernel, p: nat)
    requires InvColas(k, {}) && EnCpu(k, p)
    ensures InvColas(SoltarCpu(Eliminar(k, p)), {})
  {
    hide InvColas, Eliminar;
    EliminarColas(k, p);
    MismasColas(Eliminar(k, p), SoltarCpu(Eliminar(k, p)), {});
  }

  lemma WaitColas(k: Kernel, p: nat, r: string)
    requires InvColas(k, {}) && EnCpu(k, p) && r in k.recursos
    ensures InvColas(Wait(k, p, r), {})
  {
    hide InvColas, Mover;
    var rec := k.recursos[r];
    if rec.instancias - 1 < 0 {
      EsperarColas(k, ConRecurso(k, r, Recurso(rec.instancias - 1, rec.bloqueados + [p])), p, r);
    } else {
      var k1 := ConRecurso(k, r, Recurso(rec.instancias - 1, rec.bloqueados));
      MismasColas(k, k1, {});
      PcbColas(k1, {}, p, k.pcbs[p].(tomados := k.pcbs[p].tomados + [r]));
    }
  }

  lemma SignalColas(k: Kernel, p: nat, r: string)
    requires InvColas(k, {}) && EnCpu(k, p)
    ensures InvColas(Signal(k, p, r), {})
  {
    hide InvColas, Incrementar, Quitar;
    IncrementarColas(k, {}, r);
    var s := Incrementar(k, r);
    if p in s.pcbs {
      PcbColas(s, {}, p, s.pcbs[p].(tomados := Quitar(s.pcbs[p].tomados, r)));
    }
  }

  lemma BloquearIOColas(k: Kernel, p: nat, ahora: int)
    requires InvColas(k, {}) && EnCpu(k, p)
    ensures InvColas(BloquearIO(k, p, ahora), {})
  {
    hide InvColas, Mover;
    var b := k.pcbs[p];
    var c := if k.algoritmo == VRR then b.(quantum := b.quantum - (ahora - b.tiempoInicial)) else b;
    PcbColas(k, {}, p, c);
    assert Creado(ConPcb(k, p, c), p);
    MoverColas(ConPcb(k, p, c), {}, p, BLOCKED);
    MismasColas(Mover(ConPcb(k, p, c), p, BLOCKED), BloquearIO(k, p, ahora), {});
  }
}
