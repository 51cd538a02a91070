/** What each event does to the scheduler's semaphores, to the degree of multiprogramming and to the
    priority list of VRR. */
module KernelSemaforos {
  import opened Comunes
  import opened KernelEstado
  import opened KernelRecursos
  import opened KernelPasos
  import opened KernelSucesos

  // ---------------------------------------------------------------- sizes

  function Largo(k: Kernel, e: Estado): nat {
    |Cola(k.colas, e)|
  }

  lemma SacarLargo(k: Kernel, enMano: set<nat>, p: nat, f: Estado)
    requires InvColas(k, enMano) && Creado(k, p) && p !in enMano
    ensures Largo(Sacar(k, p), f) == Largo(k, f) - Uno(f == k.estados[p - 1])
  {
    var e := k.estados[p - 1];
    assert EnCola(k, e, p) <==> Figura(k, e, p);
    ColaCambiada(k.colas, e, Quitar(Cola(k.colas, e), p), f);
  }

  lemma PonerLargo(k: Kernel, p: nat, e: Estado, f: Estado)
    requires Creado(k, p) && p in k.pcbs
    ensures Largo(Poner(k, p, e), f) == Largo(k, f) + Uno(f == e)
  {
    ColaCambiada(k.colas, e, Cola(k.colas, e) + [p], f);
  }

  lemma MoverLargo(k: Kernel, enMano: set<nat>, p: nat, e: Estado, f: Estado)
    requires InvColas(k, enMano) && Creado(k, p) && p in k.pcbs && p !in enMano
    ensures Largo(Mover(k, p, e), f) == Largo(k, f) - Uno(f == k.estados[p - 1]) + Uno(f == e)
  {
    hide InvColas, Poner, Uno;
    SacarLargo(k, enMano, p, f);
    PonerLargo(Sacar(k, p), p, e, f);
  }

  /** One process fewer in list `de` and one more in list `a`. */
  ghost predicate Mudanza(k: Kernel, s: Kernel, de: Option<Estado>, a: Option<Estado>) {
    && |s.colas.ready| == |k.colas.ready| - Uno(de == Some(READY)) + Uno(a == Some(READY))
    && |s.colas.auxiliar| == |k.colas.auxiliar| - Uno(de == Some(READY_AUX)) + Uno(a == Some(READY_AUX))
    && |s.colas.exec| == |k.colas.exec| - Uno(de == Some(EXEC)) + Uno(a == Some(EXEC))
    && |s.colas.blocked| == |k.colas.blocked| - Uno(de == Some(BLOCKED)) + Uno(a == Some(BLOCKED))
  }

  /** Tokens of `sem_process_in_ready` with no ready process behind them. */
  function Exceso(k: Kernel): int {
    k.enReady - |k.colas.ready| - |k.colas.auxiliar|
  }

  /** Tokens of `sem_cpu_free_to_execute` that are neither in the semaphore nor with a running process. */
  function CpuPerdida(k: Kernel): int {
    1 - k.cpuLibre - |k.colas.exec|
  }

  /** `s` differs from `k` as a wake-up does: nobody enters or leaves the CPU and every process that becomes
      ready brings its token. */
  ghost predicate Despierta(k: Kernel, s: Kernel) {
    && Exceso(s) == Exceso(k) && s.cpuLibre == k.cpuLibre && |s.colas.exec| == |k.colas.exec| && Activos(s) == Activos(k)
    && s.algoritmo == k.algoritmo && s.quantum == k.quantum && s.grado == k.grado && s.admision == k.admision
    && s.newTrabada == k.newTrabada && s.largoTomado == k.largoTomado
  }

  lemma IncrementarDespierta(k: Kernel, enMano: set<nat>, r: string)
    requires InvColas(k, enMano)
    ensures Despierta(k, Incrementar(k, r))
  {
    hide InvColas, Incrementar, Mover;
    var rec, p := IncrementarCasos(k, enMano, r);
    if r in k.recursos && p.Some? {
      OtorgarDespierta(k, enMano, r, rec, p.value);
    }
  }

  lemma OtorgarDespierta(k: Kernel, enMano: set<nat>, r: string, rec: Recurso, p: nat)
    requires InvColas(k, enMano) && Creado(k, p) && p in k.pcbs && p !in enMano && Figura(k, BLOCKED, p)
    ensures Despierta(k, Desbloquear(Otorgar(ConRecurso(k, r, rec), p, r), p))
  {
    hide InvColas, Mover;
    var k1 := ConRecurso(k, r, rec);
    MismasColas(k, k1, enMano);
    PcbColas(k1, enMano, p, k.pcbs[p].(tomados := k.pcbs[p].tomados + [r], esperando := None));
    DesbloquearDespierta(Otorgar(k1, p, r), enMano, p);
  }

  lemma DesbloquearDespierta(k: Kernel, enMano: set<nat>, p: nat)
    requires InvColas(k, enMano) && Creado(k, p) && p in k.pcbs && p !in enMano && Figura(k, BLOCKED, p)
    ensures Despierta(k, Desbloquear(k, p))
  {
    hide InvColas, Mover;
    var e := Destino(k, k.pcbs[p]);
    MoverEs(k, p, e);
    LargosAlMover(k, enMano, p, e);
  }

  lemma {:induction false} DevolverDespierta(k: Kernel, enMano: set<nat>, tomados: seq<string>, n: nat)
    requires InvColas(k, enMano) && n <= |tomados|
    ensures Despierta(k, Devolver(k, tomados, n))
  {
    hide InvColas, Incrementar;
    if n > 0 {
      DevolverDespierta(k, enMano, tomados, n - 1);
      DevolverColas(k, enMano, tomados, n - 1);
      IncrementarDespierta(Devolver(k, tomados, n - 1), enMano, tomados[n - 1]);
    }
  }

  /** Ending a process takes it out of the count of its list; if it was ready its token stays. */
  lemma EliminarLargo(k: Kernel, p: nat)
    requires InvColas(k, {}) && Creado(k, p) && p in k.pcbs && k.estados[p - 1] != EXITT
    ensures var s, e := Eliminar(k, p), k.estados[p - 1];
            && Exceso(s) == Exceso(k) + Uno(e == READY || e == READY_AUX)
            && s.cpuLibre == k.cpuLibre && |s.colas.exec| == |k.colas.exec| - Uno(e == EXEC)
            && Activos(s) == Activos(k) - Uno(e != NEW)
            && s.algoritmo == k.algoritmo && s.quantum == k.quantum && s.grado == k.grado && s.admision == k.admision
            && s.newTrabada == k.newTrabada && s.largoTomado == k.largoTomado
  {
    hide InvColas, Sacar, Devolver, Poner;
    DevueltoColas(k, p);
    SacadoColas(k, p);
    var k0, k1 := Sacar(k, p), Devuelto(k, p);
    var s := Eliminar(k, p);
    DevolverDespierta(k0, {p}, k.pcbs[p].tomados, |k.pcbs[p].tomados|);
    SacadoLargo(k, p);
    EnterrarLargo(k, p);
  }

  lemma SacadoLargo(k: Kernel, p: nat)
    requires InvColas(k, {}) && Creado(k, p)
    ensures var s := Sacar(k, p);
            Mudanza(k, s, Some(k.estados[p - 1]), None) && s == k.(colas := s.colas)
  {
    SacarLargo(k, {}, p, READY);
    SacarLargo(k, {}, p, READY_AUX);
    SacarLargo(k, {}, p, EXEC);
    SacarLargo(k, {}, p, BLOCKED);
  }

  /** What a process gives back, but for the resources and the PCBs. */
  lemma LiberadoMarco(k: Kernel, p: nat)
    requires Creado(k, p) && p in k.pcbs && Creado(Devuelto(k, p), p) && p in Devuelto(k, p).pcbs
    ensures p in Sacar(k, p).pcbs
    ensures var d, l := Devuelto(k, p), Liberar(Sacar(k, p), p);
            && l == d.(recursos := l.recursos, pcbs := l.pcbs)
            && Creado(l, p) && p in l.pcbs && Eliminar(k, p) == Poner(l, p, EXITT)
  {
    hide Sacar, Devolver, Poner, Quitar;
    SacarPcbs(k, p);
  }

  lemma EnterrarLargo(k: Kernel, p: nat)
    requires Creado(k, p) && p in k.pcbs && Creado(Devuelto(k, p), p) && p in Devuelto(k, p).pcbs
    ensures var s, k1 := Eliminar(k, p), Devuelto(k, p);
            && Mudanza(k1, s, None, Some(EXITT))
            && s.cpuLibre == k1.cpuLibre && s.enReady == k1.enReady
            && s.algoritmo == k1.algoritmo && s.quantum == k1.quantum && s.grado == k1.grado && s.admision == k1.admision
            && s.newTrabada == k1.newTrabada && s.largoTomado == k1.largoTomado
  {
    LiberadoMarco(k, p);
    hide Sacar, Devolver, Devuelto, Liberar, Poner;
    var l := Liberar(Sacar(k, p), p);
    PonerLargo(l, p, EXITT, READY);
    PonerLargo(l, p, EXITT, READY_AUX);
    PonerLargo(l, p, EXITT, EXEC);
    PonerLargo(l, p, EXITT, BLOCKED);
    PonerEs(l, p);
  }

  /** A check made while a process is out of its list and not in the next one yet is a check that does not count it. */
  lemma ComprobarAMitad(k: Kernel, p: nat)
    requires InvColas(k, {}) && Creado(k, p) && k.estados[p - 1] in {READY, READY_AUX, EXEC, BLOCKED}
    ensures Activos(k) > 0 && Comprobar(Sacar(k, p), false).admision == Comprobar(k, true).admision
  {
    hide InvColas, Sacar;
    SacadoLargo(k, p);
  }

  lemma PonerEs(k: Kernel, p: nat)
    requires Creado(k, p) && p in k.pcbs
    ensures var s := Poner(k, p, EXITT);
            && s.cpuLibre == k.cpuLibre && s.enReady == k.enReady
            && s.algoritmo == k.algoritmo && s.quantum == k.quantum && s.grado == k.grado && s.admision == k.admision
            && s.newTrabada == k.newTrabada && s.largoTomado == k.largoTomado
  {
  }

  // ---------------------------------------------------------------- one event

  predicate DespachoVacio(k: Kernel, s: Suceso) {
    s.Despacha? && Siguiente(k) == None
  }

  /** A process dies in one of the ready lists. */
  predicate MataListo(k: Kernel, s: Suceso) {
    s.Mata? && Matable(k, s.pid) && k.estados[s.pid - 1] in {READY, READY_AUX}
  }

  /** What an event does to the count of semaphores and of active processes. */
  ghost predicate Cuentas(k: Kernel, s: Suceso, r: Kernel) {
    && Exceso(r) == Exceso(k) + Uno(MataListo(k, s)) - Uno(DespachoVacio(k, s))
    && CpuPerdida(r) == CpuPerdida(k) + Uno(DespachoVacio(k, s))
    && r.cpuLibre >= (if s.Despacha? then k.cpuLibre - 1 else k.cpuLibre)
    && Activos(r) <= Activos(k) + Uno(s.Admite? && k.colas.nuevos != [])
    && r.algoritmo == k.algoritmo && r.quantum == k.quantum
    && r.grado == (if s.CambiaGrado? then s.grado else k.grado)
    && r.admision == (if s.Comprueba? then k.admision || Activos(k) - Uno(s.enMovimiento) < k.grado else if s.Admite? then false else k.admision)
    && r.newTrabada == (k.newTrabada || (s.Admite? && k.colas.nuevos == []))
    && r.largoTomado == (k.largoTomado || s.EsperaNew?)
  }

  /** Every event keeps the tokens where the scheduler expects them, except two: a process killed while ready
      leaves its token behind, and a dispatch that finds nobody swallows the one of the CPU. */
  lemma PasoCuentas(k: Kernel, s: Suceso)
    requires InvColas(k, {}) && Posible(k, s)
    ensures Cuentas(k, s, Paso(k, s))
  {
    hide InvColas, Wait, Signal, Terminar, Eliminar, Mover, Despachar, Admitir, BloquearIO, Cuentas;
    match s
    case Crea => CrearCuentas(k);
    case Comprueba(m) => ComprobarCuentas(k, m);
    case Admite => AdmitirCuentas(k);
    case CambiaGrado(g) => GradoCuentas(k, g);
    case Despacha(ahora) => DespacharCuentas(k, ahora);
    case FinDeQuantum => DesalojarCuentas(k);
    case Termina => TerminarCuentas(k);
    case SinInterfaz => ExpulsarCuentas(k, s);
    case PideWait(r) => if r in k.recursos { WaitCuentas(k, r); } else { ExpulsarCuentas(k, s); }
    case PideSignal(r) => if r in k.recursos { SignalCuentas(k, r); } else { ExpulsarCuentas(k, s); }
    case PideIO(ahora) => BloquearIOCuentas(k, ahora);
    case FinIO(p) => FinIOCuentas(k, p);
    case ErrorIO(p) => ErrorIOCuentas(k, p);
    case Mata(p) => MatarCuentas(k, p);
    case EsperaNew => EsperarCuentas(k);
  }

  lemma CrearCuentas(k: Kernel)
    ensures Cuentas(k, Crea, Crear(k))
  {
  }

  lemma EsperarCuentas(k: Kernel)
    ensures Cuentas(k, EsperaNew, k.(largoTomado := true))
  {
  }

  lemma ComprobarCuentas(k: Kernel, enMovimiento: bool)
    ensures Cuentas(k, Comprueba(enMovimiento), Comprobar(k, enMovimiento))
  {
  }

  lemma GradoCuentas(k: Kernel, g: int)
    ensures Cuentas(k, CambiaGrado(g), k.(grado := g))
  {
  }

  lemma AdmitirCuentas(k: Kernel)
    requires InvColas(k, {}) && Posible(k, Admite)
    ensures Cuentas(k, Admite, Admitir(k))
  {
    var s := k.(admision := false);
    if k.colas.nuevos != [] {
      var p := k.colas.nuevos[0];
      assert p in Cola(k.colas, NEW);
      assert EnCola(k, NEW, p);
      hide InvColas, Mover;
      MismasColas(k, s, {});
      MoverEs(s, p, READY);
      LargosAlMover(s, {}, p, READY);
    }
  }

  lemma LargosAlMover(k: Kernel, enMano: set<nat>, p: nat, e: Estado)
    requires InvColas(k, enMano) && Creado(k, p) && p in k.pcbs && p !in enMano
    ensures Mudanza(k, Mover(k, p, e), Some(k.estados[p - 1]), Some(e))
  {
    hide InvColas, Mover;
    MoverLargo(k, enMano, p, e, READY);
    MoverLargo(k, enMano, p, e, READY_AUX);
    MoverLargo(k, enMano, p, e, EXEC);
    MoverLargo(k, enMano, p, e, BLOCKED);
  }

  lemma DespacharCuentas(k: Kernel, ahora: int)
    requires InvColas(k, {}) && Posible(k, Despacha(ahora))
    ensures Cuentas(k, Despacha(ahora), Despachar(k, ahora))
  {
    hide InvColas, Mover;
    if Siguiente(k).Some? {
      var p := Siguiente(k).value;
      SiguienteEs(k);
      var s := k.(cpuLibre := k.cpuLibre - 1, enReady := k.enReady - 1);
      MismasColas(k, s, {});
      var b := if k.algoritmo == VRR then k.pcbs[p].(quantum := QuantumDado(k, p), tiempoInicial := ahora) else k.pcbs[p];
      PcbColas(s, {}, p, b);
      MoverEs(ConPcb(s, p, b), p, EXEC);
      LargosAlMover(ConPcb(s, p, b), {}, p, EXEC);
    }
  }

  lemma DesalojarCuentas(k: Kernel)
    requires InvColas(k, {}) && Posible(k, FinDeQuantum)
    ensures Cuentas(k, FinDeQuantum, Desalojar(k, EnEjecucion(k)))
  {
    hide InvColas, Mover;
    var p := EnEjecucion(k);
    EnCpuFigura(k, p);
    MoverEs(k, p, READY);
    LargosAlMover(k, {}, p, READY);
  }

  lemma TerminarCuentas(k: Kernel)
    requires InvColas(k, {}) && Posible(k, Termina)
    ensures Cuentas(k, Termina, Terminar(k, EnEjecucion(k)))
  {
    hide InvColas, Mover, Devolver, Liberar;
    var p := EnEjecucion(k);
    EnCpuFigura(k, p);
    LiberarColas(k, p);
    DevolverDespierta(k, {}, k.pcbs[p].tomados, |k.pcbs[p].tomados|);
    var s := Liberar(k, p);
    MoverEs(s, p, EXITT);
    LargosAlMover(s, {}, p, EXITT);
  }

  lemma ExpulsarCuentas(k: Kernel, s: Suceso)
    requires InvColas(k, {}) && Posible(k, s) && (s.SinInterfaz? || s.PideWait? || s.PideSignal?)
    ensures Cuentas(k, s, SoltarCpu(Eliminar(k, EnEjecucion(k))))
  {
    hide InvColas, Eliminar;
    var p := EnEjecucion(k);
    EnCpuFigura(k, p);
    EliminarLargo(k, p);
  }

  lemma WaitCuentas(k: Kernel, r: string)
    requires InvColas(k, {}) && Posible(k, PideWait(r)) && r in k.recursos
    ensures Cuentas(k, PideWait(r), Wait(k, EnEjecucion(k), r))
  {
    hide InvColas, Mover;
    var p := EnEjecucion(k);
    EnCpuFigura(k, p);
    var rec := k.recursos[r];
    if rec.instancias - 1 < 0 {
      var k1 := ConRecurso(k, r, Recurso(rec.instancias - 1, rec.bloqueados + [p]));
      MismasColas(k, k1, {});
      MoverEs(k1, p, BLOCKED);
      LargosAlMover(k1, {}, p, BLOCKED);
    }
  }

  lemma SignalCuentas(k: Kernel, r: string)
    requires InvColas(k, {}) && Posible(k, PideSignal(r))
    ensures Cuentas(k, PideSignal(r), Signal(k, EnEjecucion(k), r))
  {
    hide InvColas, Incrementar, Quitar;
    IncrementarDespierta(k, {}, r);
  }

  lemma BloquearIOCuentas(k: Kernel, ahora: int)
    requires InvColas(k, {}) && Posible(k, PideIO(ahora))
    ensures Cuentas(k, PideIO(ahora), BloquearIO(k, EnEjecucion(k), ahora))
  {
    hide InvColas, Mover;
    var p := EnEjecucion(k);
    EnCpuFigura(k, p);
    var b := k.pcbs[p];
    var c := if k.algoritmo == VRR then b.(quantum := b.quantum - (ahora - b.tiempoInicial)) else b;
    PcbColas(k, {}, p, c);
    MoverEs(ConPcb(k, p, c), p, BLOCKED);
    LargosAlMover(ConPcb(k, p, c), {}, p, BLOCKED);
  }

  lemma FinIOCuentas(k: Kernel, p: nat)
    requires InvColas(k, {}) && BloqueadoPorIO(k, p)
    ensures Cuentas(k, FinIO(p), Desbloquear(k, p))
  {
    assert EnCola(k, BLOCKED, p) ==> Figura(k, BLOCKED, p);
    hide InvColas, Mover;
    DesbloquearDespierta(k, {}, p);
  }

  lemma ErrorIOCuentas(k: Kernel, p: nat)
    requires InvColas(k, {}) && BloqueadoPorIO(k, p)
    ensures Cuentas(k, ErrorIO(p), Eliminar(k, p))
  {
    assert EnCola(k, BLOCKED, p) ==> Figura(k, BLOCKED, p);
    hide InvColas, Eliminar;
    EliminarLargo(k, p);
  }

  lemma MatarCuentas(k: Kernel, p: nat)
    requires InvColas(k, {})
    ensures Cuentas(k, Mata(p), Matar(k, p))
  {
    hide InvColas, Eliminar;
    if Matable(k, p) {
      EliminarLargo(k, p);
    }
  }
}
