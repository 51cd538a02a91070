/** The kernel as the object its handlers update in place. */
module KernelModulo {
  import opened Comunes
  import opened KernelEstado
  import opened KernelRecursos
  import opened KernelPasos
  import opened KernelSucesos
  import opened KernelPrioridad

  /** The PCB that goes to the CPU. */
  function Despachado(k: Kernel, p: nat, ahora: int): Pcb
    requires p in k.pcbs
  {
    if k.algoritmo == VRR then k.pcbs[p].(quantum := QuantumDado(k, p), tiempoInicial := ahora) else k.pcbs[p]
  }

  lemma DespacharEs(k: Kernel, ahora: int)
    requires InvColas(k, {}) && Posible(k, Despacha(ahora))
    ensures var s := k.(cpuLibre := k.cpuLibre - 1, enReady := k.enReady - 1);
            match Siguiente(k)
            case None => Paso(k, Despacha(ahora)) == s
            case Some(p) =>
              && Creado(k, p) && p in k.pcbs && Creado(s, p) && p in Sacar(s, p).pcbs && Creado(ConPcb(Sacar(s, p), p, Despachado(k, p, ahora)), p)
              && Paso(k, Despacha(ahora)) == Poner(ConPcb(Sacar(s, p), p, Despachado(k, p, ahora)), p, EXEC)
  {
    hide InvColas, Quitar;
    var s := k.(cpuLibre := k.cpuLibre - 1, enReady := k.enReady - 1);
    if Siguiente(k).Some? {
      var p := Siguiente(k).value;
      assert Creado(s, p);
      SacarConPcb(s, p, Despachado(k, p, ahora));
    }
  }

  /** Where `hayar_pcb` finds the process, in the order in which it looks. */
  lemma DondeEsta(k: Kernel, p: nat)
    requires InvColas(k, {}) && Creado(k, p)
    ensures p in k.pcbs && forall e: Estado :: EnCola(k, e, p) <==> k.estados[p - 1] == e
  {
    forall e: Estado ensures EnCola(k, e, p) <==> k.estados[p - 1] == e {
      assert EnCola(k, e, p) <==> Figura(k, e, p);
    }
  }

  lemma NoCreado(k: Kernel, p: nat)
    requires InvColas(k, {}) && !Creado(k, p)
    ensures p !in k.pcbs && forall e: Estado :: !EnCola(k, e, p)
  {
    forall e: Estado ensures !EnCola(k, e, p) {
      assert EnCola(k, e, p) <==> Figura(k, e, p);
    }
  }

  method ObtenerIndex(lista: seq<nat>, pid: nat) returns (index: int)
    ensures index == Indice(lista, pid)
  {
    for i := 0 to |lista|
      invariant forall j :: 0 <= j < i ==> lista[j] != pid
    {
      if lista[i] == pid {
        PrimeraVez(lista, pid, i);
        return i;
      }
    }
    return -1;
  }

  lemma EstaEnIndice(lista: seq<nat>, pid: nat)
    requires pid in lista
    ensures 0 <= Indice(lista, pid) < |lista|
  {
  }

  method ObtenerIndexRecurso(lista: seq<string>, recurso: string) returns (index: int)
    ensures index == Indice(lista, recurso)
  {
    for i := 0 to |lista|
      invariant forall j :: 0 <= j < i ==> lista[j] != recurso
    {
      if lista[i] == recurso {
        PrimeraVez(lista, recurso, i);
        return i;
      }
    }
    return -1;
  }

  /** The state of the kernel once the process has its new state but is in no list. */
  function ConEstado(k: Kernel, p: nat, e: Estado): Kernel
    requires Creado(k, p) && p in k.pcbs
  {
    k.(pcbs := k.pcbs[p := k.pcbs[p].(estado := e)], estados := k.estados[p - 1 := e])
  }

  function ConLista(k: Kernel, e: Estado, s: seq<nat>): Kernel {
    k.(colas := ConCola(k.colas, e, s))
  }

  class ModuloKernel {
    const algoritmo: Planificacion
    const quantum: int
    var listaNew: seq<nat>
    var listaReady: seq<nat>
    var listaRunning: seq<nat>
    var listaBlocked: seq<nat>
    var listaExit: seq<nat>
    var listaAuxiliar: seq<nat>
    var pcbs: map<nat, Pcb>
    var estadosProcesos: seq<Estado>
    var recursos: map<string, Recurso>
    var semCpuLibre: int
    var semEnReady: int
    var grado: int
    var admision: bool
    var newTrabada: bool
    var largoTomado: bool

    ghost function Valor(): Kernel
      reads this
    {
      Kernel(algoritmo, quantum,
        Colas(listaNew, listaReady, listaRunning, listaBlocked, listaExit, listaAuxiliar),
        pcbs, estadosProcesos, recursos, semCpuLibre, semEnReady, grado, admision, newTrabada, largoTomado)
    }

    /** No processes, one CPU, and the resources of the configuration. */
    constructor (algoritmo: Planificacion, quantum: int, grado: nat, instancias: map<string, nat>)
      ensures Inv(Valor()) && InvPrioridad(Valor()) && Valor().cpuLibre == 1 && Valor().enReady == 0 && Activos(Valor()) == 0 && !Valor().admision
      ensures !Valor().newTrabada && !Valor().largoTomado
      ensures Valor().recursos.Keys == instancias.Keys
      ensures forall r :: r in instancias ==> Unidades(Valor(), r) == instancias[r]
    {
      this.algoritmo, this.quantum, this.grado := algoritmo, quantum, grado;
      listaNew, listaReady, listaRunning, listaBlocked, listaExit, listaAuxiliar := [], [], [], [], [], [];
      pcbs, estadosProcesos := map[], [];
      recursos := map r | r in instancias :: Recurso(instancias[r], []);
      semCpuLibre, semEnReady, admision, newTrabada, largoTomado := 1, 0, false, false, false;
    }

    ghost function Lista(e: Estado): seq<nat>
      reads this
    {
      Cola(Valor().colas, e)
    }

    method ListRemove(e: Estado, index: nat)
      requires index < |Lista(e)|
      modifies this
      ensures Valor() == ConLista(old(Valor()), e, old(Lista(e))[..index] + old(Lista(e))[index + 1..])
    {
      match e
      case NEW => listaNew := listaNew[..index] + listaNew[index + 1..];
      case READY => listaReady := listaReady[..index] + listaReady[index + 1..];
      case EXEC => listaRunning := listaRunning[..index] + listaRunning[index + 1..];
      case BLOCKED => listaBlocked := listaBlocked[..index] + listaBlocked[index + 1..];
      case EXITT => listaExit := listaExit[..index] + listaExit[index + 1..];
      case READY_AUX => listaAuxiliar := listaAuxiliar[..index] + listaAuxiliar[index + 1..];
    }

    method ListAdd(e: Estado, pid: nat)
      modifies this
      ensures Valor() == ConLista(old(Valor()), e, old(Lista(e)) + [pid])
    {
      match e
      case NEW => listaNew := listaNew + [pid];
      case READY => listaReady := listaReady + [pid];
      case EXEC => listaRunning := listaRunning + [pid];
      case BLOCKED => listaBlocked := listaBlocked + [pid];
      case EXITT => listaExit := listaExit + [pid];
      case READY_AUX => listaAuxiliar := listaAuxiliar + [pid];
    }

    method CambiarEstadoPcb(pid: nat, nuevoEstado: Estado)
      requires Creado(Valor(), pid) && pid in pcbs
      modifies this
      ensures Valor() == ConEstado(old(Valor()), pid, nuevoEstado)
    {
      pcbs := pcbs[pid := pcbs[pid].(estado := nuevoEstado)];
      estadosProcesos := estadosProcesos[pid - 1 := nuevoEstado];
    }

    method ActualizarEstadoPcb(pid: nat, estado: Estado)
      requires Creado(Valor(), pid) && pid in pcbs
      modifies this
      ensures Valor() == Poner(old(Valor()), pid, estado)
    {
      CambiarEstadoPcb(pid, estado);
      ListAdd(estado, pid);
    }

    /** Takes the process out of the list of its state: `obtener_index` and `list_remove`. */
    method SacarDeSuLista(pid: nat, e: Estado)
      requires Creado(Valor(), pid) && estadosProcesos[pid - 1] == e && EnCola(Valor(), e, pid)
      modifies this
      ensures Valor() == Sacar(old(Valor()), pid)
    {
      var lista := match e
        case NEW => listaNew
        case READY => listaReady
        case EXEC => listaRunning
        case BLOCKED => listaBlocked
        case EXITT => listaExit
        case READY_AUX => listaAuxiliar;
      assert lista == Lista(e);
      hide Indice;
      var index := ObtenerIndex(lista, pid);
      EstaEnIndice(lista, pid);
      ListRemove(e, index);
    }

    method DesbloquearProceso(pid: nat)
      requires Creado(Valor(), pid) && pid in pcbs && Figura(Valor(), BLOCKED, pid) && EnCola(Valor(), BLOCKED, pid)
      modifies this
      ensures Valor() == Desbloquear(old(Valor()), pid)
    {
      ghost var k := Valor();
      SacarDeSuLista(pid, BLOCKED);
      hide Sacar, Poner;
      SacarPcbs(k, pid);
      assert Valor().pcbs == k.pcbs;
      var b := pcbs[pid];
      if algoritmo == VRR && b.quantum < quantum && b.quantum > 0 {
        ActualizarEstadoPcb(pid, READY_AUX);
      } else {
        ActualizarEstadoPcb(pid, READY);
      }
      semEnReady := semEnReady + 1;
    }

    method ModificarInstancias(recurso: string, delta: int) returns (instancias: int)
      requires recurso in recursos
      modifies this`recursos
      ensures instancias == old(recursos)[recurso].instancias + delta
      ensures recursos == old(recursos)[recurso := Recurso(instancias, old(recursos)[recurso].bloqueados)]
    {
      instancias := recursos[recurso].instancias + delta;
      recursos := recursos[recurso := recursos[recurso].(instancias := instancias)];
    }

    /** Pops the first waiter, if there is one. */
    method RecursoObtenerBloqueado(recurso: string) returns (pid: Option<nat>)
      requires recurso in recursos
      modifies this`recursos
      ensures var rec := old(recursos)[recurso];
              if rec.bloqueados == [] then pid == None && recursos == old(recursos)
              else pid == Some(rec.bloqueados[0]) && recursos == old(recursos)[recurso := Recurso(rec.instancias, rec.bloqueados[1..])]
    {
      var rec := recursos[recurso];
      if rec.bloqueados == [] {
        return None;
      }
      recursos := recursos[recurso := rec.(bloqueados := rec.bloqueados[1..])];
      return Some(rec.bloqueados[0]);
    }

    method RecursoIncrementar(recurso: string, ghost enMano: set<nat>)
      requires InvColas(Valor(), enMano)
      modifies this
      ensures Valor() == Incrementar(old(Valor()), recurso)
    {
      ghost var k := Valor();
      hide InvColas, Desbloquear, Quitar;
      if recurso !in recursos {
        IncrementarNada(k, recurso);
        return;
      }
      Presente(k, enMano, recurso);
      var instancias := ModificarInstancias(recurso, 1);
      if instancias <= 0 {
        var pid := RecursoObtenerBloqueado(recurso);
        if pid.Some? {
          assert recursos == k.recursos[recurso := Recurso(instancias, k.recursos[recurso].bloqueados[1..])];
          ServirBloqueado(pid.value, recurso);
        }
      }
    }

    /** The waiter gets its unit if it is still in the list of blocked processes. */
    method ServirBloqueado(pid: nat, recurso: string)
      requires EnCola(Valor(), BLOCKED, pid) ==> pid in pcbs && Creado(Valor(), pid) && Figura(Valor(), BLOCKED, pid)
      modifies this
      ensures var k := old(Valor());
              Valor() == if EnCola(k, BLOCKED, pid) then Desbloquear(Otorgar(k, pid, recurso), pid) else k
    {
      hide Desbloquear, Quitar;
      var index := ObtenerIndex(listaBlocked, pid);
      if index != -1 {
        var b := pcbs[pid];
        pcbs := pcbs[pid := b.(tomados := b.tomados + [recurso], esperando := None)];
        DesbloquearProceso(pid);
      }
    }

    /** `liberar_recursos_tomados`; the process may have left its list. */
    method LiberarRecursosTomados(pid: nat, ghost enMano: set<nat>)
      requires InvColas(Valor(), enMano) && Creado(Valor(), pid) && pid in pcbs
      requires pid in enMano || !Figura(Valor(), BLOCKED, pid)
      modifies this
      ensures Valor() == Liberar(old(Valor()), pid)
    {
      ghost var k := Valor();
      hide InvColas, Incrementar, DejarDeEsperar;
      var b := pcbs[pid];
      for i := 0 to |b.tomados|
        invariant Valor() == Devolver(k, b.tomados, i)
        invariant InvColas(Valor(), enMano)
      {
        DevolverColas(k, enMano, b.tomados, i + 1);
        RecursoIncrementar(b.tomados[i], enMano);
      }
      DevolverAjeno(k, enMano, b.tomados, |b.tomados|, pid);
      if b.esperando.Some? {
        RecursoModificarInstancias2(b.esperando.value, pid);
        pcbs := pcbs[pid := pcbs[pid].(esperando := None)];
      }
    }

    /** One unit more, and the process leaves the queue if it is in it. */
    method RecursoModificarInstancias2(recurso: string, pid: nat)
      modifies this`recursos
      ensures Valor() == DejarDeEsperar(old(Valor()), recurso, pid)
    {
      if recurso !in recursos {
        return;
      }
      var instancias := ModificarInstancias(recurso, 1);
      var q := recursos[recurso].bloqueados;
      var index := ObtenerIndex(q, pid);
      if index != -1 {
        recursos := recursos[recurso := recursos[recurso].(bloqueados := q[..index] + q[index + 1..])];
      }
    }

    /** `eliminar_proceso` on a process that is not running. */
    method EliminarProceso(pid: nat)
      requires InvColas(Valor(), {pid}) && Creado(Valor(), pid) && pid in pcbs
      modifies this
      ensures Valor() == Enterrar(old(Valor()), pid)
    {
      ghost var k := Valor();
      LiberarRecursosTomados(pid, {pid});
      LiberadoCreado(k, {pid}, pid);
      ActualizarEstadoPcb(pid, EXITT);
    }

    /** Looks for the process in the lists, in the order of the program, and takes it out of its list. */
    method HayarPcb(pid: nat) returns (encontrado: bool)
      requires InvColas(Valor(), {})
      modifies this
      ensures encontrado == Matable(old(Valor()), pid)
      ensures Valor() == if encontrado then Sacar(old(Valor()), pid) else old(Valor())
    {
      ghost var k := Valor();
      if Creado(k, pid) {
        DondeEsta(k, pid);
      } else {
        NoCreado(k, pid);
      }
      hide InvColas, Sacar;
      var index := ObtenerIndex(listaNew, pid);
      if index != -1 {
        assert EnCola(k, NEW, pid);
        SacarDeSuLista(pid, NEW);
        return true;
      }
      assert !EnCola(k, NEW, pid);
      index := ObtenerIndex(listaReady, pid);
      if index != -1 {
        assert EnCola(k, READY, pid);
        SacarDeSuLista(pid, READY);
        return true;
      }
      assert !EnCola(k, READY, pid);
      index := ObtenerIndex(listaBlocked, pid);
      if index != -1 {
        assert EnCola(k, BLOCKED, pid);
        SacarDeSuLista(pid, BLOCKED);
        return true;
      }
      assert !EnCola(k, BLOCKED, pid);
      index := ObtenerIndex(listaAuxiliar, pid);
      if index != -1 {
        assert EnCola(k, READY_AUX, pid);
        SacarDeSuLista(pid, READY_AUX);
        return true;
      }
      assert !EnCola(k, READY_AUX, pid);
      return false;
    }

    method CrearProceso() returns (pid: nat)
      requires Posible(Valor(), Crea)
      modifies this
      ensures Valor() == Paso(old(Valor()), Crea) && pid == |estadosProcesos|
    {
      pid := |estadosProcesos| + 1;
      pcbs := pcbs[pid := Pcb(NEW, 0, 0, [], None)];
      estadosProcesos := estadosProcesos + [NEW];
      listaNew := listaNew + [pid];
    }

    /** The comparison of `mover_a_ready` with the degree of multiprogramming. */
    method ComprobarGrado()
      modifies this`admision
      ensures Valor() == Paso(old(Valor()), Comprueba(false))
    {
      var tamListaAuxiliar := if |listaAuxiliar| > 0 then |listaAuxiliar| else 0;
      var tamanioMultiprogramacion := |listaReady| + |listaRunning| + |listaBlocked|;
      if tamanioMultiprogramacion + tamListaAuxiliar >= grado {
        return;
      }
      admision := true;
    }

    /** The move of `mover_a_ready`, once the comparison has let it through; it may wait for ever for the NEW list. */
    method MoverAReady()
      requires InvColas(Valor(), {}) && Posible(Valor(), if newTrabada then EsperaNew else Admite)
      modifies this
      ensures Valor() == Paso(old(Valor()), if old(newTrabada) then EsperaNew else Admite)
    {
      ghost var k := Valor();
      hide InvColas, Sacar, Poner;
      if newTrabada {
        largoTomado := true;
        return;
      }
      admision := false;
      MismasColas(k, Valor(), {});
      if listaNew != [] {
        var pid := RemoverPrimero(NEW);
        ActualizarEstadoPcb(pid, READY);
        semEnReady := semEnReady + 1;
        assert Valor() == Mover(k.(admision := false), pid, READY).(enReady := k.enReady + 1) by { PonerMarco(k.(admision := false), pid, READY); }
      } else {
        newTrabada := true;
      }
    }

    /** `list_remove(lista, 0)`: the process that has been longest in the list. */
    method RemoverPrimero(e: Estado) returns (pid: nat)
      requires InvColas(Valor(), {}) && Lista(e) != []
      modifies this
      ensures pid == old(Lista(e))[0] && Creado(old(Valor()), pid) && pid in old(pcbs) && old(estadosProcesos)[pid - 1] == e
      ensures Valor() == Sacar(old(Valor()), pid) && Creado(Valor(), pid) && pcbs == old(pcbs)
    {
      ghost var k := Valor();
      hide InvColas, Quitar;
      PrimeroDe(k, e);
      pid := match e
        case NEW => listaNew[0]
        case READY => listaReady[0]
        case EXEC => listaRunning[0]
        case BLOCKED => listaBlocked[0]
        case EXITT => listaExit[0]
        case READY_AUX => listaAuxiliar[0];
      ListRemove(e, 0);
    }

    /** One round of the short-term scheduler, after its semaphores let it through. */
    method PlanificadorCortoPlazo(ahora: int) returns (pid: Option<nat>)
      requires InvColas(Valor(), {}) && Posible(Valor(), Despacha(ahora))
      modifies this
      ensures Valor() == Paso(old(Valor()), Despacha(ahora))
      ensures pid == Siguiente(old(Valor()))
    {
      ghost var k := Valor();
      hide InvColas, Sacar, Poner, Paso, Despachar;
      DespacharEs(k, ahora);
      semCpuLibre, semEnReady := semCpuLibre - 1, semEnReady - 1;
      ghost var s := Valor();
      MismasColas(k, s, {});
      pid := TomarSiguiente();
      if pid.Some? {
        Ejecutar(pid.value, ahora);
        DosVecesPcb(Sacar(s, pid.value), pid.value, if k.algoritmo == VRR then k.pcbs[pid.value].(quantum := QuantumDado(k, pid.value)) else k.pcbs[pid.value], Despachado(k, pid.value, ahora));
      }
    }

    /** The process goes to the CPU; VRR notes when. */
    method Ejecutar(pid: nat, ahora: int)
      requires Creado(Valor(), pid) && pid in pcbs
      modifies this
      ensures var k := old(Valor());
              var b := if k.algoritmo == VRR then k.pcbs[pid].(tiempoInicial := ahora) else k.pcbs[pid];
              Creado(ConPcb(k, pid, b), pid) && Valor() == Poner(ConPcb(k, pid, b), pid, EXEC)
    {
      hide Poner;
      ghost var k := Valor();
      if algoritmo == VRR {
        pcbs := pcbs[pid := pcbs[pid].(tiempoInicial := ahora)];
      }
      assert pcbs == k.pcbs[pid := pcbs[pid]];
      ActualizarEstadoPcb(pid, EXEC);
    }

    /** The process at the head of the priority list, else of the ready list, which under VRR gives it a whole quantum. */
    method TomarSiguiente() returns (pid: Option<nat>)
      requires InvColas(Valor(), {})
      modifies this
      ensures pid == Siguiente(old(Valor()))
      ensures var k := old(Valor());
              match pid
              case None => Valor() == k
              case Some(p) =>
                && Creado(k, p) && p in k.pcbs && p in Sacar(k, p).pcbs
                && Valor() == ConPcb(Sacar(k, p), p, if k.algoritmo == VRR then k.pcbs[p].(quantum := QuantumDado(k, p)) else k.pcbs[p])
    {
      ghost var k := Valor();
      hide InvColas, Sacar;
      if algoritmo == VRR && |listaAuxiliar| != 0 {
        var p := RemoverPrimero(READY_AUX);
        assert pcbs == pcbs[p := k.pcbs[p].(quantum := QuantumDado(k, p))];
        return Some(p);
      } else if |listaReady| != 0 {
        var p := RemoverPrimero(READY);
        if algoritmo == VRR {
          pcbs := pcbs[p := pcbs[p].(quantum := quantum)];
        }
        assert algoritmo != VRR ==> pcbs == pcbs[p := k.pcbs[p]];
        return Some(p);
      } else {
        return None;
      }
    }

    /** `bloquear_proceso`; the caller lets the CPU go. */
    method BloquearProceso(pid: nat, esIO: bool, ahora: int)
      requires InvColas(Valor(), {}) && EnCpu(Valor(), pid)
      modifies this
      ensures var k := old(Valor());
              var b := k.pcbs[pid];
              Valor() == Mover(ConPcb(k, pid, if esIO && k.algoritmo == VRR then b.(quantum := b.quantum - (ahora - b.tiempoInicial)) else b), pid, BLOCKED)
    {
      ghost var k := Valor();
      hide InvColas, Sacar, Poner, Quitar;
      PrimeroDe(k, EXEC);
      EnSuLista(k, pid, EXEC);
      SacarDeSuLista(pid, EXEC);
      SacarPcbs(k, pid);
      assert Valor().pcbs == k.pcbs;
      if esIO && algoritmo == VRR {
        var b := pcbs[pid];
        pcbs := pcbs[pid := b.(quantum := b.quantum - (ahora - b.tiempoInicial))];
      }
      SacarConPcb(k, pid, pcbs[pid]);
      assert Valor() == ConPcb(Sacar(k, pid), pid, pcbs[pid]);
      ActualizarEstadoPcb(pid, BLOCKED);
    }

    method AtenderPedidoDeIO(ahora: int)
      requires InvColas(Valor(), {}) && Posible(Valor(), PideIO(ahora))
      modifies this
      ensures Valor() == Paso(old(Valor()), PideIO(ahora))
    {
      ghost var k := Valor();
      hide InvColas, Mover;
      BloquearProceso(listaRunning[0], true, ahora);
      semCpuLibre := semCpuLibre + 1;
    }

    method AtenderFinDeQuantum()
      requires InvColas(Valor(), {}) && Posible(Valor(), FinDeQuantum)
      modifies this
      ensures Valor() == Paso(old(Valor()), FinDeQuantum)
    {
      ghost var k := Valor();
      hide InvColas, Sacar, Poner;
      var pid := RemoverPrimero(EXEC);
      ActualizarEstadoPcb(pid, READY);
      semEnReady := semEnReady + 1;
      semCpuLibre := semCpuLibre + 1;
      assert Mover(k, pid, READY).enReady == k.enReady && Mover(k, pid, READY).cpuLibre == k.cpuLibre by { MoverEs(k, pid, READY); }
    }

    method AtenderTerminar()
      requires InvColas(Valor(), {}) && Posible(Valor(), Termina)
      modifies this
      ensures Valor() == Paso(old(Valor()), Termina)
    {
      ghost var k := Valor();
      hide InvColas, Liberar, Sacar, Poner;
      var pid := listaRunning[0];
      EnCpuFigura(k, pid);
      LiberadoEnCpu(k, pid);
      LiberarRecursosTomados(pid, {});
      pid := RemoverPrimero(EXEC);
      ActualizarEstadoPcb(pid, EXITT);
      semCpuLibre := semCpuLibre + 1;
    }

    /** The process asked for something that does not exist. */
    method ExpulsarProceso()
      requires InvColas(Valor(), {}) && Posible(Valor(), SinInterfaz)
      modifies this
      ensures Valor() == Paso(old(Valor()), SinInterfaz)
    {
      ghost var k := Valor();
      hide InvColas, Enterrar, Sacar;
      EnCpuFigura(k, EnEjecucion(k));
      SacadoColas(k, EnEjecucion(k));
      var pid := RemoverPrimero(EXEC);
      EliminarProceso(pid);
      semCpuLibre := semCpuLibre + 1;
    }

    method RecibirWait(recurso: string)
      requires InvColas(Valor(), {}) && Posible(Valor(), PideWait(recurso))
      modifies this
      ensures Valor() == Paso(old(Valor()), PideWait(recurso))
    {
      if recurso !in recursos {
        ExpulsarProceso();
      } else {
        RecursoDecrementar(recurso, listaRunning[0]);
      }
    }

    /** A unit for the process, or its place in the queue. */
    method RecursoDecrementar(recurso: string, pid: nat)
      requires InvColas(Valor(), {}) && EnCpu(Valor(), pid) && recurso in recursos
      modifies this
      ensures Valor() == Wait(old(Valor()), pid, recurso)
    {
      ghost var k := Valor();
      hide InvColas, Mover;
      var instancias := ModificarInstancias(recurso, -1);
      if instancias < 0 {
        ghost var k1 := Valor();
        MismasColas(k, k1, {});
        BloquearProceso(pid, false, 0);
        assert ConPcb(k1, pid, k1.pcbs[pid]) == k1;
        RecursoAgregarBloqueado(recurso, pid, k, k1);
        semCpuLibre := semCpuLibre + 1;
      } else {
        pcbs := pcbs[pid := pcbs[pid].(tomados := pcbs[pid].tomados + [recurso])];
      }
    }

    /** The blocked process goes to the end of the queue and its PCB names the resource. */
    method RecursoAgregarBloqueado(recurso: string, pid: nat, ghost k: Kernel, ghost k1: Kernel)
      requires Creado(k, pid) && pid in k.pcbs && recurso in k.recursos
      requires k1 == ConRecurso(k, recurso, Recurso(k.recursos[recurso].instancias - 1, k.recursos[recurso].bloqueados))
      requires Valor() == Mover(k1, pid, BLOCKED)
      modifies this
      ensures var k2 := Mover(ConRecurso(k, recurso, Recurso(k.recursos[recurso].instancias - 1, k.recursos[recurso].bloqueados + [pid])), pid, BLOCKED);
              pid in k2.pcbs && Valor() == ConPcb(k2, pid, k2.pcbs[pid].(esperando := Some(recurso)))
    {
      hide Mover;
      var rec := k.recursos[recurso];
      MoverConRecurso(k, pid, BLOCKED, recurso, k1.recursos[recurso]);
      MoverConRecurso(k, pid, BLOCKED, recurso, Recurso(rec.instancias - 1, rec.bloqueados + [pid]));
      MoverEs(k, pid, BLOCKED);
      recursos := recursos[recurso := recursos[recurso].(bloqueados := recursos[recurso].bloqueados + [pid])];
      pcbs := pcbs[pid := pcbs[pid].(esperando := Some(recurso))];
    }

    method RecibirSignal(recurso: string)
      requires InvColas(Valor(), {}) && Posible(Valor(), PideSignal(recurso))
      modifies this
      ensures Valor() == Paso(old(Valor()), PideSignal(recurso))
    {
      if recurso !in recursos {
        ExpulsarProceso();
      } else {
        SoltarRecurso(recurso, listaRunning[0]);
      }
    }

    /** One unit more, and one fewer in the list of the process, if it is there. */
    method SoltarRecurso(recurso: string, pid: nat)
      requires InvColas(Valor(), {}) && EnCpu(Valor(), pid) && recurso in recursos
      modifies this
      ensures Valor() == Signal(old(Valor()), pid, recurso)
    {
      ghost var k := Valor();
      hide InvColas, Incrementar;
      EnCpuFigura(k, pid);
      IncrementarAjeno(k, {}, recurso, pid);
      RecursoIncrementar(recurso, {});
      QuitarTomado(recurso, pid);
    }

    method QuitarTomado(recurso: string, pid: nat)
      requires pid in pcbs
      modifies this`pcbs
      ensures var b := old(pcbs)[pid]; pcbs == old(pcbs)[pid := b.(tomados := Quitar(b.tomados, recurso))]
    {
      var tomados := pcbs[pid].tomados;
      var index := ObtenerIndexRecurso(tomados, recurso);
      if index != -1 {
        tomados := tomados[..index] + tomados[index + 1..];
      }
      pcbs := pcbs[pid := pcbs[pid].(tomados := tomados)];
    }

    method AtenderFinIO(pid: nat)
      requires InvColas(Valor(), {}) && Posible(Valor(), FinIO(pid))
      modifies this
      ensures Valor() == Paso(old(Valor()), FinIO(pid))
    {
      BloqueadoFigura(Valor(), pid);
      DesbloquearProceso(pid);
    }

    method AtenderErrorIO(pid: nat)
      requires InvColas(Valor(), {}) && Posible(Valor(), ErrorIO(pid))
      modifies this
      ensures Valor() == Paso(old(Valor()), ErrorIO(pid))
    {
      ghost var k := Valor();
      BloqueadoFigura(k, pid);
      hide InvColas, Sacar, Enterrar;
      SacadoColas(k, pid);
      SacarDeSuLista(pid, BLOCKED);
      EliminarProceso(pid);
    }

    method FinalizarProceso(pid: nat)
      requires InvColas(Valor(), {}) && Posible(Valor(), if newTrabada then EsperaNew else Mata(pid))
      modifies this
      ensures Valor() == Paso(old(Valor()), if old(newTrabada) then EsperaNew else Mata(pid))
    {
      ghost var k := Valor();
      hide InvColas, Sacar, Enterrar;
      if newTrabada {
        largoTomado := true;
        return;
      }
      var encontrado := HayarPcb(pid);
      if encontrado {
        SacadoColas(k, pid);
        EliminarProceso(pid);
      }
    }
  }

  /** The process at the head of a list is created, in that state, and removing the head takes it out of the list. */
  lemma PrimeroDe(k: Kernel, e: Estado)
    requires InvColas(k, {}) && Cola(k.colas, e) != []
    ensures var p := Cola(k.colas, e)[0];
            && Creado(k, p) && p in k.pcbs && k.estados[p - 1] == e && Quitar(Cola(k.colas, e), p) == Cola(k.colas, e)[1..]
  {
    var p := Cola(k.colas, e)[0];
    assert EnCola(k, e, p) <==> Figura(k, e, p);
  }

  lemma MoverConRecurso(k: Kernel, p: nat, e: Estado, r: string, rec: Recurso)
    requires Creado(k, p) && p in k.pcbs
    ensures Creado(ConRecurso(k, r, rec), p)
    ensures Mover(ConRecurso(k, r, rec), p, e) == ConRecurso(Mover(k, p, e), r, rec)
  {
  }

  lemma DosVecesPcb(k: Kernel, p: nat, b: Pcb, c: Pcb)
    ensures ConPcb(ConPcb(k, p, b), p, c) == ConPcb(k, p, c)
  {
  }

  lemma SacarConPcb(k: Kernel, p: nat, b: Pcb)
    requires Creado(k, p) && p in k.pcbs
    ensures Creado(ConPcb(k, p, b), p) && Sacar(ConPcb(k, p, b), p) == ConPcb(Sacar(k, p), p, b)
  {
  }

  lemma PonerMarco(k: Kernel, p: nat, e: Estado)
    requires Creado(k, p) && p in k.pcbs
    ensures Mover(k, p, e).enReady == k.enReady
  {
  }

  lemma EnSuLista(k: Kernel, p: nat, e: Estado)
    requires InvColas(k, {}) && Creado(k, p) && k.estados[p - 1] == e
    ensures EnCola(k, e, p)
  {
    assert EnCola(k, e, p) <==> Figura(k, e, p);
  }

  lemma DesbloquearExec(k: Kernel, p: nat)
    requires Creado(k, p) && p in k.pcbs && k.estados[p - 1] == BLOCKED
    ensures Desbloquear(k, p).colas.exec == k.colas.exec
  {
    hide Quitar;
  }

  /** Nobody enters or leaves the CPU when units are given back. */
  lemma IncrementarExec(k: Kernel, r: string)
    requires InvColas(k, {})
    ensures Incrementar(k, r).colas.exec == k.colas.exec
  {
    hide InvColas, Incrementar, Quitar;
    var rec, p := IncrementarCasos(k, {}, r);
    if r in k.recursos && p.Some? {
      DesbloquearExec(Otorgar(ConRecurso(k, r, rec), p.value, r), p.value);
    }
  }

  lemma {:induction false} DevolverExec(k: Kernel, tomados: seq<string>, n: nat)
    requires InvColas(k, {}) && n <= |tomados|
    ensures Devolver(k, tomados, n).colas.exec == k.colas.exec
  {
    hide InvColas, Incrementar;
    if n > 0 {
      DevolverExec(k, tomados, n - 1);
      DevolverColas(k, {}, tomados, n - 1);
      IncrementarExec(Devolver(k, tomados, n - 1), tomados[n - 1]);
    }
  }

  /** What a running process gives back leaves it where it was. */
  lemma LiberadoEnCpu(k: Kernel, p: nat)
    requires InvColas(k, {}) && EnCpu(k, p)
    ensures var s := Liberar(k, p);
            && Creado(s, p) && p in s.pcbs && s.colas.exec == k.colas.exec
            && InvColas(s, {})
  {
    hide InvColas, Devolver, Liberar;
    EnCpuFigura(k, p);
    LiberarColas(k, p);
    DevolverExec(k, k.pcbs[p].tomados, |k.pcbs[p].tomados|);
  }

  /** The first waiter, if it is still in the list of blocked processes, is one of them. */
  lemma Presente(k: Kernel, enMano: set<nat>, r: string)
    requires InvColas(k, enMano) && r in k.recursos
    ensures var q := k.recursos[r].bloqueados;
            q != [] && EnCola(k, BLOCKED, q[0]) ==> q[0] in k.pcbs && Creado(k, q[0]) && Figura(k, BLOCKED, q[0])
  {
  }

  lemma LiberadoCreado(k: Kernel, enMano: set<nat>, p: nat)
    requires InvColas(k, enMano) && Creado(k, p) && p in k.pcbs
    requires p in enMano || !Figura(k, BLOCKED, p)
    ensures Creado(Liberar(k, p), p) && p in Liberar(k, p).pcbs
  {
    DevolverAjeno(k, enMano, k.pcbs[p].tomados, |k.pcbs[p].tomados|, p);
  }
}
