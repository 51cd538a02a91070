/** Runs of the kernel. */
module KernelCorridas {
  import opened Comunes
  import opened KernelEstado
  import opened KernelRecursos
  import opened KernelPasos
  import opened KernelSucesos
  import opened KernelCuentas
  import opened KernelSemaforos
  import opened KernelPrioridad

  /** A run: each state follows from the previous one by a possible event. */
  ghost predicate Corrida(ks: seq<Kernel>, ss: seq<Suceso>) {
    |ks| == |ss| + 1 && forall i :: 0 <= i < |ss| ==> Sigue(ks[i], ss[i], ks[i + 1])
  }

  ghost predicate Sigue(k: Kernel, s: Suceso, r: Kernel) {
    Posible(k, s) && r == Paso(k, s)
  }

  /** Nobody is killed while waiting for a resource it holds in the way that loses a unit. */
  ghost predicate SinPerdidas(ks: seq<Kernel>, ss: seq<Suceso>) {
    forall i :: 0 <= i < |ss| && i < |ks| ==> SinPerdida(ks[i], ss[i])
  }

  /** Every process in its list, and the priority list as VRR wants it. */
  ghost predicate Ordenado(k: Kernel) {
    InvColas(k, {}) && InvPrioridad(k)
  }

  lemma PasoOrdenado(k: Kernel, s: Suceso)
    requires Ordenado(k) && Posible(k, s)
    ensures Ordenado(Paso(k, s)) && Cuentas(k, s, Paso(k, s)) && Cobro(k, s, Paso(k, s))
  {
    hide InvColas, InvPrioridad, Posible, Paso, Cuentas, Cobro;
    PasoColas(k, s);
    PasoCobro(k, s);
    PasoCuentas(k, s);
  }

  /** In every state of every run each process is in exactly one list, the one the state table names. */
  lemma {:induction false} CorridaOrdenada(ks: seq<Kernel>, ss: seq<Suceso>, i: nat)
    requires Corrida(ks, ss) && Ordenado(ks[0]) && i < |ks|
    ensures Ordenado(ks[i])
  {
    if i > 0 {
      CorridaOrdenada(ks, ss, i - 1);
      assert Sigue(ks[i - 1], ss[i - 1], ks[i - 1 + 1]);
      hide Ordenado, Posible, Paso, Cuentas, Cobro;
      PasoOrdenado(ks[i - 1], ss[i - 1]);
    }
  }

  /** The step from state `i` of a run. */
  lemma UnPaso(ks: seq<Kernel>, ss: seq<Suceso>, i: nat)
    requires Corrida(ks, ss) && Ordenado(ks[0]) && i < |ss|
    ensures Posible(ks[i], ss[i]) && ks[i + 1] == Paso(ks[i], ss[i])
    ensures Ordenado(ks[i]) && Ordenado(ks[i + 1]) && Cuentas(ks[i], ss[i], ks[i + 1]) && Cobro(ks[i], ss[i], ks[i + 1])
  {
    CorridaOrdenada(ks, ss, i);
    assert Sigue(ks[i], ss[i], ks[i + 1]);
    hide Ordenado, Posible, Paso, Cuentas, Cobro;
    PasoOrdenado(ks[i], ss[i]);
  }

  /** In every state of a run in which nobody is killed in the way that loses a unit, the waiters of each resource are as
      many as the units owed, and are the blocked processes that name it. */
  lemma {:induction false} CorridaSana(ks: seq<Kernel>, ss: seq<Suceso>, i: nat)
    requires Corrida(ks, ss) && SinPerdidas(ks, ss) && Inv(ks[0]) && i < |ks|
    ensures Inv(ks[i])
  {
    if i > 0 {
      CorridaSana(ks, ss, i - 1);
      assert Sigue(ks[i - 1], ss[i - 1], ks[i - 1 + 1]) && SinPerdida(ks[i - 1], ss[i - 1]);
      hide Inv, Posible, Paso, SinPerdida;
      PasoInvSii(ks[i - 1], ss[i - 1]);
    }
  }

  lemma UnPasoSano(ks: seq<Kernel>, ss: seq<Suceso>, i: nat)
    requires Corrida(ks, ss) && SinPerdidas(ks, ss) && Inv(ks[0]) && i < |ss|
    ensures Posible(ks[i], ss[i]) && ks[i + 1] == Paso(ks[i], ss[i]) && Inv(ks[i]) && Inv(ks[i + 1])
    ensures forall x :: !Pierde(ks[i], ss[i], x)
  {
    CorridaSana(ks, ss, i);
    CorridaSana(ks, ss, i + 1);
    assert Sigue(ks[i], ss[i], ks[i + 1]) && SinPerdida(ks[i], ss[i]);
    hide Inv, Posible, Paso;
    SinPerdidaEs(ks[i], ss[i]);
  }

  lemma SinPerdidaEs(k: Kernel, s: Suceso)
    requires SinPerdida(k, s)
    ensures forall x :: !Pierde(k, s, x)
  {
  }

  // ---------------------------------------------------------------- units

  /** SIGNALs by non-holders among the first `n` events. */
  function Regaladas(ks: seq<Kernel>, ss: seq<Suceso>, x: string, n: nat): nat
    requires n <= |ss| && |ks| == |ss| + 1
  {
    if n == 0 then 0
    else Regaladas(ks, ss, x, n - 1) + if Posible(ks[n - 1], ss[n - 1]) && Regala(ks[n - 1], ss[n - 1], x) then 1 else 0
  }

  /** Conservation: at every point of a run, the units free plus those held by live processes are the initial ones plus
      the SIGNALs by processes that did not hold the resource. */
  lemma {:induction false} CorridaUnidades(ks: seq<Kernel>, ss: seq<Suceso>, x: string, i: nat)
    requires Corrida(ks, ss) && SinPerdidas(ks, ss) && Inv(ks[0]) && x in ks[0].recursos && i <= |ss|
    ensures x in ks[i].recursos && Unidades(ks[i], x) == Unidades(ks[0], x) + Regaladas(ks, ss, x, i)
  {
    hide Inv, Posible, Paso, Regala, Unidades;
    if i > 0 {
      CorridaUnidades(ks, ss, x, i - 1);
      UnPasoSano(ks, ss, i - 1);
      PasoUnidades(ks[i - 1], ss[i - 1], x);
    }
  }

  // ---------------------------------------------------------------- semaphores

  function MuertosListos(ks: seq<Kernel>, ss: seq<Suceso>, n: nat): nat
    requires n <= |ss| && |ks| == |ss| + 1
  {
    if n == 0 then 0 else MuertosListos(ks, ss, n - 1) + Uno(MataListo(ks[n - 1], ss[n - 1]))
  }

  function Vacios(ks: seq<Kernel>, ss: seq<Suceso>, n: nat): nat
    requires n <= |ss| && |ks| == |ss| + 1
  {
    if n == 0 then 0 else Vacios(ks, ss, n - 1) + Uno(DespachoVacio(ks[n - 1], ss[n - 1]))
  }

  /** The tokens of the scheduler over a run: `sem_process_in_ready` is ahead of the ready lists by the processes killed
      while ready, less the dispatches that found nobody, and each of these takes the CPU's token away. */
  lemma {:induction false} CorridaSemaforos(ks: seq<Kernel>, ss: seq<Suceso>, i: nat)
    requires Corrida(ks, ss) && Ordenado(ks[0]) && i <= |ss| && ks[0].cpuLibre >= 0
    ensures Exceso(ks[i]) == Exceso(ks[0]) + MuertosListos(ks, ss, i) - Vacios(ks, ss, i)
    ensures CpuPerdida(ks[i]) == CpuPerdida(ks[0]) + Vacios(ks, ss, i)
    ensures ks[i].cpuLibre >= 0
  {
    hide Ordenado, Paso, Cobro, Exceso, CpuPerdida, DespachoVacio, MataListo;
    if i > 0 {
      CorridaSemaforos(ks, ss, i - 1);
      UnPaso(ks, ss, i - 1);
    }
  }

  /** At most one process is running, whatever is killed. */
  lemma UnoSoloEnEjecucion(ks: seq<Kernel>, ss: seq<Suceso>, i: nat)
    requires Corrida(ks, ss) && Ordenado(ks[0]) && i <= |ss| && ks[0].cpuLibre >= 0 && CpuPerdida(ks[0]) >= 0
    ensures ks[i].cpuLibre + |ks[i].colas.exec| <= 1
  {
    hide Ordenado, Corrida;
    CorridaSemaforos(ks, ss, i);
  }

  /** If nobody is killed while ready, the tokens are exact and whenever there is one the scheduler finds somebody. */
  lemma SinMuertosListos(ks: seq<Kernel>, ss: seq<Suceso>, i: nat)
    requires Corrida(ks, ss) && Ordenado(ks[0]) && i <= |ss|
    requires ks[0].cpuLibre >= 0 && Exceso(ks[0]) == 0 && CpuPerdida(ks[0]) == 0
    requires forall j :: 0 <= j < i ==> !MataListo(ks[j], ss[j])
    ensures ks[i].enReady == |ks[i].colas.ready| + |ks[i].colas.auxiliar|
    ensures ks[i].cpuLibre + |ks[i].colas.exec| == 1
    ensures ks[i].enReady > 0 ==> Siguiente(ks[i]).Some?
  {
    hide Ordenado, Paso, Cuentas, Cobro, MataListo;
    CorridaOrdenada(ks, ss, i);
    CorridaSemaforos(ks, ss, i);
    SinVacios(ks, ss, i);
    if ks[i].enReady > 0 {
      AlguienListo(ks[i]);
    }
  }

  /** A token with nobody ready behind it is all that an empty dispatch needs. */
  lemma AlguienListo(k: Kernel)
    requires Ordenado(k) && Exceso(k) == 0 && k.enReady > 0
    ensures Siguiente(k).Some?
  {
    if k.colas.auxiliar != [] {
      assert k.colas.auxiliar[0] in k.colas.auxiliar && Prioritario(k, k.colas.auxiliar[0]);
    }
  }

  lemma {:induction false} SinVacios(ks: seq<Kernel>, ss: seq<Suceso>, i: nat)
    requires Corrida(ks, ss) && Ordenado(ks[0]) && i <= |ss|
    requires ks[0].cpuLibre >= 0 && Exceso(ks[0]) == 0 && CpuPerdida(ks[0]) == 0
    requires forall j :: 0 <= j < i ==> !MataListo(ks[j], ss[j])
    ensures MuertosListos(ks, ss, i) == 0 && Vacios(ks, ss, i) == 0
  {
    hide Ordenado, Paso, Cuentas, Cobro, MataListo, Exceso, CpuPerdida;
    if i > 0 {
      SinVacios(ks, ss, i - 1);
      CorridaSemaforos(ks, ss, i - 1);
      UnPaso(ks, ss, i - 1);
      if ss[i - 1].Despacha? {
        AlguienListo(ks[i - 1]);
      }
    }
  }

  /** An empty dispatch stops the kernel for good: no process runs and none is dispatched ever again. */
  lemma DespachoVacioDetiene(ks: seq<Kernel>, ss: seq<Suceso>, i: nat, j: nat)
    requires Corrida(ks, ss) && Ordenado(ks[0]) && i < j <= |ss|
    requires ks[0].cpuLibre >= 0 && CpuPerdida(ks[0]) >= 0 && DespachoVacio(ks[i], ss[i])
    ensures ks[j].cpuLibre == 0 && ks[j].colas.exec == []
    ensures j < |ss| ==> !ss[j].Despacha?
  {
    hide Ordenado, Paso, Cuentas, Cobro, MataListo, DespachoVacio;
    CorridaSemaforos(ks, ss, j);
    VaciosCrece(ks, ss, i, j);
    if j < |ss| {
      UnPaso(ks, ss, j);
    }
  }

  lemma {:induction false} VaciosCrece(ks: seq<Kernel>, ss: seq<Suceso>, i: nat, j: nat)
    requires |ks| == |ss| + 1 && i < j <= |ss| && DespachoVacio(ks[i], ss[i])
    ensures Vacios(ks, ss, j) >= 1
  {
    if i < j - 1 {
      VaciosCrece(ks, ss, i, j - 1);
    }
  }

  // ---------------------------------------------------------------- multiprogramming

  /** What a check compares with: the degree, and one more when somebody is between two lists. */
  function Tope(k: Kernel, s: Suceso): int {
    k.grado + Uno(s.Comprueba? && s.enMovimiento)
  }

  /** Admitted processes, with the admission that has passed the check, never exceed `cota` while no check compares with more. */
  lemma {:induction false} CotaDesde(ks: seq<Kernel>, ss: seq<Suceso>, cota: int, i: nat, j: nat)
    requires Corrida(ks, ss) && Ordenado(ks[0]) && i <= j <= |ss|
    requires Activos(ks[i]) + Uno(ks[i].admision) <= cota
    requires forall n :: i <= n < j ==> Tope(ks[n], ss[n]) <= cota
    ensures Activos(ks[j]) + Uno(ks[j].admision) <= cota
  {
    hide Ordenado, Paso, Cobro, MataListo, DespachoVacio, Exceso, CpuPerdida, Activos;
    if i < j {
      CotaDesde(ks, ss, cota, i, j - 1);
      UnPaso(ks, ss, j - 1);
    }
  }

  /** While the degree is never lowered and no check is made in the middle of a move, at most that many processes are
      ready, running or blocked. */
  lemma GradoDeMultiprogramacion(ks: seq<Kernel>, ss: seq<Suceso>, i: nat)
    requires Corrida(ks, ss) && Ordenado(ks[0]) && i <= |ss|
    requires Activos(ks[0]) + Uno(ks[0].admision) <= ks[0].grado
    requires forall n :: 0 <= n < i ==> ks[n].grado <= ks[n + 1].grado && ss[n] != Comprueba(true)
    ensures Activos(ks[i]) <= ks[i].grado
  {
    GradosHasta(ks, i);
    CotaDesde(ks, ss, ks[i].grado, 0, i);
  }

  /** Whenever the checks are made, at most one more. */
  lemma GradoMasUno(ks: seq<Kernel>, ss: seq<Suceso>, i: nat)
    requires Corrida(ks, ss) && Ordenado(ks[0]) && i <= |ss|
    requires Activos(ks[0]) + Uno(ks[0].admision) <= ks[0].grado + 1
    requires forall n :: 0 <= n < i ==> ks[n].grado <= ks[n + 1].grado
    ensures Activos(ks[i]) + Uno(ks[i].admision) <= ks[i].grado + 1
  {
    GradosHasta(ks, i);
    CotaDesde(ks, ss, ks[i].grado + 1, 0, i);
  }

  lemma GradosHasta(ks: seq<Kernel>, i: nat)
    requires i < |ks| && forall m :: 0 <= m < i ==> ks[m].grado <= ks[m + 1].grado
    ensures forall n :: 0 <= n <= i ==> ks[n].grado <= ks[i].grado
  {
    forall n | 0 <= n <= i ensures ks[n].grado <= ks[i].grado {
      GradoCrece(ks, n, i);
    }
  }

  lemma {:induction false} GradoCrece(ks: seq<Kernel>, n: nat, i: nat)
    requires n <= i < |ks| && forall m :: 0 <= m < i ==> ks[m].grado <= ks[m + 1].grado
    ensures ks[n].grado <= ks[i].grado
    decreases i - n
  {
    if n < i {
      GradoCrece(ks, n + 1, i);
    }
  }

  /** After the degree is lowered below the processes there are, with no admission under way, they can only become fewer. */
  lemma GradoBajado(ks: seq<Kernel>, ss: seq<Suceso>, i: nat, j: nat)
    requires Corrida(ks, ss) && Ordenado(ks[0]) && i <= j <= |ss|
    requires !ks[i].admision && forall n :: i <= n < j ==> Tope(ks[n], ss[n]) <= Activos(ks[i])
    ensures Activos(ks[j]) <= Activos(ks[i])
  {
    CotaDesde(ks, ss, Activos(ks[i]), i, j);
  }

  // ---------------------------------------------------------------- the lock of the NEW list

  /** After an admission that finds nobody new, nobody is created, admitted or killed ever again, and the processes
      there are can only become fewer. */
  lemma {:induction false} AdmisionVaciaDetiene(ks: seq<Kernel>, ss: seq<Suceso>, i: nat, j: nat)
    requires Corrida(ks, ss) && Ordenado(ks[0]) && i < j <= |ss|
    requires ss[i].Admite? && ks[i].colas.nuevos == []
    ensures ks[j].newTrabada && Activos(ks[j]) <= Activos(ks[i])
    ensures j < |ss| ==> !ss[j].Crea? && !ss[j].Admite? && !ss[j].Mata?
  {
    hide Ordenado, Paso, Cobro, MataListo, DespachoVacio, Exceso, CpuPerdida, Activos;
    if i < j - 1 {
      AdmisionVaciaDetiene(ks, ss, i, j - 1);
    }
    UnPaso(ks, ss, j - 1);
    if j < |ss| {
      UnPaso(ks, ss, j);
    }
  }

  /** And once a kill or another admission waits for that list, no process ends ever again. */
  lemma {:induction false} EsperaNewDetiene(ks: seq<Kernel>, ss: seq<Suceso>, i: nat, j: nat)
    requires Corrida(ks, ss) && Ordenado(ks[0]) && i < j <= |ss| && ss[i].EsperaNew?
    ensures ks[j].largoTomado
    ensures j < |ss| ==> !TomaLargo(ks[j], ss[j])
  {
    hide Ordenado, Paso, Cobro, MataListo, DespachoVacio, Exceso, CpuPerdida, Activos, TomaLargo;
    if i < j - 1 {
      EsperaNewDetiene(ks, ss, i, j - 1);
    }
    UnPaso(ks, ss, j - 1);
    if j < |ss| {
      UnPaso(ks, ss, j);
    }
  }

  // ---------------------------------------------------------------- quanta

  /** When the process was last dispatched, by the first `n` events. */
  function UltimoDespacho(ks: seq<Kernel>, ss: seq<Suceso>, p: nat, n: nat): int
    requires n <= |ss| && |ks| == |ss| + 1
  {
    if n == 0 then 0
    else if Toma(ks[n - 1], ss[n - 1], p) then ss[n - 1].ahora
    else UltimoDespacho(ks, ss, p, n - 1)
  }

  /** Time of its bursts that ended in I/O since it was last dispatched from READY. */
  function Gastado(ks: seq<Kernel>, ss: seq<Suceso>, p: nat, n: nat): int
    requires n <= |ss| && |ks| == |ss| + 1
  {
    if n == 0 then 0
    else if TomaDeReady(ks[n - 1], ss[n - 1], p) then 0
    else if Posible(ks[n - 1], ss[n - 1]) && SeVaAIO(ks[n - 1], ss[n - 1], p) then
      Gastado(ks, ss, p, n - 1) + ss[n - 1].ahora - UltimoDespacho(ks, ss, p, n - 1)
    else Gastado(ks, ss, p, n - 1)
  }

  function TomadoDeReady(ks: seq<Kernel>, ss: seq<Suceso>, p: nat, n: nat): bool
    requires n <= |ss| && |ks| == |ss| + 1
  {
    n > 0 && (TomaDeReady(ks[n - 1], ss[n - 1], p) || TomadoDeReady(ks, ss, p, n - 1))
  }

  /** Under VRR, once a process has been dispatched from READY its quantum is the configured one less the time of its
      bursts that ended in I/O since the last such dispatch. */
  lemma {:induction false} CorridaQuanta(ks: seq<Kernel>, ss: seq<Suceso>, p: nat, i: nat)
    requires Corrida(ks, ss) && Ordenado(ks[0]) && i <= |ss| && ks[0].algoritmo == VRR && ks[0].pcbs == map[]
    ensures ks[i].algoritmo == VRR && ks[i].quantum == ks[0].quantum
    ensures TomadoDeReady(ks, ss, p, i) ==> p in ks[i].pcbs
    ensures (if p in ks[i].pcbs then ks[i].pcbs[p].tiempoInicial else 0) == UltimoDespacho(ks, ss, p, i)
    ensures p in ks[i].pcbs && TomadoDeReady(ks, ss, p, i) ==> ks[i].pcbs[p].quantum == ks[i].quantum - Gastado(ks, ss, p, i)
  {
    hide Ordenado, Paso, Cuentas, Posible, Toma, TomaDeReady, SeVaAIO;
    if i > 0 {
      CorridaQuanta(ks, ss, p, i - 1);
      UnPaso(ks, ss, i - 1);
      if p in ks[i - 1].pcbs {
        assert CobroDe(ks[i - 1], ss[i - 1], ks[i], p);
      } else {
        NuevoSinTomar(ks, ss, p, i);
      }
    }
  }

  /** A process that does not exist yet has not been dispatched. */
  lemma NuevoSinTomar(ks: seq<Kernel>, ss: seq<Suceso>, p: nat, i: nat)
    requires Corrida(ks, ss) && 0 < i <= |ss| && Ordenado(ks[i - 1]) && p !in ks[i - 1].pcbs
    ensures !Toma(ks[i - 1], ss[i - 1], p) && !TomaDeReady(ks[i - 1], ss[i - 1], p)
    ensures Posible(ks[i - 1], ss[i - 1]) && !SeVaAIO(ks[i - 1], ss[i - 1], p)
  {
    assert Sigue(ks[i - 1], ss[i - 1], ks[i - 1 + 1]);
    ExistenLosTomados(ks[i - 1], ss[i - 1]);
  }

  lemma ExistenLosTomados(k: Kernel, s: Suceso)
    requires Ordenado(k) && Posible(k, s)
    ensures forall p :: Toma(k, s, p) || TomaDeReady(k, s, p) || SeVaAIO(k, s, p) ==> p in k.pcbs
  {
  }

  /** In every dispatch of VRR the timer gets a quantum between 1 and the configured one, the process holds that same
      quantum, and it comes from the priority list whenever somebody is there. */
  lemma DespachoVRR(ks: seq<Kernel>, ss: seq<Suceso>, i: nat)
    requires Corrida(ks, ss) && Ordenado(ks[0]) && i < |ss|
    requires ks[i].algoritmo == VRR && ks[i].quantum > 0 && ss[i].Despacha? && Siguiente(ks[i]).Some?
    ensures var p := Siguiente(ks[i]).value;
            && p in ks[i].pcbs && p in ks[i + 1].pcbs
            && 0 < QuantumDado(ks[i], p) <= ks[i].quantum
            && ks[i + 1].pcbs[p].quantum == QuantumDado(ks[i], p)
            && (ks[i].colas.auxiliar != [] ==> p == ks[i].colas.auxiliar[0])
  {
    UnPaso(ks, ss, i);
    var p := Siguiente(ks[i]).value;
    SiguienteEs(ks[i]);
    assert CobroDe(ks[i], ss[i], ks[i + 1], p);
    if ks[i].colas.auxiliar != [] {
      assert Prioritario(ks[i], ks[i].colas.auxiliar[0]);
    }
  }
}
