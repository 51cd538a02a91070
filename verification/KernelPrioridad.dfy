/** Quanta under VRR: who is in the priority list and how much each process has left. */
module KernelPrioridad {
  import opened Comunes
  import opened KernelEstado
  import opened KernelRecursos
  import opened KernelPasos
  import opened KernelSucesos

  /** Only VRR uses the priority list, and there every process has part of its quantum left. */
  ghost predicate InvPrioridad(k: Kernel) {
    forall p: nat :: p in k.colas.auxiliar ==> Prioritario(k, p)
  }

  predicate Prioritario(k: Kernel, p: nat) {
    k.algoritmo == VRR && p in k.pcbs && 0 < k.pcbs[p].quantum < k.quantum
  }

  /** `s` has the processes of `k` with the same quanta and starting times, and maybe new ones, under the same algorithm. */
  ghost predicate MismosQuanta(k: Kernel, s: Kernel) {
    && s.algoritmo == k.algoritmo && s.quantum == k.quantum
    && (forall p: nat :: p in k.pcbs ==> MismoQuantum(k, s, p))
    && (forall p: nat :: p in s.pcbs && p !in k.pcbs ==> s.pcbs[p].tiempoInicial == 0)
  }

  predicate MismoQuantum(k: Kernel, s: Kernel, p: nat)
    requires p in k.pcbs
  {
    p in s.pcbs && s.pcbs[p].quantum == k.pcbs[p].quantum && s.pcbs[p].tiempoInicial == k.pcbs[p].tiempoInicial
  }

  /** `s` is a step from `k` that changes no quantum and lets in the priority list only who may be there. */
  ghost predicate Conserva(k: Kernel, s: Kernel) {
    MismosQuanta(k, s) && forall p: nat :: p in s.colas.auxiliar ==> p in k.colas.auxiliar || Prioritario(s, p)
  }

  lemma ConservaInv(k: Kernel, s: Kernel)
    requires InvPrioridad(k) && Conserva(k, s)
    ensures InvPrioridad(s)
  {
    assert forall p: nat :: Prioritario(k, p) ==> MismoQuantum(k, s, p);
  }

  lemma ConservaDos(k: Kernel, s: Kernel, r: Kernel)
    requires Conserva(k, s) && Conserva(s, r)
    ensures Conserva(k, r)
  {
    assert forall p: nat :: p in k.pcbs ==> MismoQuantum(k, s, p) && MismoQuantum(s, r, p);
    assert forall p: nat :: Prioritario(s, p) ==> MismoQuantum(s, r, p);
  }

  lemma SacarConserva(k: Kernel, p: nat)
    requires Creado(k, p)
    ensures Conserva(k, Sacar(k, p))
  {
    var e := k.estados[p - 1];
    ColaCambiada(k.colas, e, Quitar(Cola(k.colas, e), p), READY_AUX);
  }

  lemma PonerConserva(k: Kernel, p: nat, e: Estado)
    requires Creado(k, p) && p in k.pcbs && (e == READY_AUX ==> Prioritario(k, p))
    ensures Conserva(k, Poner(k, p, e))
  {
    ColaCambiada(k.colas, e, Cola(k.colas, e) + [p], READY_AUX);
  }

  lemma MoverConserva(k: Kernel, p: nat, e: Estado)
    requires Creado(k, p) && p in k.pcbs && (e == READY_AUX ==> Prioritario(k, p))
    ensures Conserva(k, Mover(k, p, e))
  {
    SacarConserva(k, p);
    PonerConserva(Sacar(k, p), p, e);
    ConservaDos(k, Sacar(k, p), Mover(k, p, e));
  }

  /** Nothing that `Conserva` looks at differs between `k` and `s`. */
  lemma IgualConserva(k: Kernel, s: Kernel)
    requires MismosQuanta(k, s) && s.colas == k.colas
    ensures Conserva(k, s)
  {
  }

  lemma DesbloquearConserva(k: Kernel, p: nat)
    requires Creado(k, p) && p in k.pcbs
    ensures Conserva(k, Desbloquear(k, p))
  {
    hide Mover;
    var e := Destino(k, k.pcbs[p]);
    MoverConserva(k, p, e);
    IgualConserva(Mover(k, p, e), Desbloquear(k, p));
    ConservaDos(k, Mover(k, p, e), Desbloquear(k, p));
  }

  lemma IncrementarConserva(k: Kernel, r: string)
    ensures Conserva(k, Incrementar(k, r))
  {
    hide Desbloquear, Conserva;
    IgualConserva(k, k);
    if r in k.recursos {
      var rec := k.recursos[r];
      var n := rec.instancias + 1;
      if n <= 0 && rec.bloqueados != [] {
        ServirConserva(k, r, Recurso(n, rec.bloqueados[1..]), rec.bloqueados[0]);
      } else {
        IgualConserva(k, Incrementar(k, r));
      }
    }
  }

  lemma ServirConserva(k: Kernel, r: string, rec: Recurso, p: nat)
    ensures var k1 := ConRecurso(k, r, rec);
            Conserva(k, if Bloqueado(k1, p) then Desbloquear(Otorgar(k1, p, r), p) else k1)
  {
    hide Desbloquear, Conserva;
    var k1 := ConRecurso(k, r, rec);
    IgualConserva(k, k1);
    if Bloqueado(k1, p) {
      var k2 := Otorgar(k1, p, r);
      IgualConserva(k1, k2);
      assert Creado(k2, p);
      DesbloquearConserva(k2, p);
      ConservaDos(k, k1, k2);
      ConservaDos(k, k2, Desbloquear(k2, p));
    }
  }

  lemma {:induction false} DevolverConserva(k: Kernel, tomados: seq<string>, n: nat)
    requires n <= |tomados|
    ensures Conserva(k, Devolver(k, tomados, n))
  {
    hide Incrementar;
    if n > 0 {
      var s := Devolver(k, tomados, n - 1);
      DevolverConserva(k, tomados, n - 1);
      IncrementarConserva(s, tomados[n - 1]);
      ConservaDos(k, s, Incrementar(s, tomados[n - 1]));
    }
  }

  lemma LiberarConserva(k: Kernel, p: nat)
    requires p in k.pcbs
    ensures Conserva(k, Liberar(k, p))
  {
    hide Devolver, Conserva;
    var b := k.pcbs[p];
    var k1 := Devolver(k, b.tomados, |b.tomados|);
    DevolverConserva(k, b.tomados, |b.tomados|);
    IgualConserva(k1, Liberar(k, p));
    ConservaDos(k, k1, Liberar(k, p));
  }

  lemma EliminarConserva(k: Kernel, p: nat)
    requires Creado(k, p) && p in k.pcbs
    ensures Conserva(k, Eliminar(k, p))
  {
    hide Sacar, Liberar, Poner, Conserva;
    SacarConserva(k, p);
    SacarPcbs(k, p);
    var k0 := Sacar(k, p);
    LiberarConserva(k0, p);
    var s := Liberar(k0, p);
    ConservaDos(k, k0, s);
    if Creado(s, p) && p in s.pcbs {
      PonerConserva(s, p, EXITT);
      ConservaDos(k, s, Poner(s, p, EXITT));
    }
  }

  // ---------------------------------------------------------------- one event

  predicate TomaDeReady(k: Kernel, s: Suceso, p: nat) {
    s.Despacha? && Siguiente(k) == Some(p) && (k.algoritmo == VRR ==> k.colas.auxiliar == [])
  }

  predicate Toma(k: Kernel, s: Suceso, p: nat) {
    s.Despacha? && Siguiente(k) == Some(p)
  }

  predicate SeVaAIO(k: Kernel, s: Suceso, p: nat)
    requires Posible(k, s)
  {
    s.PideIO? && EnEjecucion(k) == p
  }

  /** Under VRR a dispatch notes its time, one from READY gives a whole quantum, and a burst that ends in I/O
      is charged; nothing else touches quanta. */
  ghost predicate Cobro(k: Kernel, s: Suceso, r: Kernel)
    requires Posible(k, s)
  {
    && r.algoritmo == k.algoritmo && r.quantum == k.quantum
    && (forall p: nat :: p in k.pcbs ==> CobroDe(k, s, r, p))
    && (forall p: nat :: p in r.pcbs && p !in k.pcbs ==> r.pcbs[p].tiempoInicial == 0)
  }

  predicate CobroDe(k: Kernel, s: Suceso, r: Kernel, p: nat)
    requires Posible(k, s) && p in k.pcbs
  {
    && p in r.pcbs
    && r.pcbs[p].tiempoInicial == (if k.algoritmo == VRR && Toma(k, s, p) then s.ahora else k.pcbs[p].tiempoInicial)
    && r.pcbs[p].quantum ==
         if k.algoritmo == VRR && TomaDeReady(k, s, p) then k.quantum
         else if k.algoritmo == VRR && SeVaAIO(k, s, p) then k.pcbs[p].quantum - (s.ahora - k.pcbs[p].tiempoInicial)
         else k.pcbs[p].quantum
  }

  lemma ConservaCobro(k: Kernel, s: Suceso, r: Kernel)
    requires Posible(k, s) && !s.Despacha? && !s.PideIO? && Conserva(k, r)
    ensures Cobro(k, s, r)
    ensures InvPrioridad(k) ==> InvPrioridad(r)
  {
    if InvPrioridad(k) {
      ConservaInv(k, r);
    }
    forall p: nat | p in k.pcbs ensures CobroDe(k, s, r, p) {
      assert MismoQuantum(k, r, p);
    }
  }

  lemma PasoCobro(k: Kernel, s: Suceso)
    requires InvColas(k, {}) && InvPrioridad(k) && Posible(k, s)
    ensures Cobro(k, s, Paso(k, s)) && InvPrioridad(Paso(k, s))
  {
    if s.Despacha? {
      DespacharCobro(k, s.ahora);
    } else if s.PideIO? {
      BloquearIOCobro(k, s.ahora);
    } else {
      PasoConserva(k, s);
      ConservaCobro(k, s, Paso(k, s));
    }
  }

  lemma DespacharCobro(k: Kernel, ahora: int)
    requires InvColas(k, {}) && InvPrioridad(k) && Posible(k, Despacha(ahora))
    ensures Cobro(k, Despacha(ahora), Despachar(k, ahora)) && InvPrioridad(Despachar(k, ahora))
  {
    hide InvColas, Mover, Conserva, InvPrioridad, Posible, Quitar;
    var s := k.(cpuLibre := k.cpuLibre - 1, enReady := k.enReady - 1);
    IgualPrioridad(k, s);
    if Siguiente(k).Some? {
      var p := Siguiente(k).value;
      SiguienteEs(k);
      if k.estados[p - 1] != READY_AUX {
        NoRepetido(k, p);
      }
      var b := if k.algoritmo == VRR then k.pcbs[p].(quantum := QuantumDado(k, p), tiempoInicial := ahora) else k.pcbs[p];
      var k1 := ConPcb(s, p, b);
      PcbPrioridad(s, p, b);
      MoverConserva(k1, p, EXEC);
      ConservaInv(k1, Mover(k1, p, EXEC));
      forall q: nat | q in k.pcbs ensures CobroDe(k, Despacha(ahora), Despachar(k, ahora), q) {
        ConservaUno(k1, Mover(k1, p, EXEC), q);
      }
      ConservaUno(k1, Mover(k1, p, EXEC), p);
    }
  }

  lemma IgualPrioridad(k: Kernel, s: Kernel)
    requires InvPrioridad(k) && s.colas == k.colas && s.pcbs == k.pcbs && s.algoritmo == k.algoritmo && s.quantum == k.quantum
    ensures InvPrioridad(s)
  {
    assert forall q: nat :: q in k.colas.auxiliar ==> Prioritario(k, q);
  }

  lemma ConservaUno(k: Kernel, s: Kernel, p: nat)
    requires Conserva(k, s) && p in k.pcbs
    ensures MismoQuantum(k, s, p) && s.algoritmo == k.algoritmo && s.quantum == k.quantum
    ensures forall q: nat :: q in s.pcbs && q !in k.pcbs ==> s.pcbs[q].tiempoInicial == 0
  {
  }

  lemma PcbPrioridad(k: Kernel, p: nat, b: Pcb)
    requires InvPrioridad(k) && p in k.pcbs && (p in k.colas.auxiliar ==> b.quantum == k.pcbs[p].quantum)
    ensures InvPrioridad(ConPcb(k, p, b))
  {
    assert forall q: nat :: q in k.colas.auxiliar ==> Prioritario(k, q);
  }

  /** A ready process is not in the priority list. */
  lemma NoRepetido(k: Kernel, p: nat)
    requires InvColas(k, {}) && Creado(k, p) && k.estados[p - 1] != READY_AUX
    ensures p !in k.colas.auxiliar
  {
    assert EnCola(k, READY_AUX, p) <==> Figura(k, READY_AUX, p);
  }

  lemma BloquearIOCobro(k: Kernel, ahora: int)
    requires InvColas(k, {}) && InvPrioridad(k) && Posible(k, PideIO(ahora))
    ensures Cobro(k, PideIO(ahora), Paso(k, PideIO(ahora))) && InvPrioridad(Paso(k, PideIO(ahora)))
  {
    hide InvColas, Mover, Conserva, InvPrioridad;
    var p := EnEjecucion(k);
    EnCpuFigura(k, p);
    NoRepetido(k, p);
    var b := k.pcbs[p];
    var c := if k.algoritmo == VRR then b.(quantum := b.quantum - (ahora - b.tiempoInicial)) else b;
    var k1 := ConPcb(k, p, c);
    PcbPrioridad(k, p, c);
    MoverConserva(k1, p, BLOCKED);
    ConservaInv(k1, Mover(k1, p, BLOCKED));
    IgualPrioridad(Mover(k1, p, BLOCKED), BloquearIO(k, p, ahora));
    forall q: nat | q in k.pcbs ensures CobroDe(k, PideIO(ahora), Paso(k, PideIO(ahora)), q) {
      ConservaUno(k1, Mover(k1, p, BLOCKED), q);
    }
    ConservaUno(k1, Mover(k1, p, BLOCKED), p);
  }

  lemma PasoConserva(k: Kernel, s: Suceso)
    requires InvColas(k, {}) && Posible(k, s) && !s.Despacha? && !s.PideIO?
    ensures Conserva(k, Paso(k, s))
  {
    hide InvColas, Wait, Signal, Terminar, Eliminar, Mover, Conserva, Admitir;
    match s
    case Crea => CrearConserva(k);
    case Comprueba(m) => IgualConserva(k, Comprobar(k, m));
    case Admite => AdmitirConserva(k);
    case CambiaGrado(g) => IgualConserva(k, k.(grado := g));
    case Despacha(_) =>
    case FinDeQuantum => DesalojarConserva(k, EnEjecucion(k));
    case Termina => TerminarConserva(k, EnEjecucion(k));
    case SinInterfaz => ExpulsarConserva(k, EnEjecucion(k));
    case PideWait(r) =>
      if r in k.recursos { WaitConserva(k, EnEjecucion(k), r); } else { ExpulsarConserva(k, EnEjecucion(k)); }
    case PideSignal(r) =>
      if r in k.recursos { SignalConserva(k, EnEjecucion(k), r); } else { ExpulsarConserva(k, EnEjecucion(k)); }
    case PideIO(_) =>
    case FinIO(p) => DesbloquearConserva(k, p);
    case ErrorIO(p) => EliminarConserva(k, p);
    case Mata(p) => if Matable(k, p) { EliminarConserva(k, p); } else { IgualConserva(k, k); }
    case EsperaNew => IgualConserva(k, Paso(k, s));
  }

  lemma CrearConserva(k: Kernel)
    requires InvColas(k, {})
    ensures Conserva(k, Crear(k))
  {
    assert !Creado(k, |k.estados| + 1);
  }

  lemma AdmitirConserva(k: Kernel)
    requires Posible(k, Admite)
    ensures Conserva(k, Admitir(k))
  {
    var s := k.(admision := false);
    IgualConserva(k, s);
    if k.colas.nuevos != [] {
      hide Mover, Conserva;
      var p := k.colas.nuevos[0];
      assert Creado(s, p);
      MoverConserva(s, p, READY);
      ConservaDos(k, s, Mover(s, p, READY));
      IgualConserva(Mover(s, p, READY), Admitir(k));
      ConservaDos(k, Mover(s, p, READY), Admitir(k));
    } else {
      IgualConserva(k, Admitir(k));
    }
  }

  lemma DesalojarConserva(k: Kernel, p: nat)
    requires EnCpu(k, p)
    ensures Conserva(k, Desalojar(k, p))
  {
    hide Mover, Conserva;
    MoverConserva(k, p, READY);
    IgualConserva(Mover(k, p, READY), Desalojar(k, p));
    ConservaDos(k, Mover(k, p, READY), Desalojar(k, p));
  }

  lemma TerminarConserva(k: Kernel, p: nat)
    requires EnCpu(k, p)
    ensures Conserva(k, Terminar(k, p))
  {
    hide Mover, Conserva, Liberar;
    LiberarConserva(k, p);
    var s := Liberar(k, p);
    if Creado(s, p) && p in s.pcbs {
      MoverConserva(s, p, EXITT);
      ConservaDos(k, s, Mover(s, p, EXITT));
      IgualConserva(Mover(s, p, EXITT), Terminar(k, p));
      ConservaDos(k, Mover(s, p, EXITT), Terminar(k, p));
    }
  }

  lemma ExpulsarConserva(k: Kernel, p: nat)
    requires EnCpu(k, p)
    ensures Conserva(k, SoltarCpu(Eliminar(k, p)))
  {
    hide Eliminar, Conserva;
    EliminarConserva(k, p);
    IgualConserva(Eliminar(k, p), SoltarCpu(Eliminar(k, p)));
    ConservaDos(k, Eliminar(k, p), SoltarCpu(Eliminar(k, p)));
  }

  lemma WaitConserva(k: Kernel, p: nat, r: string)
    requires EnCpu(k, p) && r in k.recursos
    ensures Conserva(k, Wait(k, p, r))
  {
    hide Mover, Conserva;
    var rec := k.recursos[r];
    if rec.instancias - 1 < 0 {
      var k1 := ConRecurso(k, r, Recurso(rec.instancias - 1, rec.bloqueados + [p]));
      IgualConserva(k, k1);
      MoverConserva(k1, p, BLOCKED);
      MoverEs(k1, p, BLOCKED);
      ConservaDos(k, k1, Mover(k1, p, BLOCKED));
      IgualConserva(Mover(k1, p, BLOCKED), Wait(k, p, r));
      ConservaDos(k, Mover(k1, p, BLOCKED), Wait(k, p, r));
    } else {
      IgualConserva(k, Wait(k, p, r));
    }
  }

  lemma SignalConserva(k: Kernel, p: nat, r: string)
    requires EnCpu(k, p)
    ensures Conserva(k, Signal(k, p, r))
  {
    hide Incrementar, Conserva, Quitar;
    IncrementarConserva(k, r);
    var s := Incrementar(k, r);
    assert forall q: nat :: q in s.pcbs ==> MismoQuantum(s, Signal(k, p, r), q);
    IgualConserva(s, Signal(k, p, r));
    ConservaDos(k, Incrementar(k, r), Signal(k, p, r));
  }

  /** A process that stops being blocked comes back with priority if and only if the algorithm is VRR and it has part of its
      quantum left; otherwise it comes back to READY. */
  lemma VuelveConPrioridadSii(k: Kernel, p: nat)
    requires InvColas(k, {}) && Bloqueado(k, p)
    ensures var s := Desbloquear(k, p);
            && (p in s.colas.auxiliar <==> k.algoritmo == VRR && 0 < k.pcbs[p].quantum < k.quantum)
            && (p in s.colas.ready <==> p !in s.colas.auxiliar)
  {
    hide InvColas, Mover;
    BloqueadoFigura(k, p);
    var e := Destino(k, k.pcbs[p]);
    MoverColas(k, {}, p, e);
    MoverEs(k, p, e);
    EnUnaSolaCola(Mover(k, p, e), p, READY, READY_AUX);
  }
}
