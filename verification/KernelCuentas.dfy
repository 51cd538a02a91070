/** What each event does to the units of the resources, the semaphores, the degree of multiprogramming and
    the quanta of the priority list. */
module KernelCuentas {
  import opened Comunes
  import opened KernelEstado
  import opened KernelRecursos
  import opened KernelPasos
  import opened KernelSucesos

  // ---------------------------------------------------------------- units

  /** A SIGNAL on a resource the process does not hold makes a unit out of nothing. */
  predicate Regala(k: Kernel, s: Suceso, x: string)
    requires Posible(k, s)
  {
    s.PideSignal? && s.recurso == x && x in k.recursos && x !in k.pcbs[EnEjecucion(k)].tomados
  }

  predicate Pierde(k: Kernel, s: Suceso, x: string) {
    s.Mata? && Matable(k, s.pid) && PierdeUnidad(k, s.pid, x)
  }

  lemma MoverUnidades(k: Kernel, p: nat, e: Estado, x: string)
    requires Creado(k, p) && p in k.pcbs && k.estados[p - 1] != EXITT && x in k.recursos
    ensures Mover(k, p, e).recursos == k.recursos
    ensures Unidades(Mover(k, p, e), x) == Unidades(k, x) - if e == EXITT then Veces(k.pcbs[p].tomados, x) else 0
  {
    hide Veces, Mover;
    MoverEs(k, p, e);
    var s := Mover(k, p, e);
    forall q: nat | q != p ensures Aporte(s, q, x) == Aporte(k, q, x) {
      assert Creado(k, q) <==> Creado(s, q);
    }
    assert Creado(s, p);
    TenidasCambia(k, s, x, |k.estados|, p);
  }

  lemma PcbUnidades(k: Kernel, p: nat, b: Pcb, x: string)
    requires Creado(k, p) && p in k.pcbs && k.estados[p - 1] != EXITT && x in k.recursos
    ensures Unidades(ConPcb(k, p, b), x) == Unidades(k, x) + Veces(b.tomados, x) - Veces(k.pcbs[p].tomados, x)
  {
    hide Veces;
    var s := ConPcb(k, p, b);
    forall q: nat | q != p ensures Aporte(s, q, x) == Aporte(k, q, x) {
      assert Creado(k, q) <==> Creado(s, q);
    }
    assert Creado(s, p);
    TenidasCambia(k, s, x, |k.estados|, p);
  }

  lemma ConRecursoUnidades(k: Kernel, r: string, rec: Recurso, x: string)
    requires r in k.recursos && x in k.recursos
    ensures var i, j := k.recursos[r].instancias, rec.instancias;
            Unidades(ConRecurso(k, r, rec), x) == Unidades(k, x) +
              if x == r then (if j > 0 then j else 0) - (if i > 0 then i else 0) else 0
  {
    hide Veces;
    var s := ConRecurso(k, r, rec);
    assert forall q: nat :: Creado(k, q) <==> Creado(s, q);
    TenidasCambia(k, s, x, |k.estados|, 0);
  }

  lemma CrearUnidades(k: Kernel, x: string)
    requires x in k.recursos
    ensures Unidades(Crear(k), x) == Unidades(k, x)
  {
    var n := |k.estados|;
    TenidasPrefijo(k, Crear(k), x, n);
    assert Aporte(Crear(k), n + 1, x) == 0;
  }

  lemma {:induction false} TenidasPrefijo(k: Kernel, s: Kernel, x: string, n: nat)
    requires s == Crear(k) && n <= |k.estados|
    ensures Tenidas(s, x, n) == Tenidas(k, x, n)
  {
    if n > 0 {
      TenidasPrefijo(k, s, x, n - 1);
      assert Creado(k, n) && Creado(s, n);
    }
  }

  lemma WaitUnidades(k: Kernel, p: nat, r: string, x: string)
    requires Inv(k) && EnCpu(k, p) && r in k.recursos && x in k.recursos
    ensures x in Wait(k, p, r).recursos && Unidades(Wait(k, p, r), x) == Unidades(k, x)
  {
    hide Inv, Mover, Veces, Unidades;
    EnCpuEs(k, p);
    var rec := k.recursos[r];
    if rec.instancias - 1 < 0 {
      var k1 := ConRecurso(k, r, Recurso(rec.instancias - 1, rec.bloqueados + [p]));
      ConRecursoUnidades(k, r, k1.recursos[r], x);
      MoverUnidades(k1, p, BLOCKED, x);
      MoverEs(k1, p, BLOCKED);
      var k2 := Mover(k1, p, BLOCKED);
      assert Creado(k2, p);
      var b := k2.pcbs[p].(esperando := Some(r));
      PcbUnidades(k2, p, b, x);
      MismasUnidades(ConPcb(k2, p, b), Wait(k, p, r), x);
    } else {
      var k1 := ConRecurso(k, r, Recurso(rec.instancias - 1, rec.bloqueados));
      ConRecursoUnidades(k, r, k1.recursos[r], x);
      assert Creado(k1, p);
      PcbUnidades(k1, p, k.pcbs[p].(tomados := k.pcbs[p].tomados + [r]), x);
      VecesUltimo(k.pcbs[p].tomados, r, x);
    }
  }

  lemma SignalUnidades(k: Kernel, p: nat, r: string, x: string)
    requires Inv(k) && EnCpu(k, p) && r in k.recursos && x in k.recursos
    ensures x in Signal(k, p, r).recursos
    ensures Unidades(Signal(k, p, r), x) == Unidades(k, x) + if x == r && r !in k.pcbs[p].tomados then 1 else 0
  {
    hide InvColas, InvRecursos, Incrementar, Quitar, Unidades, Veces;
    EnCpuEs(k, p);
    IncrementarAjeno(k, {}, r, p);
    IncrementarUnidades(k, {}, r, x);
    var s := Incrementar(k, r);
    PcbUnidades(s, p, s.pcbs[p].(tomados := Quitar(s.pcbs[p].tomados, r)), x);
    VecesQuitado(s.pcbs[p].tomados, r, x);
  }

  lemma VecesQuitado(s: seq<string>, r: string, x: string)
    ensures Veces(Quitar(s, r), x) == Veces(s, x) - if x == r && r in s then 1 else 0
  {
    var i := Indice(s, r);
    if i >= 0 {
      VecesSin(s, i, x);
      assert Quitar(s, r) == Sin(s, i);
    }
  }

  lemma TerminarUnidades(k: Kernel, p: nat, x: string)
    requires Inv(k) && EnCpu(k, p) && x in k.recursos
    ensures x in Terminar(k, p).recursos && Unidades(Terminar(k, p), x) == Unidades(k, x)
  {
    hide InvColas, InvRecursos, Devolver, Mover, Unidades, Veces;
    EnCpuEs(k, p);
    TomadosExisten(k, p);
    var t := k.pcbs[p].tomados;
    DevolverAjeno(k, {}, t, |t|, p);
    DevolverUnidades(k, {}, t, |t|, p, x);
    assert t[..|t|] == t;
    var s := Devolver(k, t, |t|);
    assert s == Liberar(k, p);
    MoverUnidades(s, p, EXITT, x);
    MismasUnidades(Mover(s, p, EXITT), Terminar(k, p), x);
  }

  lemma ExpulsarUnidades(k: Kernel, p: nat, x: string)
    requires Inv(k) && EnCpu(k, p) && x in k.recursos
    ensures x in Eliminar(k, p).recursos && Unidades(SoltarCpu(Eliminar(k, p)), x) == Unidades(k, x)
  {
    hide Inv, Eliminar, Unidades;
    EnCpuEs(k, p);
    EliminarUnidades(k, p, x);
    MismasUnidades(Eliminar(k, p), SoltarCpu(Eliminar(k, p)), x);
  }

  lemma DespacharUnidades(k: Kernel, ahora: int, x: string)
    requires Inv(k) && Posible(k, Despacha(ahora)) && x in k.recursos
    ensures x in Despachar(k, ahora).recursos && Unidades(Despachar(k, ahora), x) == Unidades(k, x)
  {
    hide Inv, InvColas, InvRecursos, Mover, Unidades, Veces;
    var s := k.(cpuLibre := k.cpuLibre - 1, enReady := k.enReady - 1);
    MismasUnidades(k, s, x);
    if Siguiente(k).Some? {
      var p := Siguiente(k).value;
      InvDeColas(k);
      SiguienteEs(k);
      var b := if k.algoritmo == VRR then k.pcbs[p].(quantum := QuantumDado(k, p), tiempoInicial := ahora) else k.pcbs[p];
      PcbUnidades(s, p, b, x);
      MoverUnidades(ConPcb(s, p, b), p, EXEC, x);
    }
  }

  lemma MoverVivoUnidades(k: Kernel, s: Kernel, p: nat, e: Estado, x: string)
    requires Creado(k, p) && p in k.pcbs && k.estados[p - 1] != EXITT && e != EXITT && x in k.recursos
    requires s.colas == Mover(k, p, e).colas && s.pcbs == Mover(k, p, e).pcbs && s.estados == Mover(k, p, e).estados
    requires s.recursos == k.recursos
    ensures Unidades(s, x) == Unidades(k, x)
  {
    hide Mover, Unidades;
    MoverUnidades(k, p, e, x);
    MismasUnidades(Mover(k, p, e), s, x);
  }

  lemma AdmitirUnidades(k: Kernel, x: string)
    requires Inv(k) && Posible(k, Admite) && x in k.recursos
    ensures x in Admitir(k).recursos && Unidades(Admitir(k), x) == Unidades(k, x)
  {
    var s := k.(admision := false);
    if k.colas.nuevos != [] {
      var p := k.colas.nuevos[0];
      assert p in Cola(k.colas, NEW) && EnCola(k, NEW, p);
      hide Inv, Mover, Unidades;
      MismasUnidades(k, s, x);
      MoverEs(s, p, READY);
      MoverVivoUnidades(s, Admitir(k), p, READY, x);
    } else {
      MismasUnidades(k, Admitir(k), x);
    }
  }

  lemma BloquearIOUnidades(k: Kernel, p: nat, ahora: int, x: string)
    requires Inv(k) && EnCpu(k, p) && x in k.recursos
    ensures x in BloquearIO(k, p, ahora).recursos && Unidades(BloquearIO(k, p, ahora), x) == Unidades(k, x)
  {
    hide Inv, Mover, Unidades;
    EnCpuEs(k, p);
    var b := k.pcbs[p];
    var c := if k.algoritmo == VRR then b.(quantum := b.quantum - (ahora - b.tiempoInicial)) else b;
    PcbUnidades(k, p, c, x);
    MoverEs(ConPcb(k, p, c), p, BLOCKED);
    MoverVivoUnidades(ConPcb(k, p, c), BloquearIO(k, p, ahora), p, BLOCKED, x);
  }

  /** Units are conserved: an event changes the units of a resource, free plus held by live processes, only
      when a process signals what it does not hold, or dies waiting for what it holds in the way that loses one. */
  lemma PasoUnidades(k: Kernel, s: Suceso, x: string)
    requires Inv(k) && Posible(k, s) && x in k.recursos
    ensures x in Paso(k, s).recursos
    ensures Unidades(Paso(k, s), x) == Unidades(k, x) + (if Regala(k, s, x) then 1 else 0) - (if Pierde(k, s, x) then 1 else 0)
  {
    hide Inv, InvColas, InvRecursos, Wait, Signal, Terminar, Eliminar, Mover, Unidades, PierdeUnidad, Despachar, Admitir, BloquearIO;
    match s
    case Crea => CrearUnidades(k, x);
    case Comprueba(m) => MismasUnidades(k, Comprobar(k, m), x);
    case Admite => AdmitirUnidades(k, x);
    case CambiaGrado(g) => MismasUnidades(k, k.(grado := g), x);
    case Despacha(ahora) => DespacharUnidades(k, ahora, x);
    case FinDeQuantum => EnCpuEs(k, EnEjecucion(k)); MoverEs(k, EnEjecucion(k), READY); MoverVivoUnidades(k, Paso(k, s), EnEjecucion(k), READY, x);
    case Termina => TerminarUnidades(k, EnEjecucion(k), x);
    case SinInterfaz => ExpulsarUnidades(k, EnEjecucion(k), x);
    case PideWait(r) =>
      if r in k.recursos { WaitUnidades(k, EnEjecucion(k), r, x); } else { ExpulsarUnidades(k, EnEjecucion(k), x); }
    case PideSignal(r) =>
      if r in k.recursos { SignalUnidades(k, EnEjecucion(k), r, x); } else { ExpulsarUnidades(k, EnEjecucion(k), x); }
    case PideIO(ahora) => BloquearIOUnidades(k, EnEjecucion(k), ahora, x);
    case FinIO(p) =>
      InvDeColas(k);
      BloqueadoFigura(k, p);
      MoverEs(k, p, Destino(k, k.pcbs[p]));
      MoverVivoUnidades(k, Desbloquear(k, p), p, Destino(k, k.pcbs[p]), x);
    case ErrorIO(p) =>
      InvDeColas(k);
      BloqueadoFigura(k, p);
      EliminarUnidades(k, p, x);
      SinEsperaNoPierde(k, p, x);
    case Mata(p) => if Matable(k, p) { EliminarUnidades(k, p, x); }
    case EsperaNew => MismasUnidades(k, Paso(k, s), x);
  }

  lemma SinEsperaNoPierde(k: Kernel, p: nat, x: string)
    requires p in k.pcbs && k.pcbs[p].esperando == None
    ensures !PierdeUnidad(k, p, x)
  {
  }
}
