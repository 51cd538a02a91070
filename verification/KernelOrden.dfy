/** Arrival order: in the ready lists and in the queue of a resource nobody overtakes. */
module KernelOrden {
  import opened Comunes
  import opened KernelEstado
  import opened KernelRecursos
  import opened KernelPasos
  import opened KernelSucesos
  import opened KernelSemaforos
  import opened KernelPrioridad
  import opened KernelCorridas
  import opened Orden

  // ---------------------------------------------------------------- the ready lists

  /** The lists of new and of ready processes only get longer. */
  ghost predicate Extiende(k: Kernel, s: Kernel) {
    k.colas.nuevos <= s.colas.nuevos && k.colas.ready <= s.colas.ready && k.colas.auxiliar <= s.colas.auxiliar
  }

  lemma MoverExtiende(k: Kernel, p: nat, e: Estado)
    requires Creado(k, p) && p in k.pcbs && k.estados[p - 1] !in {NEW, READY, READY_AUX}
    ensures Extiende(k, Mover(k, p, e))
  {
    hide Quitar;
  }

  lemma IncrementarExtiende(k: Kernel, enMano: set<nat>, r: string)
    requires InvColas(k, enMano)
    ensures Extiende(k, Incrementar(k, r))
  {
    hide InvColas, Incrementar, Mover;
    var rec, w := IncrementarCasos(k, enMano, r);
    if r in k.recursos && w.Some? {
      var p := w.value;
      var k2 := Otorgar(ConRecurso(k, r, rec), p, r);
      assert Creado(k2, p) && k2.estados[p - 1] == BLOCKED;
      MoverExtiende(k2, p, Destino(k2, k2.pcbs[p]));
    }
  }

  lemma {:induction false} DevolverExtiende(k: Kernel, enMano: set<nat>, tomados: seq<string>, n: nat)
    requires InvColas(k, enMano) && n <= |tomados|
    ensures Extiende(k, Devolver(k, tomados, n))
  {
    hide InvColas, Incrementar;
    if n > 0 {
      DevolverExtiende(k, enMano, tomados, n - 1);
      DevolverColas(k, enMano, tomados, n - 1);
      IncrementarExtiende(Devolver(k, tomados, n - 1), enMano, tomados[n - 1]);
    }
  }

  /** Ending a process takes it out of its list; those it wakes up go behind the others. */
  lemma EliminarExtiende(k: Kernel, p: nat)
    requires InvColas(k, {}) && Creado(k, p) && p in k.pcbs && k.estados[p - 1] != EXITT
    ensures var e := k.estados[p - 1];
            && (if e == NEW then Quitar(k.colas.nuevos, p) else k.colas.nuevos) <= Eliminar(k, p).colas.nuevos
            && (if e == READY then Quitar(k.colas.ready, p) else k.colas.ready) <= Eliminar(k, p).colas.ready
            && (if e == READY_AUX then Quitar(k.colas.auxiliar, p) else k.colas.auxiliar) <= Eliminar(k, p).colas.auxiliar
  {
    hide InvColas, Devolver, Quitar;
    DevueltoColas(k, p);
    SacadoColas(k, p);
    var k0, k1 := Sacar(k, p), Devuelto(k, p);
    DevolverExtiende(k0, {p}, k.pcbs[p].tomados, |k.pcbs[p].tomados|);
    EnterrarListas(k, p);
  }

  lemma EnterrarListas(k: Kernel, p: nat)
    requires Creado(k, p) && p in k.pcbs && Creado(Devuelto(k, p), p) && p in Devuelto(k, p).pcbs
    ensures Eliminar(k, p).colas.nuevos == Devuelto(k, p).colas.nuevos
    ensures Eliminar(k, p).colas.ready == Devuelto(k, p).colas.ready
    ensures Eliminar(k, p).colas.auxiliar == Devuelto(k, p).colas.auxiliar
  {
    hide Sacar, Devolver;
    SacarPcbs(k, p);
    var l := Liberar(Sacar(k, p), p);
    assert l.colas == Devuelto(k, p).colas && l.estados == Devuelto(k, p).estados;
  }

  function Muere(s: Suceso): Option<nat> {
    if s.Mata? then Some(s.pid) else None
  }

  /** Only an admission takes from the front of the new list and only a dispatch from the front of a ready one; only a kill
      takes from elsewhere, and everybody joins at the end. */
  ghost predicate Turnos(k: Kernel, s: Suceso, r: Kernel) {
    && (if s.Admite? && k.colas.nuevos != [] then r.colas.nuevos == k.colas.nuevos[1..]
        else SinEl(k.colas.nuevos, Muere(s)) <= r.colas.nuevos)
    && (if s.Despacha? && k.colas.ready != [] && (k.algoritmo == VRR ==> k.colas.auxiliar == []) then r.colas.ready == k.colas.ready[1..]
        else SinEl(k.colas.ready, Muere(s)) <= r.colas.ready)
    && (if s.Despacha? && k.colas.auxiliar != [] && k.algoritmo == VRR then r.colas.auxiliar == k.colas.auxiliar[1..]
        else SinEl(k.colas.auxiliar, Muere(s)) <= r.colas.auxiliar)
  }

  lemma PasoTurnos(k: Kernel, s: Suceso)
    requires InvColas(k, {}) && Posible(k, s)
    ensures Turnos(k, s, Paso(k, s))
  {
    hide InvColas, Wait, Signal, Terminar, Eliminar, Mover, Despachar, Quitar;
    match s
    case Crea =>
    case Comprueba(_) =>
    case Admite => AdmitirTurnos(k);
    case CambiaGrado(_) =>
    case Despacha(ahora) => DespacharTurnos(k, ahora);
    case FinDeQuantum => EnCpuFigura(k, EnEjecucion(k)); MoverExtiende(k, EnEjecucion(k), READY);
    case Termina => TerminarTurnos(k);
    case SinInterfaz => ExpulsarTurnos(k);
    case PideWait(r) => if r in k.recursos { WaitTurnos(k, r); } else { ExpulsarTurnos(k); }
    case PideSignal(r) => if r in k.recursos { SignalTurnos(k, r); } else { ExpulsarTurnos(k); }
    case PideIO(ahora) => BloquearIOTurnos(k, ahora);
    case FinIO(p) =>
      BloqueadoFigura(k, p);
      MoverExtiende(k, p, Destino(k, k.pcbs[p]));
    case ErrorIO(p) =>
      BloqueadoFigura(k, p);
      EliminarExtiende(k, p);
    case Mata(p) => MatarTurnos(k, p);
    case EsperaNew =>
  }

  lemma AdmitirTurnos(k: Kernel)
    requires InvColas(k, {}) && Posible(k, Admite)
    ensures Turnos(k, Admite, Admitir(k))
  {
    if k.colas.nuevos != [] {
      var p := k.colas.nuevos[0];
      assert p in Cola(k.colas, NEW) && EnCola(k, NEW, p);
      assert Figura(k, NEW, p);
      hide InvColas, Quitar;
      PrimeroSale(k.colas.nuevos);
    }
  }

  lemma DespacharTurnos(k: Kernel, ahora: int)
    requires InvColas(k, {}) && Posible(k, Despacha(ahora))
    ensures Turnos(k, Despacha(ahora), Despachar(k, ahora))
  {
    hide InvColas;
    if Siguiente(k).Some? {
      SiguienteEs(k);
      PrimeroSale(if k.estados[Siguiente(k).value - 1] == READY then k.colas.ready else k.colas.auxiliar);
    }
  }

  lemma PrimeroSale(s: seq<nat>)
    ensures s != [] ==> Quitar(s, s[0]) == s[1..]
  {
  }

  lemma TerminarTurnos(k: Kernel)
    requires InvColas(k, {}) && Posible(k, Termina)
    ensures Extiende(k, Terminar(k, EnEjecucion(k)))
  {
    hide InvColas, Mover, Devolver, Liberar;
    var p := EnEjecucion(k);
    EnCpuFigura(k, p);
    LiberarColas(k, p);
    DevolverExtiende(k, {}, k.pcbs[p].tomados, |k.pcbs[p].tomados|);
    MoverExtiende(Liberar(k, p), p, EXITT);
  }

  lemma ExpulsarTurnos(k: Kernel)
    requires InvColas(k, {}) && k.colas.exec != [] && EnCpu(k, EnEjecucion(k))
    ensures Extiende(k, SoltarCpu(Eliminar(k, EnEjecucion(k))))
  {
    hide InvColas, Eliminar, Quitar;
    EnCpuFigura(k, EnEjecucion(k));
    EliminarExtiende(k, EnEjecucion(k));
  }

  lemma WaitTurnos(k: Kernel, r: string)
    requires InvColas(k, {}) && Posible(k, PideWait(r)) && r in k.recursos
    ensures Extiende(k, Wait(k, EnEjecucion(k), r))
  {
    hide InvColas, Mover;
    var p := EnEjecucion(k);
    EnCpuFigura(k, p);
    var rec := k.recursos[r];
    if rec.instancias - 1 < 0 {
      var k1 := ConRecurso(k, r, Recurso(rec.instancias - 1, rec.bloqueados + [p]));
      MoverExtiende(k1, p, BLOCKED);
      MoverEs(k1, p, BLOCKED);
    }
  }

  lemma SignalTurnos(k: Kernel, r: string)
    requires InvColas(k, {}) && Posible(k, PideSignal(r))
    ensures Extiende(k, Signal(k, EnEjecucion(k), r))
  {
    hide InvColas, Incrementar, Quitar;
    IncrementarExtiende(k, {}, r);
  }

  lemma BloquearIOTurnos(k: Kernel, ahora: int)
    requires InvColas(k, {}) && Posible(k, PideIO(ahora))
    ensures Extiende(k, BloquearIO(k, EnEjecucion(k), ahora))
  {
    hide InvColas, Mover;
    var p := EnEjecucion(k);
    EnCpuFigura(k, p);
    var b := k.pcbs[p];
    var c := if k.algoritmo == VRR then b.(quantum := b.quantum - (ahora - b.tiempoInicial)) else b;
    MoverExtiende(ConPcb(k, p, c), p, BLOCKED);
  }

  lemma MatarTurnos(k: Kernel, p: nat)
    requires InvColas(k, {})
    ensures Turnos(k, Mata(p), Matar(k, p))
  {
    hide InvColas, Eliminar;
    NoEsta(k, p);
    if Matable(k, p) {
      EliminarExtiende(k, p);
    }
  }

  /** A process that is neither new nor ready is in none of these lists. */
  lemma NoEsta(k: Kernel, p: nat)
    requires InvColas(k, {})
    ensures !Figura(k, NEW, p) ==> Quitar(k.colas.nuevos, p) == k.colas.nuevos
    ensures !Figura(k, READY, p) ==> Quitar(k.colas.ready, p) == k.colas.ready
    ensures !Figura(k, READY_AUX, p) ==> Quitar(k.colas.auxiliar, p) == k.colas.auxiliar
    ensures Figura(k, NEW, p) || Figura(k, READY, p) || Figura(k, READY_AUX, p) ==> Matable(k, p)
  {
    assert EnCola(k, NEW, p) <==> Figura(k, NEW, p);
    assert EnCola(k, READY, p) <==> Figura(k, READY, p);
    assert EnCola(k, READY_AUX, p) <==> Figura(k, READY_AUX, p);
  }

  // ---------------------------------------------------------------- runs of the ready lists

  /** A killed process is in its last list and no other. */
  lemma MuertoNoEsta(k: Kernel, p: nat, e: Estado)
    requires InvColas(k, {}) && Matable(k, p) && e != EXITT
    ensures !EnCola(Matar(k, p), e, p)
  {
    hide Eliminar;
    EliminarColas(k, p);
    var s := Matar(k, p);
    assert EnCola(s, e, p) <==> Figura(s, e, p);
  }

  lemma ListaSinRepetidos(k: Kernel, e: Estado)
    requires InvColas(k, {})
    ensures SinRepetidos(Cola(k.colas, e))
  {
  }

  predicate DeEspera(e: Estado) {
    e in {NEW, READY, READY_AUX}
  }

  /** In one event each of these lists advances as a queue. */
  lemma ListaAvanza(k: Kernel, s: Suceso, e: Estado)
    requires InvColas(k, {}) && Posible(k, s) && DeEspera(e)
    ensures Avanza(Cola(k.colas, e), Cola(Paso(k, s).colas, e), Muere(s))
  {
    hide InvColas, Paso, Posible, Avanza, SinRepetidos, Matable, SinEl;
    var r := Paso(k, s);
    PasoTurnos(k, s);
    PasoColas(k, s);
    ListaSinRepetidos(k, e);
    ListaSinRepetidos(r, e);
    var q, t := Cola(k.colas, e), Cola(r.colas, e);
    NoQueda(k, s, e);
    if SinEl(q, Muere(s)) <= t {
      AvanzaPorExtension(q, t, Muere(s));
    } else {
      AvanzaPorDespacho(q);
    }
  }

  lemma Registrado(k: Kernel, p: nat)
    requires InvColas(k, {})
    ensures p in k.pcbs <==> Creado(k, p)
  {
  }

  lemma NoQueda(k: Kernel, s: Suceso, e: Estado)
    requires InvColas(k, {}) && Posible(k, s) && DeEspera(e)
    ensures Muere(s).Some? && Muere(s).value in Cola(k.colas, e) ==> Muere(s).value !in Cola(Paso(k, s).colas, e)
  {
    if s.Mata? {
      var p := s.pid;
      assert EnCola(k, e, p) <==> Figura(k, e, p);
      hide InvColas, Eliminar;
      if Matable(k, p) {
        MuertoNoEsta(k, p, e);
      } else {
        Registrado(k, p);
      }
    }
  }

  /** First come, first served: while a process stays in a list of new or ready processes, those that arrived after it
      stay there too, behind it, unless one of them is killed. */
  lemma {:induction false} ListaEnOrden(ks: seq<Kernel>, ss: seq<Suceso>, e: Estado, i: nat, j: nat, p: nat, q: nat)
    requires Corrida(ks, ss) && Ordenado(ks[0]) && i <= j <= |ss| && DeEspera(e)
    requires Antes(Cola(ks[i].colas, e), p, q)
    requires forall n :: i <= n <= j ==> EnCola(ks[n], e, p)
    requires forall n :: i <= n < j ==> ss[n] != Mata(p) && ss[n] != Mata(q)
    ensures Antes(Cola(ks[j].colas, e), p, q)
    decreases j - i
  {
    hide Ordenado, Paso, Posible, Cuentas, Cobro, Antes, Avanza, SinRepetidos, Cola;
    if i < j {
      ListaEnOrden(ks, ss, e, i, j - 1, p, q);
      UnPaso(ks, ss, j - 1);
      OrdenadoLista(ks[j - 1], ss[j - 1], e);
      OrdenSigue(Cola(ks[j - 1].colas, e), Cola(ks[j].colas, e), Muere(ss[j - 1]), p, q);
    }
  }

  lemma OrdenadoLista(k: Kernel, s: Suceso, e: Estado)
    requires Ordenado(k) && Posible(k, s) && DeEspera(e)
    ensures SinRepetidos(Cola(k.colas, e)) && Avanza(Cola(k.colas, e), Cola(Paso(k, s).colas, e), Muere(s))
  {
    hide InvColas, InvPrioridad, Paso, Posible, Avanza, SinRepetidos, Cola;
    ListaAvanza(k, s, e);
    ListaSinRepetidos(k, e);
  }

  // ---------------------------------------------------------------- the queue of a resource

  lemma ServidosAvanzan(rec: Recurso, c: nat, x: Option<nat>)
    requires x.Some? ==> x.value !in rec.bloqueados
    ensures Avanza(rec.bloqueados, Servidos(rec, c).bloqueados, x)
  {
    var n := KernelRecursos.Menor(c, |rec.bloqueados|);
    var u := rec.bloqueados[n..];
    assert SinEl(u, x) == u && u + [] == u;
    UnAvance(rec.bloqueados, u, x, n, []);
  }

  /** In one event the queue of a resource advances as a queue. */
  lemma EsperaAvanza(k: Kernel, s: Suceso, r: string)
    requires Inv(k) && Posible(k, s) && r in k.recursos
    ensures r in Paso(k, s).recursos
    ensures Avanza(k.recursos[r].bloqueados, Paso(k, s).recursos[r].bloqueados, Muere(s))
  {
    hide Inv, InvColas, InvRecursos, Avanza, Mover, Incrementar, Quitar, Eliminar, Terminar, Wait, Signal;
    var q := k.recursos[r].bloqueados;
    match s
    case Crea => MismaColaAvanza(q, None);
    case Comprueba(_) => MismaColaAvanza(q, None);
    case Admite => MismaColaAvanza(q, None); SinRecursos(k, s);
    case CambiaGrado(_) => MismaColaAvanza(q, None);
    case Despacha(_) => MismaColaAvanza(q, None); SinRecursos(k, s);
    case FinDeQuantum => MismaColaAvanza(q, None); SinRecursos(k, s);
    case Termina => TerminaAvanza(k, r);
    case SinInterfaz => ExpulsaAvanza(k, r);
    case PideWait(x) => if x in k.recursos { WaitAvanza(k, x, r); } else { ExpulsaAvanza(k, r); }
    case PideSignal(x) => if x in k.recursos { SignalAvanza(k, x, r); } else { ExpulsaAvanza(k, r); }
    case PideIO(_) => MismaColaAvanza(q, None); SinRecursos(k, s);
    case FinIO(_) => MismaColaAvanza(q, None); SinRecursos(k, s);
    case ErrorIO(p) =>
      InvDeColas(k);
      BloqueadoFigura(k, p);
      EliminaSinEsperaAvanza(k, p, r, None);
    case Mata(p) => MataAvanza(k, p, r);
    case EsperaNew => MismaColaAvanza(q, None);
  }

  /** Events that only move a process do not touch the resources. */
  lemma SinRecursos(k: Kernel, s: Suceso)
    requires Posible(k, s) && (s.Admite? || s.Despacha? || s.FinDeQuantum? || s.PideIO? || s.FinIO?)
    ensures Paso(k, s).recursos == k.recursos
  {
    hide Quitar;
  }

  lemma TerminaAvanza(k: Kernel, r: string)
    requires Inv(k) && Posible(k, Termina) && r in k.recursos
    ensures r in Terminar(k, EnEjecucion(k)).recursos
    ensures Avanza(k.recursos[r].bloqueados, Terminar(k, EnEjecucion(k)).recursos[r].bloqueados, None)
  {
    hide Inv, InvColas, InvRecursos, Mover, Devolver, Avanza, Servidos;
    var p := EnEjecucion(k);
    EnCpuEs(k, p);
    InvDeColas(k);
    var t := k.pcbs[p].tomados;
    DevolverEs(k, {}, t, |t|);
    DevolverAjeno(k, {}, t, |t|, p);
    ServidosAvanzan(k.recursos[r], Veces(t[..|t|], r), None);
    var s := Devolver(k, t, |t|);
    assert s == Liberar(k, p);
    MoverEs(s, p, EXITT);
  }

  /** Ending a process that waits for nothing only serves waiters. */
  lemma EliminaSinEsperaAvanza(k: Kernel, p: nat, r: string, x: Option<nat>)
    requires Inv(k) && Creado(k, p) && p in k.pcbs && k.estados[p - 1] != EXITT && r in k.recursos
    requires k.pcbs[p].esperando == None && (x == None || x == Some(p))
    ensures r in Eliminar(k, p).recursos
    ensures Avanza(k.recursos[r].bloqueados, Eliminar(k, p).recursos[r].bloqueados, x)
  {
    EsperaSi(k, p, r);
    hide Inv, InvColas, InvRecursos, Avanza, Servidos, Devuelto, Poner;
    DevueltoEs(k, p);
    EnterrarSinEspera(k, p);
    ServidosAvanzan(k.recursos[r], Veces(k.pcbs[p].tomados, r), x);
    RecursosAlPoner(Devuelto(k, p), p);
  }

  lemma RecursosAlPoner(k: Kernel, p: nat)
    requires Creado(k, p) && p in k.pcbs
    ensures Poner(k, p, EXITT).recursos == k.recursos
  {
  }

  lemma ExpulsaAvanza(k: Kernel, r: string)
    requires Inv(k) && k.colas.exec != [] && EnCpu(k, EnEjecucion(k)) && r in k.recursos
    ensures r in SoltarCpu(Eliminar(k, EnEjecucion(k))).recursos
    ensures Avanza(k.recursos[r].bloqueados, SoltarCpu(Eliminar(k, EnEjecucion(k))).recursos[r].bloqueados, None)
  {
    hide Inv, Eliminar, Avanza;
    EnCpuEs(k, EnEjecucion(k));
    EliminaSinEsperaAvanza(k, EnEjecucion(k), r, None);
  }

  lemma WaitAvanza(k: Kernel, x: string, r: string)
    requires Inv(k) && Posible(k, PideWait(x)) && x in k.recursos && r in k.recursos
    ensures r in Wait(k, EnEjecucion(k), x).recursos
    ensures Avanza(k.recursos[r].bloqueados, Wait(k, EnEjecucion(k), x).recursos[r].bloqueados, None)
  {
    hide InvColas, Mover, Avanza;
    var p := EnEjecucion(k);
    EnCpuEs(k, p);
    var rec, q := k.recursos[x], k.recursos[r].bloqueados;
    assert !EnEspera(k, p, r);
    if rec.instancias - 1 < 0 {
      var k1 := ConRecurso(k, x, Recurso(rec.instancias - 1, rec.bloqueados + [p]));
      MoverEs(k1, p, BLOCKED);
      if x == r {
        assert q[0..] == q;
        UnAvance(q, q + [p], None, 0, [p]);
      } else {
        MismaColaAvanza(q, None);
      }
    } else {
      MismaColaAvanza(q, None);
    }
  }

  lemma SignalAvanza(k: Kernel, x: string, r: string)
    requires Inv(k) && Posible(k, PideSignal(x)) && x in k.recursos && r in k.recursos
    ensures r in Signal(k, EnEjecucion(k), x).recursos
    ensures Avanza(k.recursos[r].bloqueados, Signal(k, EnEjecucion(k), x).recursos[r].bloqueados, None)
  {
    hide Inv, InvColas, InvRecursos, Incrementar, Quitar, Avanza, Recuento, Desbloquear, Otorgar;
    InvDeColas(k);
    IncrementarEs(k, {}, x);
    var q := k.recursos[r].bloqueados;
    if x == r && k.recursos[r].instancias < 0 {
      AvanzaPorDespacho(q);
    } else {
      MismaColaAvanza(q, None);
    }
  }

  lemma MataAvanza(k: Kernel, p: nat, r: string)
    requires Inv(k) && r in k.recursos
    ensures r in Matar(k, p).recursos
    ensures Avanza(k.recursos[r].bloqueados, Matar(k, p).recursos[r].bloqueados, Some(p))
  {
    hide Inv, Eliminar, Avanza;
    EstaEnPcbs(k, p);
    if Matable(k, p) {
      if k.pcbs[p].esperando == None {
        EliminaSinEsperaAvanza(k, p, r, Some(p));
      } else {
        EliminaEsperaAvanza(k, p, k.pcbs[p].esperando.value, r);
      }
    } else {
      NoEnCola(k, p, r);
      MismaColaAvanza(k.recursos[r].bloqueados, Some(p));
    }
  }

  lemma NoEnCola(k: Kernel, p: nat, r: string)
    requires Inv(k) && r in k.recursos && !Matable(k, p)
    ensures p !in k.recursos[r].bloqueados
  {
    assert EnEspera(k, p, r) ==> Espera(k, p, r) && Figura(k, BLOCKED, p);
  }

  /** The killed waiter leaves its own queue wherever it is; those in front that its resources served have gone. */
  lemma EliminaEsperaAvanza(k: Kernel, p: nat, x: string, r: string)
    requires Inv(k) && Matable(k, p) && k.pcbs[p].esperando == Some(x) && r in k.recursos
    ensures r in Eliminar(k, p).recursos
    ensures Avanza(k.recursos[r].bloqueados, Eliminar(k, p).recursos[r].bloqueados, Some(p))
  {
    hide Inv, InvColas, InvRecursos, Avanza, Sacar, Devuelto, Recuento, Quitar, Servidos, Eliminar;
    EsperaSi(k, p, r);
    DevueltoEs(k, p);
    EliminarRecursos(k, p, x, r);
    var c := Veces(k.pcbs[p].tomados, r);
    if r == x {
      ServidosYUnoMenos(k.recursos[r], c, p);
    } else {
      ServidosAvanzan(k.recursos[r], c, Some(p));
    }
  }

  lemma ServidosYUnoMenos(rec: Recurso, c: nat, p: nat)
    ensures Avanza(rec.bloqueados, Quitar(Servidos(rec, c).bloqueados, p), Some(p))
  {
    hide Quitar;
    var n := KernelRecursos.Menor(c, |rec.bloqueados|);
    var u := Quitar(rec.bloqueados[n..], p);
    assert u + [] == u;
    UnAvance(rec.bloqueados, u, Some(p), n, []);
  }

  lemma EliminarRecursos(k: Kernel, p: nat, x: string, r: string)
    requires Creado(k, p) && p in k.pcbs && k.pcbs[p].esperando == Some(x) && r in k.recursos
    requires Creado(Devuelto(k, p), p) && p in Devuelto(k, p).pcbs && Devuelto(k, p).recursos.Keys == k.recursos.Keys
    ensures r in Eliminar(k, p).recursos && r in Devuelto(k, p).recursos
    ensures var q := Devuelto(k, p).recursos[r].bloqueados;
            Eliminar(k, p).recursos[r].bloqueados == if r == x then Quitar(q, p) else q
  {
    hide Sacar, Devolver, Quitar;
    SacarPcbs(k, p);
  }

  /** Waiters are served in the order in which they came: while one waits, those behind it wait too and stay behind, unless killed. */
  lemma {:induction false} EsperaEnOrden(ks: seq<Kernel>, ss: seq<Suceso>, r: string, i: nat, j: nat, p: nat, q: nat)
    requires Corrida(ks, ss) && SinPerdidas(ks, ss) && Inv(ks[0]) && i <= j <= |ss|
    requires r in ks[i].recursos && Antes(ks[i].recursos[r].bloqueados, p, q)
    requires forall n :: i <= n <= j ==> EnEspera(ks[n], p, r)
    requires forall n :: i <= n < j ==> ss[n] != Mata(p) && ss[n] != Mata(q)
    ensures r in ks[j].recursos && Antes(ks[j].recursos[r].bloqueados, p, q)
    decreases j - i
  {
    hide Inv, SinPerdidas, Paso, Posible, Antes, Avanza, SinRepetidos;
    if i < j {
      EsperaEnOrden(ks, ss, r, i, j - 1, p, q);
      UnPasoSano(ks, ss, j - 1);
      EsperaSana(ks[j - 1], ss[j - 1], r);
      OrdenSigue(ks[j - 1].recursos[r].bloqueados, ks[j].recursos[r].bloqueados, Muere(ss[j - 1]), p, q);
    }
  }

  lemma EsperaSana(k: Kernel, s: Suceso, r: string)
    requires Inv(k) && Posible(k, s) && r in k.recursos
    ensures r in Paso(k, s).recursos && SinRepetidos(k.recursos[r].bloqueados)
    ensures Avanza(k.recursos[r].bloqueados, Paso(k, s).recursos[r].bloqueados, Muere(s))
  {
    assert Recuento(k.recursos[r]);
    hide Inv, Paso, Posible, Avanza, SinRepetidos;
    EsperaAvanza(k, s, r);
  }
}
