/** What each event does, in full: who goes where, what it takes along, and that nothing else changes. */
module KernelEfectos {
  import opened Comunes
  import opened KernelEstado
  import opened KernelRecursos
  import opened KernelPasos
  import opened KernelSucesos
  import opened KernelSemaforos

  // ---------------------------------------------------------------- one process moves

  /** `r` is `k` but for the lists, the states and the PCBs, and the tokens of both semaphores. */
  ghost predicate SoloMueve(k: Kernel, r: Kernel, cpu: int, listos: int) {
    r == k.(colas := r.colas, estados := r.estados, pcbs := r.pcbs, cpuLibre := k.cpuLibre + cpu, enReady := k.enReady + listos)
  }

  /** A move of the process at the head of a list. */
  lemma MoverPrimero(k: Kernel, de: Estado, e: Estado)
    requires InvColas(k, {}) && Cola(k.colas, de) != [] && de != e
    ensures var p := Cola(k.colas, de)[0];
            && Creado(k, p) && p in k.pcbs && k.estados[p - 1] == de && k.pcbs[p].estado == de
            && Mover(k, p, e) == k.(colas := ConCola(ConCola(k.colas, de, Cola(k.colas, de)[1..]), e, Cola(k.colas, e) + [p]),
                                    estados := k.estados[p - 1 := e], pcbs := k.pcbs[p := k.pcbs[p].(estado := e)])
  {
    var p := Cola(k.colas, de)[0];
    assert EnCola(k, de, p);
    assert Figura(k, de, p);
    hide InvColas;
    CabezaFuera(Cola(k.colas, de));
    hide Quitar;
    ColaCambiada(k.colas, de, Cola(k.colas, de)[1..], e);
  }

  lemma CabezaFuera(s: seq<nat>)
    requires s != []
    ensures Quitar(s, s[0]) == s[1..]
  {
  }

  /** The same with a change to the PCB on the way. */
  lemma MoverConPcb(k: Kernel, de: Estado, e: Estado, b: Pcb)
    requires InvColas(k, {}) && Cola(k.colas, de) != [] && de != e && Cola(k.colas, de)[0] in k.pcbs
    requires var v := k.pcbs[Cola(k.colas, de)[0]]; b.estado == v.estado && b.tomados == v.tomados && b.esperando == v.esperando
    ensures var p := Cola(k.colas, de)[0];
            && Creado(k, p) && Creado(ConPcb(k, p, b), p)
            && Mover(ConPcb(k, p, b), p, e) ==
               k.(colas := ConCola(ConCola(k.colas, de, Cola(k.colas, de)[1..]), e, Cola(k.colas, e) + [p]),
                  estados := k.estados[p - 1 := e], pcbs := k.pcbs[p := b.(estado := e)])
  {
    hide InvColas, Mover, ConCola, Cola;
    var p := Cola(k.colas, de)[0];
    PcbColas(k, {}, p, b);
    MoverPrimero(ConPcb(k, p, b), de, e);
  }

  /** A creation adds one process, in NEW and at the end of its list. */
  lemma CreaEfecto(k: Kernel)
    requires InvColas(k, {}) && Posible(k, Crea)
    ensures var p, r := |k.estados| + 1, Paso(k, Crea);
            && p !in k.pcbs && r.estados == k.estados + [NEW] && Creado(r, p)
            && r.pcbs == k.pcbs[p := Pcb(NEW, 0, 0, [], None)] && r.colas == k.colas.(nuevos := k.colas.nuevos + [p])
            && SoloMueve(k, r, 0, 0)
  {
    assert !Creado(k, |k.estados| + 1);
  }

  /** An admission moves the oldest new process to the end of READY with a token, and locks the list when there is none. */
  lemma AdmiteEfecto(k: Kernel)
    requires InvColas(k, {}) && Posible(k, Admite)
    ensures var r := Paso(k, Admite);
            if k.colas.nuevos == [] then r == k.(admision := false, newTrabada := true)
            else
              var p := k.colas.nuevos[0];
              && p in k.pcbs && Creado(k, p)
              && r.colas == k.colas.(nuevos := k.colas.nuevos[1..], ready := k.colas.ready + [p])
              && r.estados == k.estados[p - 1 := READY] && r.pcbs == k.pcbs[p := k.pcbs[p].(estado := READY)]
              && SoloMueve(k.(admision := false), r, 0, 1)
  {
    hide InvColas, Mover;
    if k.colas.nuevos != [] {
      MismasColas(k, k.(admision := false), {});
      MoverPrimero(k.(admision := false), NEW, READY);
    }
  }

  /** A dispatch moves the head of the priority list, under VRR, or else of READY to the CPU and takes both tokens; VRR notes
      the time, and gives a whole quantum to who comes from READY. With nobody it takes both tokens all the same. */
  lemma DespachaEfecto(k: Kernel, ahora: int)
    requires InvColas(k, {}) && Posible(k, Despacha(ahora))
    ensures var r := Paso(k, Despacha(ahora));
            var prioritario := k.algoritmo == VRR && k.colas.auxiliar != [];
            if !prioritario && k.colas.ready == [] then r == k.(cpuLibre := k.cpuLibre - 1, enReady := k.enReady - 1)
            else
              var p := if prioritario then k.colas.auxiliar[0] else k.colas.ready[0];
              && p in k.pcbs && Creado(k, p)
              && r.colas == (if prioritario then k.colas.(auxiliar := k.colas.auxiliar[1..], exec := k.colas.exec + [p])
                             else k.colas.(ready := k.colas.ready[1..], exec := k.colas.exec + [p]))
              && r.estados == k.estados[p - 1 := EXEC]
              && r.pcbs == k.pcbs[p := var b := k.pcbs[p].(estado := EXEC);
                                       if k.algoritmo != VRR then b
                                       else if prioritario then b.(tiempoInicial := ahora)
                                       else b.(tiempoInicial := ahora, quantum := k.quantum)]
              && SoloMueve(k, r, -1, -1)
  {
    hide Mover, InvColas;
    if Siguiente(k).Some? {
      var prioritario := k.algoritmo == VRR && k.colas.auxiliar != [];
      var p := Siguiente(k).value;
      if !prioritario {
        NoPrioritario(k, p);
      }
      var s := k.(cpuLibre := k.cpuLibre - 1, enReady := k.enReady - 1);
      var b := if k.algoritmo == VRR then k.pcbs[p].(quantum := QuantumDado(k, p), tiempoInicial := ahora) else k.pcbs[p];
      MismasColas(k, s, {});
      MoverConPcb(s, if prioritario then READY_AUX else READY, EXEC, b);
    }
  }

  lemma NoPrioritario(k: Kernel, p: nat)
    requires InvColas(k, {}) && p in k.colas.ready
    ensures p !in k.colas.auxiliar
  {
    assert EnCola(k, READY, p) && (EnCola(k, READY_AUX, p) <==> Figura(k, READY_AUX, p));
  }

  /** At the end of its quantum the running process goes to the end of READY with a token, and the CPU is free. */
  lemma FinDeQuantumEfecto(k: Kernel)
    requires InvColas(k, {}) && Posible(k, FinDeQuantum)
    ensures var p, r := k.colas.exec[0], Paso(k, FinDeQuantum);
            && p in k.pcbs && Creado(k, p)
            && r.colas == k.colas.(exec := k.colas.exec[1..], ready := k.colas.ready + [p])
            && r.estados == k.estados[p - 1 := READY] && r.pcbs == k.pcbs[p := k.pcbs[p].(estado := READY)]
            && SoloMueve(k, r, 1, 1)
  {
    hide InvColas, Mover;
    MoverPrimero(k, EXEC, READY);
  }

  /** A process that asks for I/O goes to the end of the blocked list, charged for its burst under VRR, and the CPU is free. */
  lemma PideIOEfecto(k: Kernel, ahora: int)
    requires InvColas(k, {}) && Posible(k, PideIO(ahora))
    ensures var p, r := k.colas.exec[0], Paso(k, PideIO(ahora));
            && p in k.pcbs && Creado(k, p)
            && r.colas == k.colas.(exec := k.colas.exec[1..], blocked := k.colas.blocked + [p])
            && r.estados == k.estados[p - 1 := BLOCKED]
            && r.pcbs == k.pcbs[p := var b := k.pcbs[p].(estado := BLOCKED);
                                     if k.algoritmo == VRR then b.(quantum := b.quantum - (ahora - b.tiempoInicial)) else b]
            && SoloMueve(k, r, 1, 0)
  {
    hide Mover, InvColas;
    var b := k.pcbs[k.colas.exec[0]];
    MoverConPcb(k, EXEC, BLOCKED, if k.algoritmo == VRR then b.(quantum := b.quantum - (ahora - b.tiempoInicial)) else b);
  }

  /** The end of an I/O operation takes its process out of the blocked list, wherever it is there, and puts it with a token at the end
      of the priority list, under VRR with part of its quantum left, or else of READY. */
  lemma FinIOEfecto(k: Kernel, p: nat)
    requires InvColas(k, {}) && Posible(k, FinIO(p))
    ensures p in k.pcbs && Creado(k, p)
    ensures var r, b := Paso(k, FinIO(p)), k.pcbs[p];
            var e := if k.algoritmo == VRR && 0 < b.quantum < k.quantum then READY_AUX else READY;
            && r.colas == (if e == READY then k.colas.(blocked := Quitar(k.colas.blocked, p), ready := k.colas.ready + [p])
                           else k.colas.(blocked := Quitar(k.colas.blocked, p), auxiliar := k.colas.auxiliar + [p]))
            && p !in r.colas.blocked && (forall q :: q in r.colas.blocked <==> q in k.colas.blocked && q != p)
            && r.estados == k.estados[p - 1 := e] && r.pcbs == k.pcbs[p := b.(estado := e)]
            && SoloMueve(k, r, 0, 1)
  {
    assert EnCola(k, BLOCKED, p) && Figura(k, BLOCKED, p);
    assert SinRepetidos(Cola(k.colas, BLOCKED));
    QuitarSinRepetidos(k.colas.blocked, p);
    hide InvColas, Quitar;
  }

  /** A WAIT that finds a unit takes it and goes on. With none, the process goes to the end of the blocked list and of the queue,
      its PCB names the resource, and the CPU is free. */
  lemma WaitEfecto(k: Kernel, x: string)
    requires InvColas(k, {}) && Posible(k, PideWait(x)) && x in k.recursos
    ensures var p, r, rec := k.colas.exec[0], Paso(k, PideWait(x)), k.recursos[x];
            var b := k.pcbs[p];
            if rec.instancias > 0 then
              r == k.(recursos := k.recursos[x := rec.(instancias := rec.instancias - 1)], pcbs := k.pcbs[p := b.(tomados := b.tomados + [x])])
            else
              && r.recursos == k.recursos[x := Recurso(rec.instancias - 1, rec.bloqueados + [p])]
              && r.colas == k.colas.(exec := k.colas.exec[1..], blocked := k.colas.blocked + [p])
              && r.estados == k.estados[p - 1 := BLOCKED]
              && r.pcbs == k.pcbs[p := b.(estado := BLOCKED, esperando := Some(x))]
              && SoloMueve(k.(recursos := r.recursos), r, 1, 0)
  {
    hide InvColas, Mover;
    var p, rec := k.colas.exec[0], k.recursos[x];
    if rec.instancias <= 0 {
      var k1 := ConRecurso(k, x, Recurso(rec.instancias - 1, rec.bloqueados + [p]));
      MismasColas(k, k1, {});
      MoverPrimero(k1, EXEC, BLOCKED);
    }
  }

  /** The check of the degree, a change of the degree and a thread that starts to wait touch no process and no resource. */
  lemma NadieSeMueve(k: Kernel, s: Suceso)
    requires Posible(k, s) && (s.Comprueba? || s.CambiaGrado? || s.EsperaNew?)
    ensures var r := Paso(k, s); r == k.(grado := r.grado, admision := r.admision, largoTomado := r.largoTomado)
  {
  }
}
