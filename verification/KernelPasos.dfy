/** The kernel's handlers as atomic steps: what each keeps of the lists, the resources and their units. */
module KernelPasos {
  import opened Comunes
  import opened KernelEstado
  import opened KernelRecursos

  // ---------------------------------------------------------------- operations

  /** The process the CPU is running. */
  predicate EnCpu(k: Kernel, p: nat) {
    k.colas.exec != [] && k.colas.exec[0] == p && Creado(k, p) && p in k.pcbs
  }

  function SoltarCpu(k: Kernel): Kernel {
    k.(cpuLibre := k.cpuLibre + 1)
  }

  /** WAIT on a resource that exists: a unit when there is one, else the process blocks at the end of the queue. */
  function Wait(k: Kernel, p: nat, r: string): Kernel
    requires EnCpu(k, p) && r in k.recursos
  {
    var rec := k.recursos[r];
    var n := rec.instancias - 1;
    if n < 0 then
      var k1 := Mover(ConRecurso(k, r, Recurso(n, rec.bloqueados + [p])), p, BLOCKED);
      SoltarCpu(ConPcb(k1, p, k1.pcbs[p].(esperando := Some(r))))
    else
      ConPcb(ConRecurso(k, r, Recurso(n, rec.bloqueados)), p, k.pcbs[p].(tomados := k.pcbs[p].tomados + [r]))
  }

  /** SIGNAL on a resource that exists: one unit more, and the process holds one less if it held any. */
  function Signal(k: Kernel, p: nat, r: string): Kernel
    requires EnCpu(k, p)
  {
    var s := Incrementar(k, r);
    if p in s.pcbs then ConPcb(s, p, s.pcbs[p].(tomados := Quitar(s.pcbs[p].tomados, r))) else s
  }

  /** `eliminar_proceso` on a process that is no longer in its list. */
  function Enterrar(k: Kernel, p: nat): Kernel
    requires p in k.pcbs
  {
    var s := Liberar(k, p);
    if Creado(s, p) && p in s.pcbs then Poner(s, p, EXITT) else s
  }

  /** The process is taken out of its list, gives back what it holds and ends: from the console, after an
      I/O error, or when it asks for a resource or an interface that does not exist. */
  function Eliminar(k: Kernel, p: nat): Kernel
    requires Creado(k, p) && p in k.pcbs
  {
    Enterrar(Sacar(k, p), p)
  }

  /** EXIT and out of memory: the process gives back what it holds, then leaves the CPU. */
  function Terminar(k: Kernel, p: nat): Kernel
    requires EnCpu(k, p)
  {
    var s := Liberar(k, p);
    if Creado(s, p) && p in s.pcbs then SoltarCpu(Mover(s, p, EXITT)) else s
  }

  // ---------------------------------------------------------------- ending a process

  /** The process waits for a resource it also holds: more units than waiters before it, fewer than waiters. */
  predicate PierdeUnidad(k: Kernel, p: nat, r: string)
    requires p in k.pcbs
  {
    Espera(k, p, r) && EnEspera(k, p, r) &&
    Indice(k.recursos[r].bloqueados, p) < Veces(k.pcbs[p].tomados, r) < |k.recursos[r].bloqueados|
  }

  lemma SacarRecursos(k: Kernel, p: nat)
    requires InvRecursos(k, {}) && Creado(k, p)
    ensures InvRecursos(Sacar(k, p), {p})
  {
    hide Recuento;
    var s := Sacar(k, p);
    assert forall q: nat, x: string :: (EnEspera(s, q, x) <==> EnEspera(k, q, x)) && (Espera(s, q, x) <==> Espera(k, q, x));
    assert forall q: nat :: Figura(s, BLOCKED, q) <==> Figura(k, BLOCKED, q);
  }

  lemma PonerSalida(k: Kernel, p: nat)
    requires InvColas(k, {p}) && InvRecursos(k, {p}) && Creado(k, p) && p in k.pcbs
    requires k.pcbs[p].esperando == None
    ensures Inv(Poner(k, p, EXITT))
  {
    PonerColas(k, {p}, p, EXITT);
    assert {p} - {p} == {};
    hide InvColas, Recuento;
    var s := Poner(k, p, EXITT);
    forall q: nat, x: string
      ensures EnEspera(s, q, x) <==> EnEspera(k, q, x)
      ensures Espera(s, q, x) <==> Espera(k, q, x)
      ensures q != p ==> (Figura(s, BLOCKED, q) <==> Figura(k, BLOCKED, q))
      ensures EnEspera(s, q, x) ==> q != p
    {
    }
  }

  /** The waiter leaves the queue, once; whether the queue is then as long as the units owed depends on how many
      were served before. */
  lemma RecuentoAlDejar(rec: Recurso, p: nat, c: nat)
    requires Recuento(rec) && p in rec.bloqueados
    ensures var s := Servidos(rec, c);
            Recuento(Recurso(s.instancias + 1, Quitar(s.bloqueados, p))) <==> !(Indice(rec.bloqueados, p) < c < |rec.bloqueados|)
    ensures p in Servidos(rec, c).bloqueados <==> c <= Indice(rec.bloqueados, p)
  {
    var q, j := rec.bloqueados, Indice(rec.bloqueados, p);
    var s := Servidos(rec, c);
    var desde := KernelRecursos.Menor(c, |q|);
    assert s.bloqueados == q[desde..];
    if c <= j {
      assert q[desde..][j - c] == p;
    } else {
      assert forall i :: desde <= i < |q| ==> q[i] != p;
      assert p !in s.bloqueados;
    }
    QuitarSinRepetidos(s.bloqueados, p);
  }

  lemma DejarDeEsperarEs(k: Kernel, p: nat, r: string)
    requires InvColas(k, {p}) && InvRecursos(k, {p}) && Espera(k, p, r) && r in k.recursos && Creado(k, p)
    ensures var s := DejarDeEsperar(k, r, p);
            var f := ConPcb(s, p, s.pcbs[p].(esperando := None));
            InvColas(f, {p}) && (InvRecursos(f, {p}) <==> Recuento(f.recursos[r])) && f.pcbs[p].esperando == None
  {
    var s := DejarDeEsperar(k, r, p);
    var b := s.pcbs[p].(esperando := None);
    MismasColas(k, s, {p});
    PcbColas(s, {p}, p, b);
    var f := ConPcb(s, p, b);
    assert Recuento(k.recursos[r]);
    QuitarSinRepetidos(k.recursos[r].bloqueados, p);
    hide InvColas, Recuento, Quitar;
    forall q: nat, x: string
      ensures EnEspera(f, q, x) <==> EnEspera(k, q, x) && !(q == p && x == r)
      ensures Espera(f, q, x) <==> Espera(k, q, x) && q != p
      ensures Figura(f, BLOCKED, q) <==> Figura(k, BLOCKED, q)
    {
    }
    forall x: string | x in f.recursos && x != r ensures Recuento(f.recursos[x]) {
      assert Recuento(k.recursos[x]);
    }
  }

  /** The end of a waiter, once what it held has been given back. */
  lemma EliminarEspera(k: Kernel, p: nat, r: string)
    requires Creado(k, p) && p in k.pcbs && Espera(k, p, r) && EnEspera(k, p, r) && Recuento(k.recursos[r])
    requires var s := Devuelto(k, p);
             && InvColas(s, {p}) && InvRecursos(s, {p}) && Creado(s, p) && p in s.pcbs && s.pcbs[p] == k.pcbs[p]
             && r in s.recursos && s.recursos[r] == Servidos(k.recursos[r], Veces(k.pcbs[p].tomados, r))
    ensures Inv(Eliminar(k, p)) <==> !PierdeUnidad(k, p, r)
  {
    hide InvColas, InvRecursos, Recuento, Sacar, Devolver, Veces, Servidos, Quitar, Indice;
    var k1 := Devuelto(k, p);
    DejarDeEsperarEs(k1, p, r);
    var s := DejarDeEsperar(k1, r, p);
    var f := ConPcb(s, p, s.pcbs[p].(esperando := None));
    assert f == Liberar(Sacar(k, p), p) by { SacarPcbs(k, p); }
    RecuentoAlDejar(k.recursos[r], p, Veces(k.pcbs[p].tomados, r));
    if Recuento(f.recursos[r]) {
      PonerSalida(f, p);
    } else {
      SinRecuento(Poner(f, p, EXITT), r);
    }
  }

  lemma SacarPcbs(k: Kernel, p: nat)
    requires Creado(k, p)
    ensures Sacar(k, p).pcbs == k.pcbs && Sacar(k, p).recursos == k.recursos && Sacar(k, p).estados == k.estados
  {
  }

  lemma SinRecuento(k: Kernel, r: string)
    requires r in k.recursos && !Recuento(k.recursos[r])
    ensures !Inv(k)
  {
  }

  lemma EnSuCola(k: Kernel, p: nat, r: string)
    requires Inv(k) && p in k.pcbs && Espera(k, p, r)
    ensures EnEspera(k, p, r) && Recuento(k.recursos[r])
  {
  }

  /** The process out of its list, with everything it held given back. */
  function Devuelto(k: Kernel, p: nat): Kernel
    requires Creado(k, p) && p in k.pcbs
  {
    Devolver(Sacar(k, p), k.pcbs[p].tomados, |k.pcbs[p].tomados|)
  }

  lemma EstaEnPcbs(k: Kernel, p: nat)
    requires Inv(k)
    ensures p in k.pcbs <==> Creado(k, p)
  {
  }

  lemma SacadoEs(k: Kernel, p: nat)
    requires Inv(k) && Creado(k, p)
    ensures var s := Sacar(k, p);
            && InvColas(s, {p}) && InvRecursos(s, {p}) && Creado(s, p)
            && s.pcbs == k.pcbs && s.recursos == k.recursos && s.estados == k.estados && p in s.pcbs
  {
    hide InvColas, InvRecursos, Sacar;
    EstaEnPcbs(k, p);
    SacarPcbs(k, p);
    SacarRecursos(k, p);
    SacarColas(k, {}, p);
    assert {} + {p} == {p};
  }

  lemma DevueltoEs(k: Kernel, p: nat)
    requires Inv(k) && Creado(k, p) && p in k.pcbs
    ensures var s := Devuelto(k, p);
            && InvColas(s, {p}) && InvRecursos(s, {p}) && s.recursos.Keys == k.recursos.Keys
            && Creado(s, p) && p in s.pcbs && s.pcbs[p] == k.pcbs[p] && s.estados[p - 1] == k.estados[p - 1]
            && forall r :: r in k.recursos ==> s.recursos[r] == Servidos(k.recursos[r], Veces(k.pcbs[p].tomados, r))
  {
    var k0, t := Sacar(k, p), k.pcbs[p].tomados;
    hide *;
    SacadoEs(k, p);
    DevueltoDef(k, p);
    assert t[..|t|] == t;
    DevolverEs(k0, {p}, t, |t|);
    DevolverAjeno(k0, {p}, t, |t|, p);
  }

  /** The same for the lists alone. */
  lemma DevueltoColas(k: Kernel, p: nat)
    requires InvColas(k, {}) && Creado(k, p) && p in k.pcbs
    ensures var s := Devuelto(k, p);
            InvColas(s, {p}) && Creado(s, p) && p in s.pcbs && s.pcbs[p] == k.pcbs[p] && s.estados[p - 1] == k.estados[p - 1]
  {
    hide InvColas, Sacar, Devolver;
    SacadoColas(k, p);
    DevueltoDef(k, p);
    DevolverColas(Sacar(k, p), {p}, k.pcbs[p].tomados, |k.pcbs[p].tomados|);
    DevolverAjeno(Sacar(k, p), {p}, k.pcbs[p].tomados, |k.pcbs[p].tomados|, p);
  }

  lemma SacadoColas(k: Kernel, p: nat)
    requires InvColas(k, {}) && Creado(k, p)
    ensures var s := Sacar(k, p);
            InvColas(s, {p}) && Creado(s, p) && s.pcbs == k.pcbs && s.recursos == k.recursos && s.estados == k.estados
  {
    hide InvColas, Sacar;
    SacarPcbs(k, p);
    SacarColas(k, {}, p);
    assert {} + {p} == {p};
  }

  /** Ending a process keeps every process in its list, however its resources stand. */
  lemma EliminarColas(k: Kernel, p: nat)
    requires InvColas(k, {}) && Creado(k, p) && p in k.pcbs
    ensures InvColas(Eliminar(k, p), {}) && Figura(Eliminar(k, p), EXITT, p)
  {
    hide InvColas, Sacar, Devolver, Quitar;
    DevueltoColas(k, p);
    SacarPcbs(k, p);
    var k1, l := Devuelto(k, p), Liberar(Sacar(k, p), p);
    LiberadoColas(k1, l, p);
    PonerColas(l, {p}, p, EXITT);
    assert {p} - {p} == {};
  }

  lemma LiberadoColas(k: Kernel, l: Kernel, p: nat)
    requires InvColas(k, {p}) && p in k.pcbs && l.colas == k.colas && l.estados == k.estados
    requires l.pcbs == k.pcbs || l.pcbs == k.pcbs[p := k.pcbs[p].(esperando := None)]
    ensures InvColas(l, {p})
  {
    hide InvColas;
    if l.pcbs == k.pcbs {
      MismasColas(k, l, {p});
    } else {
      PcbColas(k, {p}, p, k.pcbs[p].(esperando := None));
      MismasColas(ConPcb(k, p, k.pcbs[p].(esperando := None)), l, {p});
    }
  }

  /** Ending a process keeps the lists and the resources consistent if and only if it does not wait for a
      resource it holds with more units than waiters before it and fewer than waiters in all. */
  lemma EliminarInvSii(k: Kernel, p: nat)
    requires Inv(k) && Creado(k, p) && p in k.pcbs && k.estados[p - 1] != EXITT
    ensures Inv(Eliminar(k, p)) <==> forall r :: !PierdeUnidad(k, p, r)
  {
    hide Inv, InvColas, InvRecursos, Sacar, Recuento, Veces, Servidos, Indice, Devuelto, Devolver, Poner, EnEspera;
    DevueltoEs(k, p);
    match k.pcbs[p].esperando
    case None =>
      EnterrarSinEspera(k, p);
      PonerSalida(Devuelto(k, p), p);
    case Some(r) =>
      EnSuCola(k, p, r);
      EliminarEspera(k, p, r);
  }

  lemma EnterrarSinEspera(k: Kernel, p: nat)
    requires Creado(k, p) && p in k.pcbs && k.pcbs[p].esperando == None && Creado(Devuelto(k, p), p) && p in Devuelto(k, p).pcbs
    ensures Eliminar(k, p) == Poner(Devuelto(k, p), p, EXITT)
  {
  }

  // ---------------------------------------------------------------- units

  /** Giving everything back puts every unit in other hands or free, except the one that the process in hand
      was first in line for. */
  lemma {:induction false} DevolverUnidades(k: Kernel, enMano: set<nat>, tomados: seq<string>, n: nat, p: nat, x: string)
    requires InvColas(k, enMano) && InvRecursos(k, enMano) && n <= |tomados| && x in k.recursos && enMano <= {p}
    requires forall i :: 0 <= i < |tomados| ==> tomados[i] in k.recursos
    ensures var s := Devolver(k, tomados, n);
            Unidades(s, x) == Unidades(k, x) + Veces(tomados[..n], x)
                              - if p in enMano && EnEspera(k, p, x) && !EnEspera(s, p, x) then 1 else 0
    ensures EnEspera(Devolver(k, tomados, n), p, x) ==> EnEspera(k, p, x)
  {
    hide InvColas, InvRecursos, Incrementar, Veces, Unidades, EnEspera;
    if n == 0 {
      VecesDeNada(tomados, x);
    } else {
      var s := Devolver(k, tomados, n - 1);
      assert tomados[n - 1] in s.recursos && x in s.recursos;
      DevolverUnidades(k, enMano, tomados, n - 1, p, x);
      DevolverInv(k, enMano, tomados, n - 1);
      VecesUnoMas(tomados, n - 1, x);
      IncrementarUnidades(s, enMano, tomados[n - 1], x);
      UnaEsperaMenos(s, enMano, tomados[n - 1], p, x);
    }
  }

  lemma DevolverInv(k: Kernel, enMano: set<nat>, tomados: seq<string>, n: nat)
    requires InvColas(k, enMano) && InvRecursos(k, enMano) && n <= |tomados|
    ensures InvColas(Devolver(k, tomados, n), enMano) && InvRecursos(Devolver(k, tomados, n), enMano)
  {
    DevolverEs(k, enMano, tomados, n);
  }

  lemma UnaEsperaMenos(k: Kernel, enMano: set<nat>, r: string, p: nat, x: string)
    requires InvColas(k, enMano) && InvRecursos(k, enMano) && r in k.recursos && x in k.recursos
    ensures k.recursos[r].instancias < 0 ==> |k.recursos[r].bloqueados| > 0 && EnEspera(k, k.recursos[r].bloqueados[0], r)
    ensures EnEspera(Incrementar(k, r), p, x) <==>
            EnEspera(k, p, x) && !(x == r && k.recursos[r].instancias < 0 && k.recursos[r].bloqueados[0] == p)
  {
    assert Recuento(k.recursos[r]);
    hide InvColas, InvRecursos, SinRepetidos;
    IncrementarEs(k, enMano, r);
    if k.recursos[r].instancias < 0 {
      ColaSinPrimero(k.recursos[r]);
    }
  }

  /** Ending a process neither makes nor loses units, except one of the resource it waits for and holds as above. */
  lemma EliminarUnidades(k: Kernel, p: nat, x: string)
    requires Inv(k) && Creado(k, p) && p in k.pcbs && k.estados[p - 1] != EXITT && x in k.recursos
    ensures x in Eliminar(k, p).recursos
    ensures Unidades(Eliminar(k, p), x) == Unidades(k, x) - if PierdeUnidad(k, p, x) then 1 else 0
  {
    hide Inv, InvColas, InvRecursos, Sacar, Recuento, Veces, Servidos, Indice, Unidades, Devuelto, Poner;
    DevueltoEs(k, p);
    DevueltoUnidades(k, p, x);
    EsperaSi(k, p, x);
    match k.pcbs[p].esperando
    case None =>
      EnterrarSinEspera(k, p);
      UnidadesAlSalir(Devuelto(k, p), p, x);
    case Some(r) =>
      EnSuCola(k, p, r);
      EsperaUnidades(k, p, r, x);
  }

  lemma DevueltoUnidades(k: Kernel, p: nat, x: string)
    requires Inv(k) && Creado(k, p) && p in k.pcbs && x in k.recursos
    ensures var s := Devuelto(k, p);
            && x in s.recursos
            && Unidades(s, x) == Unidades(k, x) + Veces(k.pcbs[p].tomados, x) - if EnEspera(k, p, x) && !EnEspera(s, p, x) then 1 else 0
  {
    var k0, t := Sacar(k, p), k.pcbs[p].tomados;
    hide *;
    TomadosExisten(k, p);
    SacadoEs(k, p);
    MismasUnidades(k, k0, x);
    MismaEspera(k, k0, p, x);
    DevolverTodo(k0, {p}, t, p, x);
    DevueltoDef(k, p);
  }

  lemma DevolverTodo(k: Kernel, enMano: set<nat>, t: seq<string>, p: nat, x: string)
    requires InvColas(k, enMano) && InvRecursos(k, enMano) && x in k.recursos && enMano <= {p}
    requires forall i :: 0 <= i < |t| ==> t[i] in k.recursos
    ensures var s := Devolver(k, t, |t|);
            && x in s.recursos
            && Unidades(s, x) == Unidades(k, x) + Veces(t, x) - if p in enMano && EnEspera(k, p, x) && !EnEspera(s, p, x) then 1 else 0
  {
    assert t[..|t|] == t;
    hide *;
    DevolverUnidades(k, enMano, t, |t|, p, x);
  }

  lemma TomadosExisten(k: Kernel, p: nat)
    requires Inv(k) && p in k.pcbs
    ensures forall i :: 0 <= i < |k.pcbs[p].tomados| ==> k.pcbs[p].tomados[i] in k.recursos
  {
    var t := k.pcbs[p].tomados;
    forall i | 0 <= i < |t| ensures t[i] in k.recursos {
      assert t[i] in t;
    }
  }

  lemma MismaEspera(k: Kernel, s: Kernel, p: nat, x: string)
    requires s.recursos == k.recursos
    ensures EnEspera(s, p, x) <==> EnEspera(k, p, x)
  {
  }

  lemma DevueltoDef(k: Kernel, p: nat)
    requires Creado(k, p) && p in k.pcbs
    ensures Devuelto(k, p) == Devolver(Sacar(k, p), k.pcbs[p].tomados, |k.pcbs[p].tomados|)
  {
  }

  lemma EsperaSi(k: Kernel, p: nat, x: string)
    requires Inv(k) && p in k.pcbs
    ensures EnEspera(k, p, x) <==> Espera(k, p, x)
  {
  }

  lemma MismasUnidades(k: Kernel, s: Kernel, x: string)
    requires s.recursos == k.recursos && s.pcbs == k.pcbs && s.estados == k.estados && x in k.recursos
    ensures Unidades(s, x) == Unidades(k, x)
  {
    TenidasCambia(k, s, x, |k.estados|, 0);
  }

  /** What a process holds is no longer counted once it has ended. */
  lemma UnidadesAlSalir(k: Kernel, p: nat, x: string)
    requires Creado(k, p) && p in k.pcbs && k.estados[p - 1] != EXITT && x in k.recursos
    ensures Poner(k, p, EXITT).recursos == k.recursos
    ensures Unidades(Poner(k, p, EXITT), x) == Unidades(k, x) - Veces(k.pcbs[p].tomados, x)
  {
    hide Veces;
    var s := Poner(k, p, EXITT);
    forall q: nat | q != p ensures Aporte(s, q, x) == Aporte(k, q, x) {
      assert Creado(k, q) <==> Creado(s, q);
    }
    assert Creado(s, p);
    TenidasCambia(k, s, x, |k.estados|, p);
  }

  lemma EsperaUnidades(k: Kernel, p: nat, r: string, x: string)
    requires Creado(k, p) && p in k.pcbs && Espera(k, p, r) && EnEspera(k, p, r) && Recuento(k.recursos[r])
    requires x in k.recursos && (EnEspera(k, p, x) <==> Espera(k, p, x))
    requires var s := Devuelto(k, p);
             && Creado(s, p) && p in s.pcbs && s.pcbs[p] == k.pcbs[p] && s.estados[p - 1] != EXITT
             && x in s.recursos && r in s.recursos && s.recursos[r] == Servidos(k.recursos[r], Veces(k.pcbs[p].tomados, r))
             && Unidades(s, x) == Unidades(k, x) + Veces(k.pcbs[p].tomados, x) - if EnEspera(k, p, x) && !EnEspera(s, p, x) then 1 else 0
    ensures x in Eliminar(k, p).recursos
    ensures Unidades(Eliminar(k, p), x) == Unidades(k, x) - if PierdeUnidad(k, p, x) then 1 else 0
  {
    RecuentoAlDejar(k.recursos[r], p, Veces(k.pcbs[p].tomados, r));
    assert k.recursos[r].instancias == -|k.recursos[r].bloqueados|;
    hide Recuento, Veces, Indice, Sacar, Devolver, Quitar, Tenidas, Unidades, Aporte;
    var k1 := Devuelto(k, p);
    var s := DejarDeEsperar(k1, r, p);
    var f := ConPcb(s, p, s.pcbs[p].(esperando := None));
    assert f == Liberar(Sacar(k, p), p) by { SacarPcbs(k, p); }
    DejarUnidades(k1, p, r, x);
    UnidadesAlSalir(f, p, x);
  }

  /** The unit owed to the waiter is free again when no unit is owed any more. */
  lemma DejarUnidades(k: Kernel, p: nat, r: string, x: string)
    requires Creado(k, p) && p in k.pcbs && r in k.recursos && x in k.recursos
    ensures var s := DejarDeEsperar(k, r, p);
            var f := ConPcb(s, p, s.pcbs[p].(esperando := None));
            Unidades(f, x) == Unidades(k, x) + if x == r && k.recursos[r].instancias >= 0 then 1 else 0
  {
    hide Veces, Quitar;
    var s := DejarDeEsperar(k, r, p);
    var f := ConPcb(s, p, s.pcbs[p].(esperando := None));
    assert forall q: nat :: Creado(f, q) <==> Creado(k, q);
    TenidasCambia(k, f, x, |k.estados|, 0);
  }
}
