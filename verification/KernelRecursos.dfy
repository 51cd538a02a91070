/** Resources as counting semaphores with wait queues: what WAIT, SIGNAL and the release of a process
    that ends keep, and when ending a process loses a unit. */
module KernelRecursos {
  import opened Comunes
  import opened KernelEstado

  // ---------------------------------------------------------------- operations

  function ConRecurso(k: Kernel, r: string, rec: Recurso): Kernel {
    k.(recursos := k.recursos[r := rec])
  }

  function ConPcb(k: Kernel, p: nat, b: Pcb): Kernel {
    k.(pcbs := k.pcbs[p := b])
  }

  /** Where a process goes when it stops being blocked: under VRR, with quantum left, to the priority list. */
  function Destino(k: Kernel, b: Pcb): Estado {
    if k.algoritmo == VRR && 0 < b.quantum < k.quantum then READY_AUX else READY
  }

  /** `desbloquear_proceso`. */
  function Desbloquear(k: Kernel, p: nat): Kernel
    requires Creado(k, p) && p in k.pcbs
  {
    Mover(k, p, Destino(k, k.pcbs[p])).(enReady := k.enReady + 1)
  }

  /** The waiter takes the unit: it holds the resource and waits for nothing. */
  function Otorgar(k: Kernel, p: nat, r: string): Kernel
    requires p in k.pcbs
  {
    ConPcb(k, p, k.pcbs[p].(tomados := k.pcbs[p].tomados + [r], esperando := None))
  }

  /** In the list of blocked processes. */
  predicate Bloqueado(k: Kernel, p: nat) {
    Creado(k, p) && p in k.pcbs && EnCola(k, BLOCKED, p)
  }

  /** `recurso_incrementar`: one unit more, for the first waiter when there is one and it is still blocked. */
  function Incrementar(k: Kernel, r: string): (s: Kernel)
    ensures s.recursos.Keys == k.recursos.Keys
  {
    if r !in k.recursos then k
    else
      var rec := k.recursos[r];
      var n := rec.instancias + 1;
      if n <= 0 && rec.bloqueados != [] then
        var p := rec.bloqueados[0];
        var k1 := ConRecurso(k, r, Recurso(n, rec.bloqueados[1..]));
        if Bloqueado(k1, p) then Desbloquear(Otorgar(k1, p, r), p) else k1
      else ConRecurso(k, r, Recurso(n, rec.bloqueados))
  }

  /** The loop of `liberar_recursos_tomados` over the first `n` resources held. */
  function Devolver(k: Kernel, tomados: seq<string>, n: nat): (s: Kernel)
    requires n <= |tomados|
    ensures s.recursos.Keys == k.recursos.Keys
  {
    if n == 0 then k else Incrementar(Devolver(k, tomados, n - 1), tomados[n - 1])
  }

  /** `recurso_modificar_instancias2` with one unit: the process leaves the queue, if it is still there. */
  function DejarDeEsperar(k: Kernel, r: string, p: nat): Kernel {
    if r !in k.recursos then k
    else ConRecurso(k, r, Recurso(k.recursos[r].instancias + 1, Quitar(k.recursos[r].bloqueados, p)))
  }

  /** `liberar_recursos_tomados`. */
  function Liberar(k: Kernel, p: nat): Kernel
    requires p in k.pcbs
  {
    var b := k.pcbs[p];
    var k1 := Devolver(k, b.tomados, |b.tomados|);
    match b.esperando
    case None => k1
    case Some(r) =>
      var k2 := DejarDeEsperar(k1, r, p);
      if p in k2.pcbs then ConPcb(k2, p, k2.pcbs[p].(esperando := None)) else k2
  }

  // ---------------------------------------------------------------- invariant

  predicate Espera(k: Kernel, p: nat, r: string) {
    p in k.pcbs && k.pcbs[p].esperando == Some(r)
  }

  predicate EnEspera(k: Kernel, p: nat, r: string) {
    r in k.recursos && p in k.recursos[r].bloqueados
  }

  /** As many waiters as units are owed. */
  ghost predicate Recuento(rec: Recurso) {
    |rec.bloqueados| == (if rec.instancias < 0 then -rec.instancias else 0) && SinRepetidos(rec.bloqueados)
  }

  /** Every queue is as long as the units owed, and the waiters of a resource are exactly the blocked processes
      whose PCB names it; of a process in hand only that it is in no other queue. */
  ghost predicate InvRecursos(k: Kernel, enMano: set<nat>) {
    && (forall r: string :: r in k.recursos ==> Recuento(k.recursos[r]))
    && (forall p: nat, r: string :: EnEspera(k, p, r) ==> Espera(k, p, r) && (p !in enMano ==> Figura(k, BLOCKED, p)))
    && (forall p: nat, r: string :: Espera(k, p, r) && p !in enMano ==> EnEspera(k, p, r))
    && (forall p: nat, r: string :: p in k.pcbs && r in k.pcbs[p].tomados ==> r in k.recursos)
  }

  ghost predicate Inv(k: Kernel) {
    InvColas(k, {}) && InvRecursos(k, {})
  }

  lemma InvDeColas(k: Kernel)
    requires Inv(k)
    ensures InvColas(k, {}) && InvRecursos(k, {})
  {
  }

  lemma BloqueadoFigura(k: Kernel, p: nat)
    requires InvColas(k, {}) && Bloqueado(k, p)
    ensures Figura(k, BLOCKED, p)
  {
    assert EnCola(k, BLOCKED, p) ==> Figura(k, BLOCKED, p);
  }

  // ---------------------------------------------------------------- one unit more

  /** What one unit more does, when queues are as long as the units owed: the first waiter, if any, gets it. */
  lemma IncrementarEs(k: Kernel, enMano: set<nat>, r: string)
    requires InvColas(k, enMano) && InvRecursos(k, enMano) && r in k.recursos
    ensures var rec := k.recursos[r];
            var s := Incrementar(k, r);
            && s.recursos == k.recursos[r := Recurso(rec.instancias + 1, if rec.instancias < 0 then rec.bloqueados[1..] else rec.bloqueados)]
            && (rec.instancias < 0 ==> |rec.bloqueados| > 0)
            && (if rec.instancias >= 0 || rec.bloqueados[0] in enMano then s == ConRecurso(k, r, s.recursos[r])
                else
                  var p := rec.bloqueados[0];
                  && Creado(k, p) && p in k.pcbs
                  && s == Desbloquear(Otorgar(ConRecurso(k, r, s.recursos[r]), p, r), p))
  {
    var rec := k.recursos[r];
    assert Recuento(rec);
    if rec.instancias < 0 {
      var p := rec.bloqueados[0];
      assert EnEspera(k, p, r);
      assert EnCola(k, BLOCKED, p) <==> Figura(k, BLOCKED, p) && p !in enMano;
    }
  }

  lemma OtorgarColas(k: Kernel, enMano: set<nat>, r: string, rec: Recurso, p: nat)
    requires InvColas(k, enMano) && p in k.pcbs && p !in enMano
    ensures InvColas(Desbloquear(Otorgar(ConRecurso(k, r, rec), p, r), p), enMano)
  {
    assert Creado(k, p);
    hide InvColas, Mover;
    var k1 := ConRecurso(k, r, rec);
    MismasColas(k, k1, enMano);
    var b := k.pcbs[p].(tomados := k.pcbs[p].tomados + [r], esperando := None);
    PcbColas(k1, enMano, p, b);
    var k2 := Otorgar(k1, p, r);
    MoverColas(k2, enMano, p, Destino(k2, b));
    MismasColas(Mover(k2, p, Destino(k2, b)), Desbloquear(k2, p), enMano);
  }

  /** One unit more, whatever the state of the queues: it goes to a process in the list of blocked ones or stays free. */
  lemma IncrementarCasos(k: Kernel, enMano: set<nat>, r: string) returns (rec: Recurso, p: Option<nat>)
    requires InvColas(k, enMano)
    ensures r !in k.recursos ==> Incrementar(k, r) == k
    ensures r in k.recursos ==>
      match p
      case None => Incrementar(k, r) == ConRecurso(k, r, rec)
      case Some(w) =>
        && Creado(k, w) && w in k.pcbs && w !in enMano && Figura(k, BLOCKED, w)
        && Incrementar(k, r) == Desbloquear(Otorgar(ConRecurso(k, r, rec), w, r), w)
  {
    hide Desbloquear, Otorgar;
    rec, p := Recurso(0, []), None;
    if r in k.recursos {
      var viejo := k.recursos[r];
      var n := viejo.instancias + 1;
      if n <= 0 && viejo.bloqueados != [] {
        var w := viejo.bloqueados[0];
        rec := Recurso(n, viejo.bloqueados[1..]);
        var k1 := ConRecurso(k, r, rec);
        assert EnCola(k1, BLOCKED, w) <==> EnCola(k, BLOCKED, w);
        assert EnCola(k, BLOCKED, w) <==> Figura(k, BLOCKED, w) && w !in enMano;
        if Bloqueado(k1, w) {
          p := Some(w);
        }
      } else {
        rec := Recurso(n, viejo.bloqueados);
      }
    }
  }

  lemma IncrementarColas(k: Kernel, enMano: set<nat>, r: string)
    requires InvColas(k, enMano)
    ensures InvColas(Incrementar(k, r), enMano)
  {
    hide InvColas, Incrementar, Desbloquear, Otorgar;
    var rec, p := IncrementarCasos(k, enMano, r);
    if r in k.recursos {
      match p
      case None => MismasColas(k, Incrementar(k, r), enMano);
      case Some(w) => OtorgarColas(k, enMano, r, rec, w);
    }
  }

  lemma IncrementarNada(k: Kernel, r: string)
    requires r !in k.recursos
    ensures Incrementar(k, r) == k
  {
  }

  /** A grant touches one PCB and the place of that process. */
  lemma OtorgarEs(k: Kernel, r: string, rec: Recurso, p: nat)
    requires Creado(k, p) && p in k.pcbs
    ensures var s := Desbloquear(Otorgar(ConRecurso(k, r, rec), p, r), p);
            && s.recursos == k.recursos[r := rec] && |s.estados| == |k.estados|
            && (forall q: nat :: q in s.pcbs <==> q in k.pcbs)
            && s.pcbs[p].tomados == k.pcbs[p].tomados + [r] && s.pcbs[p].esperando == None
            && (forall q: nat :: q in k.pcbs && q != p ==> s.pcbs[q] == k.pcbs[q])
            && (forall q: nat :: Creado(k, q) && q != p ==> s.estados[q - 1] == k.estados[q - 1])
            && s.estados[p - 1] in {READY, READY_AUX}
  {
  }

  lemma IncrementarRecursos(k: Kernel, enMano: set<nat>, r: string)
    requires InvColas(k, enMano) && InvRecursos(k, enMano)
    ensures InvRecursos(Incrementar(k, r), enMano)
  {
    hide InvColas, Incrementar, Desbloquear, Otorgar, SinRepetidos;
    if r !in k.recursos {
      IncrementarNada(k, r);
    } else {
      IncrementarEs(k, enMano, r);
      var rec := k.recursos[r];
      var s := Incrementar(k, r);
      if rec.instancias < 0 {
        ColaSinPrimero(rec);
        if rec.bloqueados[0] !in enMano {
          OtorgarEs(k, r, s.recursos[r], rec.bloqueados[0]);
        }
      }
      forall p: nat, x: string
        ensures EnEspera(s, p, x) <==> EnEspera(k, p, x) && !(rec.instancias < 0 && x == r && p == rec.bloqueados[0])
      {
      }
      forall p: nat, x: string
        ensures Espera(s, p, x) ==> Espera(k, p, x)
        ensures Espera(k, p, x) ==> Espera(s, p, x) || (rec.instancias < 0 && p == rec.bloqueados[0])
        ensures Figura(k, BLOCKED, p) ==> Figura(s, BLOCKED, p) || (rec.instancias < 0 && p == rec.bloqueados[0])
      {
      }
      assert rec.instancias < 0 ==> EnEspera(k, rec.bloqueados[0], r);
    }
  }

  /** Popping the first waiter keeps the rest, and takes that process out of the queue. */
  lemma ColaSinPrimero(rec: Recurso)
    requires Recuento(rec) && rec.instancias < 0
    ensures Recuento(Recurso(rec.instancias + 1, rec.bloqueados[1..]))
    ensures forall p :: p in rec.bloqueados[1..] <==> p in rec.bloqueados && p != rec.bloqueados[0]
  {
    assert rec.bloqueados == [rec.bloqueados[0]] + rec.bloqueados[1..];
  }

  /** Processes in hand, and those that are not blocked, are not touched. */
  lemma IncrementarAjeno(k: Kernel, enMano: set<nat>, r: string, q: nat)
    requires InvColas(k, enMano) && q in k.pcbs && Creado(k, q) && (q in enMano || !Figura(k, BLOCKED, q))
    ensures var s := Incrementar(k, r);
            q in s.pcbs && s.pcbs[q] == k.pcbs[q] && Creado(s, q) && s.estados[q - 1] == k.estados[q - 1]
  {
    hide InvColas, Incrementar, Desbloquear, Otorgar;
    var rec, p := IncrementarCasos(k, enMano, r);
    if r in k.recursos && p.Some? {
      OtorgarEs(k, r, rec, p.value);
    }
  }

  // ---------------------------------------------------------------- everything a process holds

  lemma VecesUnoMas(s: seq<string>, n: nat, x: string)
    requires n < |s|
    ensures Veces(s[..n + 1], x) == Veces(s[..n], x) + if s[n] == x then 1 else 0
  {
    assert s[..n + 1][..n] == s[..n];
  }

  function Menor(a: nat, b: nat): nat {
    if a < b then a else b
  }

  /** Giving back `n` units: each resource gains the units of it, and that many of its first waiters
      are served in their order. */
  lemma {:induction false} DevolverEs(k: Kernel, enMano: set<nat>, tomados: seq<string>, n: nat)
    requires InvColas(k, enMano) && InvRecursos(k, enMano) && n <= |tomados|
    ensures var s := Devolver(k, tomados, n);
            && InvColas(s, enMano) && InvRecursos(s, enMano)
            && forall r :: r in k.recursos ==>
                 s.recursos[r] == Servidos(k.recursos[r], Veces(tomados[..n], r))
  {
    hide InvColas, InvRecursos, Incrementar, Veces;
    if n == 0 {
      forall r | r in k.recursos ensures k.recursos[r] == Servidos(k.recursos[r], Veces(tomados[..0], r)) {
        VecesDeNada(tomados, r);
      }
    } else {
      var s := Devolver(k, tomados, n - 1);
      DevolverEs(k, enMano, tomados, n - 1);
      IncrementarColas(s, enMano, tomados[n - 1]);
      IncrementarRecursos(s, enMano, tomados[n - 1]);
      forall r | r in k.recursos
        ensures Incrementar(s, tomados[n - 1]).recursos[r] == Servidos(k.recursos[r], Veces(tomados[..n], r))
      {
        VecesUnoMas(tomados, n - 1, r);
        UnServidoMas(k, s, enMano, tomados[n - 1], r, Veces(tomados[..n - 1], r));
      }
    }
  }

  lemma VecesDeNada(tomados: seq<string>, r: string)
    ensures Veces(tomados[..0], r) == 0
  {
  }

  /** The resource after `c` units more. */
  function Servidos(rec: Recurso, c: nat): Recurso {
    Recurso(rec.instancias + c, rec.bloqueados[Menor(c, |rec.bloqueados|)..])
  }

  lemma UnServidoMas(k: Kernel, s: Kernel, enMano: set<nat>, x: string, r: string, c: nat)
    requires InvColas(s, enMano) && InvRecursos(s, enMano) && r in k.recursos && r in s.recursos
    requires s.recursos[r] == Servidos(k.recursos[r], c)
    ensures r in Incrementar(s, x).recursos
    ensures Incrementar(s, x).recursos[r] == Servidos(k.recursos[r], c + if x == r then 1 else 0)
  {
    hide InvColas, Incrementar, Desbloquear, Otorgar, SinRepetidos;
    if x !in s.recursos {
      IncrementarNada(s, x);
    } else {
      assert Recuento(s.recursos[x]);
      hide InvRecursos;
      IncrementarEs(s, enMano, x);
    }
  }

  lemma {:induction false} DevolverAjeno(k: Kernel, enMano: set<nat>, tomados: seq<string>, n: nat, q: nat)
    requires InvColas(k, enMano) && n <= |tomados|
    requires q in k.pcbs && Creado(k, q) && (q in enMano || !Figura(k, BLOCKED, q))
    ensures var s := Devolver(k, tomados, n);
            q in s.pcbs && s.pcbs[q] == k.pcbs[q] && Creado(s, q) && s.estados[q - 1] == k.estados[q - 1]
  {
    hide InvColas, Incrementar;
    if n > 0 {
      DevolverColas(k, enMano, tomados, n - 1);
      DevolverAjeno(k, enMano, tomados, n - 1, q);
      IncrementarAjeno(Devolver(k, tomados, n - 1), enMano, tomados[n - 1], q);
    }
  }

  lemma {:induction false} DevolverColas(k: Kernel, enMano: set<nat>, tomados: seq<string>, n: nat)
    requires InvColas(k, enMano) && n <= |tomados|
    ensures InvColas(Devolver(k, tomados, n), enMano)
  {
    hide InvColas, Incrementar;
    if n > 0 {
      DevolverColas(k, enMano, tomados, n - 1);
      IncrementarColas(Devolver(k, tomados, n - 1), enMano, tomados[n - 1]);
    }
  }

  // ---------------------------------------------------------------- units

  /** Units of the resource that a live process holds. */
  function Aporte(k: Kernel, p: nat, r: string): nat {
    if Creado(k, p) && p in k.pcbs && k.estados[p - 1] != EXITT then Veces(k.pcbs[p].tomados, r) else 0
  }

  function Tenidas(k: Kernel, r: string, n: nat): nat {
    if n == 0 then 0 else Tenidas(k, r, n - 1) + Aporte(k, n, r)
  }

  /** Free units plus those in the hands of live processes. */
  function Unidades(k: Kernel, r: string): int
    requires r in k.recursos
  {
    (if k.recursos[r].instancias > 0 then k.recursos[r].instancias else 0) + Tenidas(k, r, |k.estados|)
  }

  lemma {:induction false} TenidasCambia(k: Kernel, s: Kernel, r: string, n: nat, p: nat)
    requires forall q: nat :: q != p ==> Aporte(s, q, r) == Aporte(k, q, r)
    ensures Tenidas(s, r, n) == Tenidas(k, r, n) + if 1 <= p <= n then Aporte(s, p, r) - Aporte(k, p, r) else 0
  {
    hide Aporte;
    if n > 0 {
      TenidasCambia(k, s, r, n - 1, p);
    }
  }

  /** One unit more is one unit more in all, free or in the waiter's hands, unless the first waiter is the
      process in hand, which takes nothing. */
  lemma IncrementarUnidades(k: Kernel, enMano: set<nat>, r: string, x: string)
    requires InvColas(k, enMano) && InvRecursos(k, enMano) && r in k.recursos && x in k.recursos
    ensures var rec := k.recursos[r];
            rec.instancias < 0 ==> |rec.bloqueados| > 0
    ensures var rec := k.recursos[r];
            Unidades(Incrementar(k, r), x) == Unidades(k, x) +
              if x == r && !(rec.instancias < 0 && rec.bloqueados[0] in enMano) then 1 else 0
  {
    hide InvColas, Incrementar, Desbloquear, Otorgar, SinRepetidos;
    IncrementarEs(k, enMano, r);
    var rec := k.recursos[r];
    var s := Incrementar(k, r);
    if rec.instancias < 0 && rec.bloqueados[0] !in enMano {
      var p := rec.bloqueados[0];
      assert EnEspera(k, p, r) && Figura(k, BLOCKED, p);
      OtorgarEs(k, r, s.recursos[r], p);
      OtorgarAporte(k, s, p, r, x);
      TenidasCambia(k, s, x, |k.estados|, p);
    } else {
      TenidasCambia(k, s, x, |k.estados|, 0);
    }
  }

  lemma OtorgarAporte(k: Kernel, s: Kernel, p: nat, r: string, x: string)
    requires |s.estados| == |k.estados| && Creado(k, p) && p in k.pcbs && k.estados[p - 1] != EXITT
    requires forall q: nat :: q in s.pcbs <==> q in k.pcbs
    requires s.pcbs[p].tomados == k.pcbs[p].tomados + [r] && s.estados[p - 1] != EXITT
    requires forall q: nat :: q in k.pcbs && q != p ==> s.pcbs[q] == k.pcbs[q]
    requires forall q: nat :: Creado(k, q) && q != p ==> s.estados[q - 1] == k.estados[q - 1]
    ensures forall q: nat :: q != p ==> Aporte(s, q, x) == Aporte(k, q, x)
    ensures Aporte(s, p, x) == Aporte(k, p, x) + if r == x then 1 else 0
  {
    VecesUltimo(k.pcbs[p].tomados, r, x);
    hide Veces;
    forall q: nat | q != p ensures Aporte(s, q, x) == Aporte(k, q, x) {
      assert Creado(k, q) <==> Creado(s, q);
    }
  }
}
