/** Who is served when a process gives units back: which waiters, in which order, and what each of them gets; what a SIGNAL and
    the end of a process do in full. */
module KernelLlamados {
  import opened Comunes
  import opened KernelEstado
  import opened KernelRecursos
  import opened KernelPasos
  import opened KernelSucesos
  import opened KernelSemaforos

  // ---------------------------------------------------------------- who is served

  /** Whom the unit number `i` goes to: the waiters of a resource are called in the order of its queue. */
  function Llamado(k: Kernel, tomados: seq<string>, i: nat): Option<nat>
    requires i < |tomados|
  {
    var x := tomados[i];
    var c := Veces(tomados[..i], x);
    if x in k.recursos && c < |k.recursos[x].bloqueados| then Some(k.recursos[x].bloqueados[c]) else None
  }

  /** The processes called by the first `n` units; the call of one in hand is lost. */
  function Llamados(k: Kernel, enMano: set<nat>, tomados: seq<string>, n: nat): seq<nat>
    requires n <= |tomados|
  {
    if n == 0 then []
    else
      var d := Llamados(k, enMano, tomados, n - 1);
      match Llamado(k, tomados, n - 1)
      case None => d
      case Some(w) => if w in enMano then d else d + [w]
  }

  /** Those of `d` that stop being blocked into list `e`. */
  function Van(k: Kernel, d: seq<nat>, e: Estado): seq<nat> {
    if d == [] then []
    else
      var w := d[|d| - 1];
      Van(k, d[..|d| - 1], e) + if w in k.pcbs && Destino(k, k.pcbs[w]) == e then [w] else []
  }

  /** `s` without those of `d`. */
  function SinEllos(s: seq<nat>, d: seq<nat>): seq<nat> {
    if d == [] then s else Quitar(SinEllos(s, d[..|d| - 1]), d[|d| - 1])
  }

  /** A waiter with the unit it waited for. */
  function Atendido(k: Kernel, b: Pcb): Pcb {
    match b.esperando
    case None => b
    case Some(x) => b.(estado := Destino(k, b), tomados := b.tomados + [x], esperando := None)
  }

  /** `s` is `k` once those of `d` have been served, in that order; of the resources it says nothing. */
  ghost predicate Servidas(k: Kernel, s: Kernel, d: seq<nat>) {
    && s == k.(colas := s.colas, pcbs := s.pcbs, estados := s.estados, recursos := s.recursos, enReady := k.enReady + |d|)
    && s.colas == Colas(k.colas.nuevos, k.colas.ready + Van(k, d, READY), k.colas.exec, SinEllos(k.colas.blocked, d),
                        k.colas.salida, k.colas.auxiliar + Van(k, d, READY_AUX))
    && s.pcbs.Keys == k.pcbs.Keys && |s.estados| == |k.estados|
    && (forall q: nat :: q in k.pcbs ==> s.pcbs[q] == if q in d then Atendido(k, k.pcbs[q]) else k.pcbs[q])
    && (forall q: nat :: Creado(k, q) ==> s.estados[q - 1] == if q in d && q in k.pcbs then Destino(k, k.pcbs[q]) else k.estados[q - 1])
  }

  /** Each of `d` was called before the others of its queue that are not in `d`. */
  ghost predicate PorTurno(k: Kernel, d: seq<nat>, tomados: seq<string>, n: nat)
    requires n <= |tomados|
  {
    forall q: nat, x: string :: q in d && Espera(k, q, x) ==>
      x in k.recursos && 0 <= Indice(k.recursos[x].bloqueados, q) < Veces(tomados[..n], x)
  }

  /** The lists once `w` has stopped being blocked. */
  function Sirve(c: Colas, w: nat, e: Estado): Colas {
    var b := c.(blocked := Quitar(c.blocked, w));
    if e == READY_AUX then b.(auxiliar := c.auxiliar + [w]) else b.(ready := c.ready + [w])
  }

  lemma OtorgarPleno(s: Kernel, w: nat, x: string, rec: Recurso)
    requires w in s.pcbs && Creado(s, w) && s.estados[w - 1] == BLOCKED && s.pcbs[w].esperando == Some(x)
    ensures var e := Destino(s, s.pcbs[w]);
            Desbloquear(Otorgar(ConRecurso(s, x, rec), w, x), w)
            == s.(recursos := s.recursos[x := rec], colas := Sirve(s.colas, w, e), estados := s.estados[w - 1 := e],
                  pcbs := s.pcbs[w := Atendido(s, s.pcbs[w])], enReady := s.enReady + 1)
  {
    hide Quitar;
  }

  lemma VanMas(k: Kernel, d: seq<nat>, w: nat, e: Estado)
    ensures Van(k, d + [w], e) == Van(k, d, e) + if w in k.pcbs && Destino(k, k.pcbs[w]) == e then [w] else []
  {
    assert (d + [w])[..|d|] == d;
  }

  lemma SinEllosMas(s: seq<nat>, d: seq<nat>, w: nat)
    ensures SinEllos(s, d + [w]) == Quitar(SinEllos(s, d), w)
  {
    assert (d + [w])[..|d|] == d;
  }

  /** One more of them. */
  lemma ServirUno(k: Kernel, s: Kernel, d: seq<nat>, w: nat, x: string, rec: Recurso)
    requires Servidas(k, s, d) && w !in d && w in k.pcbs && Creado(k, w) && k.estados[w - 1] == BLOCKED && k.pcbs[w].esperando == Some(x)
    ensures w in s.pcbs && Creado(s, w)
    ensures Servidas(k, Desbloquear(Otorgar(ConRecurso(s, x, rec), w, x), w), d + [w])
  {
    assert s.pcbs[w] == k.pcbs[w] && s.estados[w - 1] == BLOCKED;
    OtorgarPleno(s, w, x, rec);
    ColasMas(k, s.colas, d, w);
    PcbsMas(k, s, d, w);
    hide Desbloquear, Otorgar, ConRecurso, Van, SinEllos, Quitar, Sirve, Atendido, Destino;
  }

  lemma PcbsMas(k: Kernel, s: Kernel, d: seq<nat>, w: nat)
    requires Servidas(k, s, d) && w !in d && w in k.pcbs && Creado(k, w)
    ensures Atendido(s, k.pcbs[w]) == Atendido(k, k.pcbs[w]) && Destino(s, k.pcbs[w]) == Destino(k, k.pcbs[w])
    ensures var m := s.pcbs[w := Atendido(k, k.pcbs[w])];
            m.Keys == k.pcbs.Keys && forall q: nat :: q in k.pcbs ==> m[q] == if q in d + [w] then Atendido(k, k.pcbs[q]) else k.pcbs[q]
    ensures var es := s.estados[w - 1 := Destino(k, k.pcbs[w])];
            |es| == |k.estados| &&
            forall q: nat :: Creado(k, q) ==> es[q - 1] == if q in d + [w] && q in k.pcbs then Destino(k, k.pcbs[q]) else k.estados[q - 1]
  {
    MismoDestino(k, s, k.pcbs[w]);
    hide Van, SinEllos, Quitar, Atendido, Destino;
  }

  lemma MismoDestino(k: Kernel, s: Kernel, b: Pcb)
    requires s.algoritmo == k.algoritmo && s.quantum == k.quantum
    ensures Destino(s, b) == Destino(k, b) && Atendido(s, b) == Atendido(k, b)
  {
  }

  lemma ColasMas(k: Kernel, c: Colas, d: seq<nat>, w: nat)
    requires w in k.pcbs
    requires c == Colas(k.colas.nuevos, k.colas.ready + Van(k, d, READY), k.colas.exec, SinEllos(k.colas.blocked, d),
                        k.colas.salida, k.colas.auxiliar + Van(k, d, READY_AUX))
    ensures Sirve(c, w, Destino(k, k.pcbs[w])) ==
            Colas(k.colas.nuevos, k.colas.ready + Van(k, d + [w], READY), k.colas.exec, SinEllos(k.colas.blocked, d + [w]),
                  k.colas.salida, k.colas.auxiliar + Van(k, d + [w], READY_AUX))
  {
    hide Van, SinEllos, Quitar;
    VanMas(k, d, w, READY);
    VanMas(k, d, w, READY_AUX);
    SinEllosMas(k.colas.blocked, d, w);
  }

  /** Those called were waiting for a resource with units to come, are not in hand, and were called in their turn. */
  ghost predicate Llamables(k: Kernel, enMano: set<nat>, d: seq<nat>, tomados: seq<string>, n: nat)
    requires n <= |tomados|
  {
    && PorTurno(k, d, tomados, n)
    && forall q: nat :: q in d ==> q !in enMano && Figura(k, BLOCKED, q) && q in k.pcbs && k.pcbs[q].esperando.Some?
  }

  lemma PorTurnoMas(k: Kernel, enMano: set<nat>, d: seq<nat>, tomados: seq<string>, n: nat)
    requires n < |tomados| && Llamables(k, enMano, d, tomados, n)
    ensures Llamables(k, enMano, d, tomados, n + 1)
  {
    hide Veces, Indice, Figura;
    forall q: nat, x: string | q in d && Espera(k, q, x)
      ensures x in k.recursos && 0 <= Indice(k.recursos[x].bloqueados, q) < Veces(tomados[..n + 1], x)
    {
      VecesUnoMas(tomados, n, x);
    }
  }

  /** The next one of a queue: in its turn, and not called before. */
  lemma Siguiente1(k: Kernel, enMano: set<nat>, d: seq<nat>, tomados: seq<string>, n: nat, w: nat)
    requires n < |tomados| && Llamables(k, enMano, d, tomados, n) && InvColas(k, enMano) && InvRecursos(k, enMano)
    requires Llamado(k, tomados, n) == Some(w) && w !in enMano
    ensures w !in d && w in k.pcbs && Creado(k, w) && k.estados[w - 1] == BLOCKED && k.pcbs[w].esperando == Some(tomados[n])
    ensures Llamables(k, enMano, d + [w], tomados, n + 1)
  {
    var x := tomados[n];
    var q, c := k.recursos[x].bloqueados, Veces(tomados[..n], x);
    assert EnEspera(k, w, x) && Recuento(k.recursos[x]);
    PrimeraVez(q, w, c);
    hide InvColas, InvRecursos, Veces, Indice;
    VecesUnoMas(tomados, n, x);
    PorTurnoMas(k, enMano, d, tomados, n);
  }

  /** Giving back `n` units serves those called, in their turn, and nobody else. */
  lemma {:induction false} DevolverServidas(k: Kernel, enMano: set<nat>, tomados: seq<string>, n: nat)
    requires InvColas(k, enMano) && InvRecursos(k, enMano) && n <= |tomados|
    ensures var d := Llamados(k, enMano, tomados, n);
            Servidas(k, Devolver(k, tomados, n), d) && Llamables(k, enMano, d, tomados, n)
  {
    hide InvColas, InvRecursos, Incrementar, Veces, Servidas, Llamables;
    if n == 0 {
      NadieServido(k, enMano, tomados);
    } else {
      DevolverServidas(k, enMano, tomados, n - 1);
      DevolverEs(k, enMano, tomados, n - 1);
      UnaMas(k, enMano, tomados, n, Devolver(k, tomados, n - 1), Llamados(k, enMano, tomados, n - 1));
    }
  }

  lemma NadieServido(k: Kernel, enMano: set<nat>, tomados: seq<string>)
    ensures Servidas(k, k, []) && Llamables(k, enMano, [], tomados, 0)
  {
  }

  lemma OtroRecurso(k: Kernel, s: Kernel, d: seq<nat>, x: string, rec: Recurso)
    requires Servidas(k, s, d)
    ensures Servidas(k, ConRecurso(s, x, rec), d)
  {
  }

  /** A unit more goes to the one called, if somebody is and is not in hand. */
  lemma IncrementarLlama(k: Kernel, enMano: set<nat>, tomados: seq<string>, n: nat, s: Kernel)
    requires InvRecursos(k, enMano) && InvColas(s, enMano) && InvRecursos(s, enMano) && n < |tomados|
    requires var x := tomados[n]; x in k.recursos && x in s.recursos && s.recursos[x] == Servidos(k.recursos[x], Veces(tomados[..n], x))
    ensures var x := tomados[n];
            x in Incrementar(s, x).recursos &&
            var rec := Incrementar(s, x).recursos[x];
            match Llamado(k, tomados, n)
            case None => Incrementar(s, x) == ConRecurso(s, x, rec)
            case Some(w) =>
              if w in enMano then Incrementar(s, x) == ConRecurso(s, x, rec)
              else Creado(s, w) && w in s.pcbs && Incrementar(s, x) == Desbloquear(Otorgar(ConRecurso(s, x, rec), w, x), w)
  {
    var x := tomados[n];
    assert Recuento(k.recursos[x]);
    IncrementarEs(s, enMano, x);
    hide InvColas, InvRecursos, Incrementar, Veces, Desbloquear, Otorgar;
  }

  lemma UnaMas(k: Kernel, enMano: set<nat>, tomados: seq<string>, n: nat, s: Kernel, d: seq<nat>)
    requires InvColas(k, enMano) && InvRecursos(k, enMano) && InvColas(s, enMano) && InvRecursos(s, enMano) && 0 < n <= |tomados|
    requires Servidas(k, s, d) && Llamables(k, enMano, d, tomados, n - 1) && s.recursos.Keys == k.recursos.Keys
    requires var x := tomados[n - 1]; x in k.recursos ==> s.recursos[x] == Servidos(k.recursos[x], Veces(tomados[..n - 1], x))
    ensures var e := match Llamado(k, tomados, n - 1) case None => d case Some(w) => if w in enMano then d else d + [w];
            Servidas(k, Incrementar(s, tomados[n - 1]), e) && Llamables(k, enMano, e, tomados, n)
  {
    hide InvColas, InvRecursos, Incrementar, Servidas, Llamables, Veces, Desbloquear, Otorgar, ConRecurso, Servidos;
    var x := tomados[n - 1];
    PorTurnoMas(k, enMano, d, tomados, n - 1);
    if x !in k.recursos {
      IncrementarNada(s, x);
    } else {
      IncrementarLlama(k, enMano, tomados, n - 1, s);
      var w := Llamado(k, tomados, n - 1);
      var rec := Incrementar(s, x).recursos[x];
      OtroRecurso(k, s, d, x, rec);
      if w.Some? && w.value !in enMano {
        Siguiente1(k, enMano, d, tomados, n - 1, w.value);
        ServirUno(k, s, d, w.value, x, rec);
      }
    }
  }

  // ---------------------------------------------------------------- SIGNAL

  lemma {:induction false} VanIgual(k: Kernel, s: Kernel, d: seq<nat>, e: Estado)
    requires forall w: nat :: w in d ==> w in k.pcbs && w in s.pcbs && Destino(k, k.pcbs[w]) == Destino(s, s.pcbs[w])
    ensures Van(k, d, e) == Van(s, d, e)
  {
    if d != [] {
      VanIgual(k, s, d[..|d| - 1], e);
    }
  }

  /** A SIGNAL: the resource has one unit more and its first waiter leaves the queue and is served; the process that signals
      holds one unit less, if it held any, and goes on running; nothing else changes. */
  lemma SignalEfecto(k: Kernel, x: string)
    requires Inv(k) && Posible(k, PideSignal(x)) && x in k.recursos
    ensures var p, rec, r := k.colas.exec[0], k.recursos[x], Paso(k, PideSignal(x));
            var b := k.pcbs[p].(tomados := Quitar(k.pcbs[p].tomados, x));
            var d := Primero(k, x);
            && r.recursos == k.recursos[x := Recurso(rec.instancias + 1, if rec.bloqueados == [] then [] else rec.bloqueados[1..])]
            && (forall y :: Veces(b.tomados, y) == Veces(k.pcbs[p].tomados, y) - Uno(y == x && x in k.pcbs[p].tomados))
            && p !in d && Servidas(ConPcb(k, p, b), r, d)
            && (forall w :: w in d ==> Figura(k, BLOCKED, w) && Espera(k, w, x))
  {
    SignalBase(k, x);
    var p := k.colas.exec[0];
    forall y ensures Veces(Quitar(k.pcbs[p].tomados, x), y) == Veces(k.pcbs[p].tomados, y) - Uno(y == x && x in k.pcbs[p].tomados) {
      VecesQuitado(k.pcbs[p].tomados, x, y);
    }
  }

  lemma VecesQuitado(t: seq<string>, x: string, y: string)
    ensures Veces(Quitar(t, x), y) == Veces(t, y) - Uno(y == x && x in t)
  {
    hide Veces;
    if x in t {
      VecesSin(t, Indice(t, x), y);
    }
  }

  lemma SignalBase(k: Kernel, x: string)
    requires Inv(k) && Posible(k, PideSignal(x)) && x in k.recursos
    ensures var p, rec, r := k.colas.exec[0], k.recursos[x], Paso(k, PideSignal(x));
            var b := k.pcbs[p].(tomados := Quitar(k.pcbs[p].tomados, x));
            var d := Primero(k, x);
            && r.recursos == k.recursos[x := Recurso(rec.instancias + 1, if rec.bloqueados == [] then [] else rec.bloqueados[1..])]
            && p !in d && Servidas(ConPcb(k, p, b), r, d)
            && (forall w :: w in d ==> Figura(k, BLOCKED, w) && Espera(k, w, x))
  {
    var p, d := k.colas.exec[0], Primero(k, x);
    SignalEs(k, x);
    PrimeroLlamado(k, x);
    RecursoTrasSignal(k, x);
    hide *;
    PcbAparte(k, Incrementar(k, x), d, p, k.pcbs[p].(tomados := Quitar(k.pcbs[p].tomados, x)));
  }

  /** Who is first in the queue. */
  function Primero(k: Kernel, x: string): seq<nat>
    requires x in k.recursos
  {
    if k.recursos[x].bloqueados == [] then [] else [k.recursos[x].bloqueados[0]]
  }

  lemma SignalEs(k: Kernel, x: string)
    requires Inv(k) && Posible(k, PideSignal(x)) && x in k.recursos
    ensures k.colas.exec != []
    ensures var p, s := k.colas.exec[0], Incrementar(k, x);
            && p in k.pcbs && Figura(k, EXEC, p) && InvColas(k, {}) && InvRecursos(k, {})
            && (p in s.pcbs ==> Paso(k, PideSignal(x)) == ConPcb(s, p, s.pcbs[p].(tomados := Quitar(s.pcbs[p].tomados, x))))
  {
    EnCpuFigura(k, k.colas.exec[0]);
    hide Incrementar, Quitar, InvColas, InvRecursos;
  }

  lemma RecursoTrasSignal(k: Kernel, x: string)
    requires Inv(k) && x in k.recursos
    ensures var rec := k.recursos[x];
            Incrementar(k, x).recursos == k.recursos[x := Recurso(rec.instancias + 1, if rec.bloqueados == [] then [] else rec.bloqueados[1..])]
  {
    assert Recuento(k.recursos[x]);
    IncrementarEs(k, {}, x);
  }

  lemma PrimeroLlamado(k: Kernel, x: string)
    requires Inv(k) && x in k.recursos
    ensures Servidas(k, Incrementar(k, x), Primero(k, x))
    ensures forall w :: w in Primero(k, x) ==> w in k.pcbs && Figura(k, BLOCKED, w) && Espera(k, w, x)
  {
    VecesDeNada([x], x);
    assert Llamados(k, {}, [x], 0) == [];
    assert Llamados(k, {}, [x], 1) == Primero(k, x);
    if Primero(k, x) != [] {
      assert EnEspera(k, Primero(k, x)[0], x);
    }
    hide Servidas, Llamados, Incrementar, Veces;
    DevolverServidas(k, {}, [x], 1);
    assert Devolver(k, [x], 0) == k;
  }

  /** What happens to the PCB of somebody else makes no difference. */
  lemma PcbAparte(k: Kernel, s: Kernel, d: seq<nat>, p: nat, b: Pcb)
    requires Servidas(k, s, d) && p in k.pcbs && p !in d && forall w: nat :: w in d ==> w in k.pcbs
    ensures p in s.pcbs && s.pcbs[p] == k.pcbs[p] && Servidas(ConPcb(k, p, b), ConPcb(s, p, b), d)
  {
    var k1 := ConPcb(k, p, b);
    VanIgual(k, k1, d, READY);
    VanIgual(k, k1, d, READY_AUX);
    hide Van, SinEllos;
  }

  // ---------------------------------------------------------------- the end of a process

  /** Whom the units that a process holds go to when it ends. */
  function Herederos(k: Kernel, p: nat): seq<nat>
    requires p in k.pcbs
  {
    Llamados(k, {p}, k.pcbs[p].tomados, |k.pcbs[p].tomados|)
  }

  /** The lists once `p` has ended and those of `d` have been served. */
  function ListasAlAcabar(k: Kernel, p: nat, d: seq<nat>): Colas
    requires Creado(k, p)
  {
    var e := k.estados[p - 1];
    var c := ConCola(k.colas, e, Quitar(Cola(k.colas, e), p));
    Colas(c.nuevos, c.ready + Van(k, d, READY), c.exec, SinEllos(c.blocked, d), c.salida + [p], c.auxiliar + Van(k, d, READY_AUX))
  }

  /** A resource once `p` has given back its units of it and left its queue. */
  function RecursoAlAcabar(k: Kernel, p: nat, x: string): Recurso
    requires p in k.pcbs && x in k.recursos
  {
    var v := Servidos(k.recursos[x], Veces(k.pcbs[p].tomados, x));
    if k.pcbs[p].esperando == Some(x) then Recurso(v.instancias + 1, Quitar(v.bloqueados, p)) else v
  }

  /** `r` is `k` once `p` has ended: it is in EXIT, each resource has served as many of its first waiters as units `p` had of it, and
      nobody else changes. `cpu` tells if it was running. */
  ghost predicate Acaba(k: Kernel, r: Kernel, p: nat, cpu: int)
    requires Creado(k, p) && p in k.pcbs
  {
    var d := Herederos(k, p);
    && p !in d && Llamables(k, {p}, d, k.pcbs[p].tomados, |k.pcbs[p].tomados|)
    && r == k.(colas := ListasAlAcabar(k, p, d), pcbs := r.pcbs, estados := r.estados, recursos := r.recursos,
               enReady := k.enReady + |d|, cpuLibre := k.cpuLibre + cpu)
    && r.pcbs.Keys == k.pcbs.Keys && |r.estados| == |k.estados|
    && r.pcbs[p] == k.pcbs[p].(estado := EXITT, esperando := None) && r.estados[p - 1] == EXITT
    && (forall q: nat :: q in k.pcbs && q != p ==> r.pcbs[q] == if q in d then Atendido(k, k.pcbs[q]) else k.pcbs[q])
    && (forall q: nat :: Creado(k, q) && q != p ==> r.estados[q - 1] == if q in d && q in k.pcbs then Destino(k, k.pcbs[q]) else k.estados[q - 1])
    && r.recursos.Keys == k.recursos.Keys && (forall x :: x in k.recursos ==> r.recursos[x] == RecursoAlAcabar(k, p, x))
  }

  lemma {:induction false} LlamadosIguales(k: Kernel, s: Kernel, enMano: set<nat>, tomados: seq<string>, n: nat)
    requires k.recursos == s.recursos && n <= |tomados|
    ensures Llamados(k, enMano, tomados, n) == Llamados(s, enMano, tomados, n)
  {
    hide Veces;
    if n > 0 {
      LlamadosIguales(k, s, enMano, tomados, n - 1);
    }
  }

  /** Nobody in the queues is in hand. */
  lemma {:induction false} LlamadosSinMano(k: Kernel, p: nat, tomados: seq<string>, n: nat)
    requires n <= |tomados| && forall x :: !EnEspera(k, p, x)
    ensures Llamados(k, {}, tomados, n) == Llamados(k, {p}, tomados, n)
  {
    hide Veces;
    if n > 0 {
      LlamadosSinMano(k, p, tomados, n - 1);
      assert !EnEspera(k, p, tomados[n - 1]);
    }
  }

  /** What the process holds has been given back and it has left its queue. */
  ghost predicate Libre(k: Kernel, l: Kernel, p: nat, d: seq<nat>)
    requires p in k.pcbs
  {
    && l.pcbs.Keys == k.pcbs.Keys && |l.estados| == |k.estados|
    && l.pcbs[p] == k.pcbs[p].(esperando := None)
    && (forall q: nat :: q in k.pcbs && q != p ==> l.pcbs[q] == if q in d then Atendido(k, k.pcbs[q]) else k.pcbs[q])
    && (forall q: nat :: Creado(k, q) ==> l.estados[q - 1] == if q in d && q in k.pcbs then Destino(k, k.pcbs[q]) else k.estados[q - 1])
    && l.recursos.Keys == k.recursos.Keys && (forall x :: x in k.recursos ==> l.recursos[x] == RecursoAlAcabar(k, p, x))
  }

  lemma LiberarEs(k: Kernel, p: nat)
    requires p in k.pcbs
    ensures var s := Devolver(k, k.pcbs[p].tomados, |k.pcbs[p].tomados|);
            p in s.pcbs && s.pcbs[p] == k.pcbs[p] ==>
              Liberar(k, p) == match k.pcbs[p].esperando
                               case None => s
                               case Some(x) => ConPcb(DejarDeEsperar(s, x, p), p, k.pcbs[p].(esperando := None))
  {
    hide Devolver, DejarDeEsperar;
    var s := Devolver(k, k.pcbs[p].tomados, |k.pcbs[p].tomados|);
    if k.pcbs[p].esperando.Some? {
      DejarPcbs(s, k.pcbs[p].esperando.value, p);
    }
  }

  lemma DejarPcbs(s: Kernel, x: string, p: nat)
    ensures DejarDeEsperar(s, x, p).pcbs == s.pcbs
  {
  }

  /** The release of what `p` holds, once its units have served those of `d`. */
  lemma LiberarLibre(k: Kernel, p: nat, d: seq<nat>)
    requires Creado(k, p) && p in k.pcbs && p !in d
    requires Servidas(k, Devolver(k, k.pcbs[p].tomados, |k.pcbs[p].tomados|), d)
    requires var s := Devolver(k, k.pcbs[p].tomados, |k.pcbs[p].tomados|);
             s.recursos.Keys == k.recursos.Keys &&
             forall x :: x in k.recursos ==> s.recursos[x] == Servidos(k.recursos[x], Veces(k.pcbs[p].tomados, x))
    ensures var s, l := Devolver(k, k.pcbs[p].tomados, |k.pcbs[p].tomados|), Liberar(k, p);
            Libre(k, l, p, d) && l == s.(recursos := l.recursos, pcbs := l.pcbs)
  {
    var s := Devolver(k, k.pcbs[p].tomados, |k.pcbs[p].tomados|);
    LiberarEs(k, p);
    hide *;
    ServidaAparte(k, s, p, d);
    match k.pcbs[p].esperando
    case None => SinEsperaLibre(k, s, p, d);
    case Some(x) => ConEsperaLibre(k, s, p, d, x);
  }

  lemma ServidaAparte(k: Kernel, s: Kernel, p: nat, d: seq<nat>)
    requires Servidas(k, s, d) && p in k.pcbs && p !in d
    ensures p in s.pcbs && s.pcbs[p] == k.pcbs[p]
  {
    hide Van, SinEllos;
  }

  lemma SinEsperaLibre(k: Kernel, s: Kernel, p: nat, d: seq<nat>)
    requires Servidas(k, s, d) && p in k.pcbs && p !in d && k.pcbs[p].esperando == None
    requires s.recursos.Keys == k.recursos.Keys
    requires forall x :: x in k.recursos ==> s.recursos[x] == Servidos(k.recursos[x], Veces(k.pcbs[p].tomados, x))
    ensures Libre(k, s, p, d)
  {
    hide Van, SinEllos, Veces, Servidos, Atendido, Destino;
    assert k.pcbs[p].(esperando := None) == k.pcbs[p];
  }

  lemma ConEsperaLibre(k: Kernel, s: Kernel, p: nat, d: seq<nat>, x: string)
    requires Servidas(k, s, d) && p in k.pcbs && p !in d && k.pcbs[p].esperando == Some(x)
    requires s.recursos.Keys == k.recursos.Keys
    requires forall y :: y in k.recursos ==> s.recursos[y] == Servidos(k.recursos[y], Veces(k.pcbs[p].tomados, y))
    ensures var l := ConPcb(DejarDeEsperar(s, x, p), p, k.pcbs[p].(esperando := None));
            Libre(k, l, p, d) && l == s.(recursos := l.recursos, pcbs := l.pcbs)
  {
    hide Van, SinEllos, Veces, Servidos, Atendido, Destino, Quitar, DejarDeEsperar;
    DejarPcbs(s, x, p);
    DejarRecursos(k, s, p, x);
  }

  lemma DejarRecursos(k: Kernel, s: Kernel, p: nat, x: string)
    requires p in k.pcbs && k.pcbs[p].esperando == Some(x) && s.recursos.Keys == k.recursos.Keys
    requires forall y :: y in k.recursos ==> s.recursos[y] == Servidos(k.recursos[y], Veces(k.pcbs[p].tomados, y))
    ensures var l := DejarDeEsperar(s, x, p);
            && l == s.(recursos := l.recursos) && l.recursos.Keys == k.recursos.Keys
            && forall y :: y in k.recursos ==> l.recursos[y] == RecursoAlAcabar(k, p, y)
  {
    hide Veces, Servidos, Quitar;
  }

  /** Ending a process that is out of its list, or one that is running and waits for nothing, in full. */
  lemma PonerAcaba(k: Kernel, l: Kernel, p: nat, cpu: int, c: Colas)
    requires Creado(k, p) && p in k.pcbs && p !in Herederos(k, p)
    requires Llamables(k, {p}, Herederos(k, p), k.pcbs[p].tomados, |k.pcbs[p].tomados|)
    requires Libre(k, l, p, Herederos(k, p)) && ConCola(c, EXITT, Cola(c, EXITT) + [p]) == ListasAlAcabar(k, p, Herederos(k, p))
    requires l == k.(colas := l.colas, pcbs := l.pcbs, estados := l.estados, recursos := l.recursos, enReady := k.enReady + |Herederos(k, p)|)
    ensures var m := Poner(l.(colas := c), p, EXITT);
            Creado(l, p) && p in l.pcbs && Acaba(k, m.(cpuLibre := m.cpuLibre + cpu), p, cpu)
  {
    hide Van, SinEllos, Veces, Servidos, Atendido, Destino, Quitar, Herederos, Llamables, ListasAlAcabar, RecursoAlAcabar;
  }

  lemma SinLlamar(k: Kernel, enMano: set<nat>, d: seq<nat>, tomados: seq<string>, n: nat, p: nat)
    requires n <= |tomados| && Llamables(k, enMano, d, tomados, n) && p in enMano
    ensures p !in d && forall w: nat :: w in d ==> w in k.pcbs
  {
  }

  /** Out of its list, the process counts the same for those it serves. */
  lemma SacadoIgual(k: Kernel, p: nat, l: Kernel, d: seq<nat>)
    requires Creado(k, p) && p in k.pcbs && p in Sacar(k, p).pcbs
    requires forall w: nat :: w in d ==> w in k.pcbs
    ensures Llamables(Sacar(k, p), {p}, d, k.pcbs[p].tomados, |k.pcbs[p].tomados|) ==>
            Llamables(k, {p}, d, k.pcbs[p].tomados, |k.pcbs[p].tomados|)
    ensures Libre(Sacar(k, p), l, p, d) ==> Libre(k, l, p, d)
    ensures Van(Sacar(k, p), d, READY) == Van(k, d, READY) && Van(Sacar(k, p), d, READY_AUX) == Van(k, d, READY_AUX)
  {
    hide Van, Quitar, Cola, ConCola, Veces, Indice, Servidos;
    var k0 := Sacar(k, p);
    VanIgual(k0, k, d, READY);
    VanIgual(k0, k, d, READY_AUX);
    assert forall q: nat, x: string :: Espera(k0, q, x) <==> Espera(k, q, x);
    assert forall q: nat :: Figura(k0, BLOCKED, q) <==> Figura(k, BLOCKED, q);
    assert forall b: Pcb :: Atendido(k0, b) == Atendido(k, b) && Destino(k0, b) == Destino(k, b);
    assert forall x: string :: x in k.recursos ==> RecursoAlAcabar(k0, p, x) == RecursoAlAcabar(k, p, x);
  }

  /** A process that leaves its list and ends. */
  lemma EliminarAcaba(k: Kernel, p: nat)
    requires Inv(k) && Creado(k, p) && p in k.pcbs
    ensures Acaba(k, Eliminar(k, p), p, 0)
  {
    var k0, t, d := Sacar(k, p), k.pcbs[p].tomados, Herederos(k, p);
    SacarPcbs(k, p);
    hide *;
    SacadoEs(k, p);
    HerederosSacado(k, p);
    DevolverServidas(k0, {p}, t, |t|);
    DevolverEs(k0, {p}, t, |t|);
    assert t[..|t|] == t;
    SinLlamar(k0, {p}, d, t, |t|, p);
    LiberarLibre(k0, p, d);
    var l := Liberar(k0, p);
    SacadoIgual(k, p, l, d);
    ListasSacado(k, Devolver(k0, t, |t|), l, p);
    PonerAcaba(k, l, p, 0, l.colas);
    EliminarEs(k, p);
  }

  lemma HerederosSacado(k: Kernel, p: nat)
    requires Creado(k, p) && p in k.pcbs
    ensures var t := k.pcbs[p].tomados; Llamados(Sacar(k, p), {p}, t, |t|) == Herederos(k, p)
  {
    SacarPcbs(k, p);
    LlamadosIguales(k, Sacar(k, p), {p}, k.pcbs[p].tomados, |k.pcbs[p].tomados|);
  }

  lemma ListasSacado(k: Kernel, s: Kernel, l: Kernel, p: nat)
    requires Creado(k, p) && p in k.pcbs && Servidas(Sacar(k, p), s, Herederos(k, p)) && l == s.(recursos := l.recursos, pcbs := l.pcbs)
    requires var d := Herederos(k, p);
             Van(Sacar(k, p), d, READY) == Van(k, d, READY) && Van(Sacar(k, p), d, READY_AUX) == Van(k, d, READY_AUX)
    ensures ConCola(l.colas, EXITT, Cola(l.colas, EXITT) + [p]) == ListasAlAcabar(k, p, Herederos(k, p))
    ensures l == k.(colas := l.colas, pcbs := l.pcbs, estados := l.estados, recursos := l.recursos, enReady := k.enReady + |Herederos(k, p)|)
    ensures l == l.(colas := l.colas)
  {
    var k0, d := Sacar(k, p), Herederos(k, p);
    ListasDef(k, p, d);
    SacarSoloColas(k, p);
    hide *;
    ServidasEs(k0, s, d);
    AlFinalDeSalida(l.colas, p);
  }

  lemma SacarSoloColas(k: Kernel, p: nat)
    requires Creado(k, p)
    ensures Sacar(k, p) == k.(colas := Sacar(k, p).colas)
  {
    hide Quitar, ConCola, Cola;
  }

  lemma ListasDef(k: Kernel, p: nat, d: seq<nat>)
    requires Creado(k, p)
    ensures var c := Sacar(k, p).colas;
            ListasAlAcabar(k, p, d) ==
            Colas(c.nuevos, c.ready + Van(k, d, READY), c.exec, SinEllos(c.blocked, d), c.salida + [p], c.auxiliar + Van(k, d, READY_AUX))
  {
    hide Quitar, ConCola, Cola, Van, SinEllos;
  }

  lemma ServidasEs(k: Kernel, s: Kernel, d: seq<nat>)
    requires Servidas(k, s, d)
    ensures s == k.(colas := s.colas, pcbs := s.pcbs, estados := s.estados, recursos := s.recursos, enReady := k.enReady + |d|)
    ensures s.colas == Colas(k.colas.nuevos, k.colas.ready + Van(k, d, READY), k.colas.exec, SinEllos(k.colas.blocked, d),
                             k.colas.salida, k.colas.auxiliar + Van(k, d, READY_AUX))
  {
    hide Van, SinEllos;
  }

  lemma AlFinalDeSalida(c: Colas, p: nat)
    ensures ConCola(c, EXITT, Cola(c, EXITT) + [p]) == c.(salida := c.salida + [p])
  {
  }

  lemma EliminarEs(k: Kernel, p: nat)
    requires Creado(k, p) && p in k.pcbs && p in Sacar(k, p).pcbs
    ensures var l := Liberar(Sacar(k, p), p);
            Creado(l, p) && p in l.pcbs ==> Eliminar(k, p) == Poner(l, p, EXITT) && var m := Poner(l, p, EXITT); m.(cpuLibre := m.cpuLibre + 0) == m
  {
    hide Liberar, Sacar, Poner;
  }

  /** A running process that exits. */
  lemma TerminarAcaba(k: Kernel, p: nat)
    requires Inv(k) && EnCpu(k, p)
    ensures Acaba(k, Terminar(k, p), p, 1)
  {
    var t := k.pcbs[p].tomados;
    EnCpuEs(k, p);
    hide *;
    ListasTerminado(k, Devolver(k, t, |t|), Liberar(k, p), p) by {
      TerminarLibre(k, p);
    }
    TerminarLibre(k, p);
    PonerAcaba(k, Liberar(k, p), p, 1, Sacar(Liberar(k, p), p).colas);
    TerminarEs(k, p);
  }

  lemma TerminarLibre(k: Kernel, p: nat)
    requires Inv(k) && EnCpu(k, p)
    ensures var t, d, l := k.pcbs[p].tomados, Herederos(k, p), Liberar(k, p);
            && p !in d && Llamables(k, {p}, d, t, |t|) && Libre(k, l, p, d)
            && Servidas(k, Devolver(k, t, |t|), d) && l == Devolver(k, t, |t|).(recursos := l.recursos, pcbs := l.pcbs)
  {
    var t, d := k.pcbs[p].tomados, Herederos(k, p);
    EnCpuEs(k, p);
    NoLlamado(k, p);
    hide *;
    DevolverServidas(k, {}, t, |t|);
    DevolverEs(k, {}, t, |t|);
    assert t[..|t|] == t;
    LlamadosCorriendo(k, p);
    LiberarLibre(k, p, d);
  }

  lemma NoLlamado(k: Kernel, p: nat)
    requires Inv(k) && Figura(k, EXEC, p) && p in k.pcbs
    ensures InvColas(k, {}) && InvRecursos(k, {})
    ensures var t := k.pcbs[p].tomados; Llamados(k, {}, t, |t|) == Herederos(k, p)
  {
    assert forall x :: !EnEspera(k, p, x);
    LlamadosSinMano(k, p, k.pcbs[p].tomados, |k.pcbs[p].tomados|);
  }

  lemma LlamadosCorriendo(k: Kernel, p: nat)
    requires Figura(k, EXEC, p) && p in k.pcbs
    requires Llamables(k, {}, Herederos(k, p), k.pcbs[p].tomados, |k.pcbs[p].tomados|)
    ensures p !in Herederos(k, p) && Llamables(k, {p}, Herederos(k, p), k.pcbs[p].tomados, |k.pcbs[p].tomados|)
  {
    hide Herederos;
  }

  lemma ListasTerminado(k: Kernel, s: Kernel, l: Kernel, p: nat)
    requires EnCpu(k, p) && Figura(k, EXEC, p) && p !in Herederos(k, p)
    requires Servidas(k, s, Herederos(k, p)) && l == s.(recursos := l.recursos, pcbs := l.pcbs)
    ensures Creado(l, p)
    ensures var c := Sacar(l, p).colas; ConCola(c, EXITT, Cola(c, EXITT) + [p]) == ListasAlAcabar(k, p, Herederos(k, p))
    ensures l == k.(colas := l.colas, pcbs := l.pcbs, estados := l.estados, recursos := l.recursos, enReady := k.enReady + |Herederos(k, p)|)
  {
    hide Van, SinEllos, Quitar, Herederos;
    assert l.estados[p - 1] == EXEC;
  }

  lemma TerminarEs(k: Kernel, p: nat)
    requires EnCpu(k, p)
    ensures var l := Liberar(k, p);
            Creado(l, p) && p in l.pcbs ==>
              var m := Poner(l.(colas := Sacar(l, p).colas), p, EXITT); Terminar(k, p) == m.(cpuLibre := m.cpuLibre + 1)
  {
    hide Liberar, Quitar;
  }

  /** Whether the event ends the process it is about. */
  predicate EsFinal(k: Kernel, s: Suceso) {
    || s.Termina? || s.SinInterfaz? || s.ErrorIO? || (s.Mata? && Matable(k, s.pid))
    || ((s.PideWait? || s.PideSignal?) && s.recurso !in k.recursos)
  }

  /** An exit, a request for an interface or a resource that does not exist, a failed I/O operation and a kill all end their process: it
      goes to EXIT, each resource serves as many of its first waiters as units the process had of it, and no other process
      changes; the CPU is free if the process was running. */
  lemma AcabaEfecto(k: Kernel, s: Suceso)
    requires Inv(k) && Posible(k, s) && EsFinal(k, s)
    ensures var p := if s.ErrorIO? || s.Mata? then s.pid else k.colas.exec[0];
            && Creado(k, p) && p in k.pcbs
            && Acaba(k, Paso(k, s), p, if s.ErrorIO? || s.Mata? then 0 else 1)
  {
    hide Inv, Acaba, Eliminar, Terminar;
    if s.ErrorIO? || s.Mata? {
      EliminarAcaba(k, s.pid);
    } else {
      var p := k.colas.exec[0];
      if s.Termina? {
        TerminarAcaba(k, p);
      } else {
        EliminarAcaba(k, p);
        ConCpu(k, Eliminar(k, p), p);
      }
    }
  }

  lemma ConCpu(k: Kernel, r: Kernel, p: nat)
    requires Creado(k, p) && p in k.pcbs && Acaba(k, r, p, 0)
    ensures Acaba(k, SoltarCpu(r), p, 1)
  {
    hide Herederos, ListasAlAcabar, Llamables, RecursoAlAcabar, Atendido;
  }

  /** A kill of a process that is not new, ready or blocked changes nothing here. */
  lemma MataNadie(k: Kernel, p: nat)
    requires Posible(k, Mata(p)) && !Matable(k, p)
    ensures Paso(k, Mata(p)) == k
  {
  }
}
