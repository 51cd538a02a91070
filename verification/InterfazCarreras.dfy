/** What a race leaves behind: when nothing else is coming somebody waits for ever, and a run for each race. */
module InterfazCarreras {
  import opened Comunes
  import opened InterfazIO

  /** Somebody waits, and only a new request of somebody else can move anything. */
  ghost predicate Varado(s: Interfaz) {
    s.listaBloqueados != [] && Quieto(s)
  }

  /** No end on its way finds anybody in the list when the kernel takes it. */
  ghost predicate SinEncuentro(s: Interfaz) {
    && (HayFin(s.respuestas, 0) ==> s.listaBloqueados == [])
    && forall i, j :: 0 <= i < j < |s.respuestas| && s.respuestas[i].Ocupada? ==> !s.respuestas[j].Fin?
  }

  /** No worker has an end to announce, no request on its way will become one, no end on its way resumes anybody, and yet
      somebody waits or is about to. */
  ghost predicate Perdido(s: Interfaz) {
    && !Activo(s) && !HayValido(s.pedidos) && SinEncuentro(s)
    && (s.rechazo.Some? || s.listaBloqueados != [] || exists i :: 0 <= i < |s.respuestas| && s.respuestas[i].Ocupada?)
  }

  /** With nothing else coming, to lack the guarantee of progress is to be lost. */
  lemma SinProgresoEsPerdido(s: Interfaz)
    requires !HayValido(s.pedidos) && SinEncuentro(s)
    ensures !Progreso(s) <==> Perdido(s)
  {
    if i :| 0 <= i < |s.respuestas| && s.respuestas[i].Ocupada? {
      assert !HayFin(s.respuestas, i);
    }
  }

  /** Where the guarantee held, a step that leaves no supported request on its way, and no end that will find anybody in the
      list, loses somebody if and only if it is one of the two races. */
  lemma PierdeSiiCarrera(s: Interfaz, p: Paso)
    requires Inv(s) && Progreso(s) && Posible(s, p)
    requires !HayValido(Dar(s, p).pedidos) && SinEncuentro(Dar(s, p))
    ensures Perdido(Dar(s, p)) <==> Carrera(s, p)
  {
    hide Inv, Progreso, Posible, Dar, Carrera, Perdido, SinEncuentro, HayValido;
    PasoProgresoSii(s, p);
    SinProgresoEsPerdido(Dar(s, p));
  }

  /** Only a new request gets the interface out of there. */
  lemma PerdidoSigue(s: Interfaz, p: Paso)
    requires Inv(s) && Perdido(s) && Posible(s, p) && !p.Pide?
    ensures Perdido(Dar(s, p))
  {
    hide Inv;
    match p
    case Pide(_, _) =>
    case Atiende => PerdidoAtiende(s);
    case EnviaRechazo => PerdidoRechaza(s);
    case Libera(_) =>
    case EnviaFin(_) =>
    case FinAntesDeLiberar(_) =>
    case LiberaDespues(_) =>
    case KernelRecibe => PerdidoRecibe(s);
  }

  lemma PerdidoAtiende(s: Interfaz)
    requires Perdido(s) && s.pedidos != []
    ensures Perdido(AtenderPedido(s))
  {
    var r := AtenderPedido(s);
    assert !s.pedidos[0].valido;
    assert forall j :: 0 <= j < |r.pedidos| ==> r.pedidos[j] == s.pedidos[j + 1];
    SinEncuentroNuevo(s, r, Error(s.pedidos[0].pid));
  }

  lemma SinEncuentroNuevo(s: Interfaz, r: Interfaz, x: Respuesta)
    requires SinEncuentro(s) && !x.Fin? && r.listaBloqueados == s.listaBloqueados && r.respuestas == s.respuestas + [x]
    ensures SinEncuentro(r)
    ensures forall i :: 0 <= i < |s.respuestas| ==> r.respuestas[i] == s.respuestas[i]
  {
    if HayFin(r.respuestas, 0) {
      var j :| 0 <= j < |r.respuestas| && r.respuestas[j].Fin?;
      assert s.respuestas[j].Fin?;
    }
  }

  lemma PerdidoRechaza(s: Interfaz)
    requires Perdido(s) && s.rechazo.Some?
    ensures Perdido(Dar(s, EnviaRechazo))
  {
    var r := Dar(s, EnviaRechazo);
    SinEncuentroNuevo(s, r, Ocupada(s.rechazo.value));
    assert r.respuestas[|s.respuestas|].Ocupada?;
  }

  lemma PerdidoRecibe(s: Interfaz)
    requires Perdido(s) && s.respuestas != []
    ensures Perdido(RecibirRespuesta(s))
  {
    var r := RecibirRespuesta(s);
    var x := s.respuestas[0];
    assert x.Fin? ==> HayFin(s.respuestas, 0);
    assert forall i :: 0 <= i < |r.respuestas| ==> r.respuestas[i] == s.respuestas[i + 1];
    if HayFin(r.respuestas, 0) {
      var j :| 0 <= j < |r.respuestas| && r.respuestas[j].Fin?;
      assert s.respuestas[j + 1].Fin?;
      assert HayFin(s.respuestas, 0);
    }
    if !x.Ocupada? && s.rechazo == None && s.listaBloqueados == [] {
      var i :| 0 <= i < |s.respuestas| && s.respuestas[i].Ocupada?;
      assert r.respuestas[i - 1].Ocupada?;
    }
  }

  /** A process that a race leaves behind is never answered: as long as nobody else asks, every run keeps somebody waiting,
      and one that can do nothing else stops with somebody in the kernel's list. */
  lemma {:induction false} CorridaPerdida(ss: seq<Interfaz>, ps: seq<Paso>, i: nat)
    requires Corrida(ss, ps) && Inv(ss[0]) && Perdido(ss[0]) && i < |ss|
    requires forall j :: 0 <= j < |ps| ==> !ps[j].Pide?
    ensures Perdido(ss[i]) && (Quieto(ss[i]) ==> Varado(ss[i]))
  {
    hide Inv, Perdido, Posible, Dar, Varado, Quieto;
    if i > 0 {
      CorridaPerdida(ss, ps, i - 1);
      CorridaConserva(ss, ps, i - 1);
      PerdidoSigue(ss[i - 1], ps[i - 1]);
    }
    PerdidoQuieto(ss[i]);
  }

  lemma PerdidoQuieto(s: Interfaz)
    requires Perdido(s)
    ensures Quieto(s) ==> Varado(s)
  {
    if Quieto(s) {
      assert !Posible(s, EnviaRechazo) && !Posible(s, KernelRecibe);
    }
  }

  /** Where both races end: process 2 in the kernel's list and nothing on its way. */
  function Olvidado(): Interfaz {
    Interfaz({2}, [], None, None, [], [], [], [], [2])
  }

  lemma OlvidadoVarado()
    ensures Varado(Olvidado())
  {
  }

  lemma UnoMas(ss: seq<Interfaz>, ps: seq<Paso>, p: Paso, t: Interfaz) returns (ts: seq<Interfaz>, qs: seq<Paso>)
    requires Corrida(ss, ps) && Posible(ss[|ps|], p) && Dar(ss[|ps|], p) == t
    ensures Corrida(ts, qs) && ts[0] == ss[0] && qs == ps + [p] && ts[|qs|] == t
  {
    hide Posible, Dar;
    ts, qs := ss + [t], ps + [p];
  }

  /** Process 1 takes the interface and process 2 is found busy. */
  lemma Comienzo() returns (ss: seq<Interfaz>, ps: seq<Paso>)
    ensures Corrida(ss, ps) && ss[0] == Vacia() && ps == [Pide(1, true), Atiende, Pide(2, true), Atiende]
    ensures ss[|ps|] == Interfaz({1, 2}, [], Some(2), Some(1), [1], [], [], [], [])
  {
    ss, ps := [Vacia()], [];
    assert Corrida(ss, ps);
    hide Corrida;
    ss, ps := UnoMas(ss, ps, Pide(1, true), Interfaz({1}, [Pedido(1, true)], None, None, [], [], [], [], []));
    ss, ps := UnoMas(ss, ps, Atiende, Interfaz({1}, [], None, Some(1), [1], [], [], [], []));
    ss, ps := UnoMas(ss, ps, Pide(2, true), Interfaz({1, 2}, [Pedido(2, true)], None, Some(1), [1], [], [], [], []));
    ss, ps := UnoMas(ss, ps, Atiende, Interfaz({1, 2}, [], Some(2), Some(1), [1], [], [], [], []));
  }

  /** Process 2 is found busy; process 1 ends, and its end overtakes the refusal. */
  lemma RechazoTardio() returns (ss: seq<Interfaz>, ps: seq<Paso>)
    ensures Corrida(ss, ps) && ss[0] == Vacia() && ss[|ps|] == Olvidado() && Varado(ss[|ps|])
    ensures ps == [Pide(1, true), Atiende, Pide(2, true), Atiende] + [Libera(0), EnviaFin(0), EnviaRechazo] + [KernelRecibe, KernelRecibe]
  {
    hide Corrida, Varado, Quieto;
    ss, ps := RechazoAlFinal();
    assert {1, 2} - {1} == {2};
    ss, ps := UnoMas(ss, ps, KernelRecibe, Interfaz({2}, [], None, None, [], [], [], [Ocupada(2)], []));
    ss, ps := UnoMas(ss, ps, KernelRecibe, Olvidado());
    OlvidadoVarado();
  }

  lemma RechazoAlFinal() returns (ss: seq<Interfaz>, ps: seq<Paso>)
    ensures Corrida(ss, ps) && ss[0] == Vacia()
    ensures ps == [Pide(1, true), Atiende, Pide(2, true), Atiende] + [Libera(0), EnviaFin(0), EnviaRechazo]
    ensures ss[|ps|] == Interfaz({1, 2}, [], None, None, [], [], [], [Fin(1), Ocupada(2)], [])
  {
    hide Corrida;
    ss, ps := Comienzo();
    ss, ps := UnoMas(ss, ps, Libera(0), Interfaz({1, 2}, [], Some(2), None, [], [1], [], [], []));
    ss, ps := UnoMas(ss, ps, EnviaFin(0), Interfaz({1, 2}, [], Some(2), None, [], [], [], [Fin(1)], []));
    ss, ps := UnoMas(ss, ps, EnviaRechazo, Interfaz({1, 2}, [], None, None, [], [], [], [Fin(1), Ocupada(2)], []));
  }

  /** A file write announces its end before it frees the flag, and the process resumed by that end is found busy. */
  lemma FinAntes() returns (ss: seq<Interfaz>, ps: seq<Paso>)
    ensures Corrida(ss, ps) && ss[0] == Vacia() && ss[|ps|] == Olvidado() && Varado(ss[|ps|])
    ensures ps == [Pide(1, true), Atiende, Pide(2, true), Atiende] + [EnviaRechazo, KernelRecibe] + [FinAntesDeLiberar(0), KernelRecibe]
                  + [Atiende, EnviaRechazo] + [KernelRecibe, LiberaDespues(0)]
  {
    hide Corrida, Varado, Quieto;
    ss, ps := SegundoRechazo();
    ss, ps := UnoMas(ss, ps, KernelRecibe, Interfaz({2}, [], None, Some(1), [], [], [1], [], [2]));
    ss, ps := UnoMas(ss, ps, LiberaDespues(0), Olvidado());
    OlvidadoVarado();
  }

  lemma SegundoRechazo() returns (ss: seq<Interfaz>, ps: seq<Paso>)
    ensures Corrida(ss, ps) && ss[0] == Vacia()
    ensures ps == [Pide(1, true), Atiende, Pide(2, true), Atiende] + [EnviaRechazo, KernelRecibe] + [FinAntesDeLiberar(0), KernelRecibe]
                  + [Atiende, EnviaRechazo]
    ensures ss[|ps|] == Interfaz({2}, [], None, Some(1), [], [], [1], [Ocupada(2)], [])
  {
    hide Corrida;
    ss, ps := FinAntesDeTiempo();
    ss, ps := UnoMas(ss, ps, Atiende, Interfaz({2}, [], Some(2), Some(1), [], [], [1], [], []));
    ss, ps := UnoMas(ss, ps, EnviaRechazo, Interfaz({2}, [], None, Some(1), [], [], [1], [Ocupada(2)], []));
  }

  lemma EnLaLista() returns (ss: seq<Interfaz>, ps: seq<Paso>)
    ensures Corrida(ss, ps) && ss[0] == Vacia()
    ensures ps == [Pide(1, true), Atiende, Pide(2, true), Atiende] + [EnviaRechazo, KernelRecibe]
    ensures ss[|ps|] == Interfaz({1, 2}, [], None, Some(1), [1], [], [], [], [2])
  {
    hide Corrida;
    ss, ps := Comienzo();
    ss, ps := UnoMas(ss, ps, EnviaRechazo, Interfaz({1, 2}, [], None, Some(1), [1], [], [], [Ocupada(2)], []));
    ss, ps := UnoMas(ss, ps, KernelRecibe, Interfaz({1, 2}, [], None, Some(1), [1], [], [], [], [2]));
  }

  lemma FinAntesDeTiempo() returns (ss: seq<Interfaz>, ps: seq<Paso>)
    ensures Corrida(ss, ps) && ss[0] == Vacia()
    ensures ps == [Pide(1, true), Atiende, Pide(2, true), Atiende] + [EnviaRechazo, KernelRecibe] + [FinAntesDeLiberar(0), KernelRecibe]
    ensures ss[|ps|] == Interfaz({2}, [Pedido(2, true)], None, Some(1), [], [], [1], [], [])
  {
    hide Corrida;
    ss, ps := EnLaLista();
    assert {1, 2} - {1} == {2};
    ss, ps := UnoMas(ss, ps, FinAntesDeLiberar(0), Interfaz({1, 2}, [], None, Some(1), [], [], [1], [Fin(1)], [2]));
    ss, ps := UnoMas(ss, ps, KernelRecibe, Interfaz({2}, [Pedido(2, true)], None, Some(1), [], [], [1], [], []));
  }
}
