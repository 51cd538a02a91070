/** The protocol between the kernel and one I/O interface: requests and answers over two FIFO channels, a busy flag,
    worker threads, and the kernel's list of processes waiting for the interface. */
module InterfazIO {
  import opened Comunes

  /** `valido` says whether the interface supports the operation. */
  datatype Pedido = Pedido(pid: nat, valido: bool)

  datatype Respuesta = Ocupada(pid: nat) | Fin(pid: nat) | Error(pid: nat)

  /** `rechazo` is a request found busy whose answer is not sent yet. A worker holds the flag while in `trabajando`, and also
      in `finEnviados` if it announced the end first; one in `liberados` has let the flag go and has the end to announce. */
  datatype Interfaz = Interfaz(
    solicitantes: set<nat>,
    pedidos: seq<Pedido>, rechazo: Option<nat>,
    pidUsando: Option<nat>, trabajando: seq<nat>, liberados: seq<nat>, finEnviados: seq<nat>,
    respuestas: seq<Respuesta>, listaBloqueados: seq<nat>)

  datatype Paso =
    | Pide(pid: nat, valido: bool)
    | Atiende
    | EnviaRechazo
    | Libera(i: nat)
    | EnviaFin(i: nat)
    | FinAntesDeLiberar(i: nat)
    | LiberaDespues(i: nat)
    | KernelRecibe

  // ---------------------------------------------------------------- steps

  /** A process asks only while it is not blocked; threads and loops take what there is. The module's loop answers one
      request before it takes the next. */
  predicate Posible(s: Interfaz, p: Paso) {
    match p
    case Pide(pid, _) => pid !in s.solicitantes
    case Atiende => s.pedidos != [] && s.rechazo == None
    case EnviaRechazo => s.rechazo.Some?
    case Libera(i) => i < |s.trabajando|
    case EnviaFin(i) => i < |s.liberados|
    case FinAntesDeLiberar(i) => i < |s.trabajando|
    case LiberaDespues(i) => i < |s.finEnviados|
    case KernelRecibe => s.respuestas != []
  }

  /** `atender_kernel` of the I/O module up to the busy test. */
  function AtenderPedido(s: Interfaz): Interfaz
    requires s.pedidos != []
  {
    var p, resto := s.pedidos[0], s.(pedidos := s.pedidos[1..]);
    if !p.valido then resto.(respuestas := s.respuestas + [Error(p.pid)])
    else if s.pidUsando.Some? then resto.(rechazo := Some(p.pid))
    else resto.(pidUsando := Some(p.pid), trabajando := s.trabajando + [p.pid])
  }

  /** `atender_io` of the kernel. */
  function RecibirRespuesta(s: Interfaz): Interfaz
    requires s.respuestas != []
  {
    var resto := s.(respuestas := s.respuestas[1..]);
    match s.respuestas[0]
    case Ocupada(p) => resto.(listaBloqueados := s.listaBloqueados + [p])
    case Error(p) => resto.(solicitantes := s.solicitantes - {p})
    case Fin(p) =>
      var libre := resto.(solicitantes := s.solicitantes - {p});
      if s.listaBloqueados == [] then libre
      else libre.(listaBloqueados := s.listaBloqueados[1..], pedidos := s.pedidos + [Pedido(s.listaBloqueados[0], true)])
  }

  function Dar(s: Interfaz, p: Paso): Interfaz
    requires Posible(s, p)
  {
    match p
    case Pide(pid, valido) => s.(solicitantes := s.solicitantes + {pid}, pedidos := s.pedidos + [Pedido(pid, valido)])
    case Atiende => AtenderPedido(s)
    case EnviaRechazo => s.(rechazo := None, respuestas := s.respuestas + [Ocupada(s.rechazo.value)])
    case Libera(i) => s.(pidUsando := None, trabajando := Sin(s.trabajando, i), liberados := s.liberados + [s.trabajando[i]])
    case EnviaFin(i) => s.(liberados := Sin(s.liberados, i), respuestas := s.respuestas + [Fin(s.liberados[i])])
    case FinAntesDeLiberar(i) =>
      s.(trabajando := Sin(s.trabajando, i), finEnviados := s.finEnviados + [s.trabajando[i]],
         respuestas := s.respuestas + [Fin(s.trabajando[i])])
    case LiberaDespues(i) => s.(pidUsando := None, finEnviados := Sin(s.finEnviados, i))
    case KernelRecibe => RecibirRespuesta(s)
  }

  /** Nobody has asked for anything. */
  function Vacia(): Interfaz {
    Interfaz({}, [], None, None, [], [], [], [], [])
  }

  // ---------------------------------------------------------------- where each request is

  function DePedidos(ps: seq<Pedido>): (r: seq<nat>)
    ensures |r| == |ps|
  {
    seq(|ps|, i requires 0 <= i < |ps| => ps[i].pid)
  }

  function DeRespuestas(rs: seq<Respuesta>): (r: seq<nat>)
    ensures |r| == |rs|
  {
    seq(|rs|, i requires 0 <= i < |rs| => rs[i].pid)
  }

  /** In how many places a request of the process is: on its way to the interface, being refused, in service, on its way
      back, or in the kernel's list. */
  function Lugares(s: Interfaz, q: nat): nat {
    Veces(DePedidos(s.pedidos), q) + Uno(s.rechazo == Some(q)) + Veces(s.trabajando, q) + Veces(s.liberados, q)
    + Veces(DeRespuestas(s.respuestas), q) + Veces(s.listaBloqueados, q)
  }

  /** Each blocked requester is in exactly one place and nobody else in any; the flag is taken by one worker, or free. */
  ghost predicate Inv(s: Interfaz) {
    (forall q: nat :: Lugares(s, q) == Uno(q in s.solicitantes)) && UnUsuario(s)
  }

  predicate UnUsuario(s: Interfaz) {
    |s.trabajando| + |s.finEnviados| == Uno(s.pidUsando.Some?)
  }

  lemma PedidoNuevo(ps: seq<Pedido>, p: Pedido, q: nat)
    ensures Veces(DePedidos(ps + [p]), q) == Veces(DePedidos(ps), q) + Uno(p.pid == q)
  {
    assert DePedidos(ps + [p]) == DePedidos(ps) + [p.pid];
    VecesUltimo(DePedidos(ps), p.pid, q);
  }

  lemma PedidoTomado(ps: seq<Pedido>, q: nat)
    requires ps != []
    ensures Veces(DePedidos(ps), q) == Uno(ps[0].pid == q) + Veces(DePedidos(ps[1..]), q)
  {
    assert DePedidos(ps[1..]) == DePedidos(ps)[1..];
    VecesSin(DePedidos(ps), 0, q);
    assert Sin(DePedidos(ps), 0) == DePedidos(ps)[1..];
  }

  lemma RespuestaNueva(rs: seq<Respuesta>, r: Respuesta, q: nat)
    ensures Veces(DeRespuestas(rs + [r]), q) == Veces(DeRespuestas(rs), q) + Uno(r.pid == q)
  {
    assert DeRespuestas(rs + [r]) == DeRespuestas(rs) + [r.pid];
    VecesUltimo(DeRespuestas(rs), r.pid, q);
  }

  lemma RespuestaTomada(rs: seq<Respuesta>, q: nat)
    requires rs != []
    ensures Veces(DeRespuestas(rs), q) == Uno(rs[0].pid == q) + Veces(DeRespuestas(rs[1..]), q)
  {
    assert DeRespuestas(rs[1..]) == DeRespuestas(rs)[1..];
    VecesSin(DeRespuestas(rs), 0, q);
    assert Sin(DeRespuestas(rs), 0) == DeRespuestas(rs)[1..];
  }

  /** Whatever the order of the steps, no request is lost or doubled. */
  lemma PasoInv(s: Interfaz, p: Paso)
    requires Inv(s) && Posible(s, p)
    ensures Inv(Dar(s, p))
  {
    PasoUsuario(s, p);
    hide Lugares, Dar, UnUsuario, Posible;
    forall q: nat ensures Lugares(Dar(s, p), q) == Uno(q in Dar(s, p).solicitantes) {
      PasoLugares(s, p, q);
    }
  }

  /** The request that the module takes goes to service exactly when it is supported and the flag is free, which it takes; it is to be
      refused exactly when it is supported and the flag is taken, and gets an error otherwise. Nobody else changes place. */
  lemma AtiendeSii(s: Interfaz)
    requires Inv(s) && Posible(s, Atiende)
    ensures var p, r := s.pedidos[0], Dar(s, Atiende);
            && (p.pid in r.trabajando <==> p.valido && s.pidUsando == None)
            && (p.valido && s.pidUsando == None ==> r.trabajando == s.trabajando + [p.pid] && r.pidUsando == Some(p.pid))
            && (r.rechazo == Some(p.pid) <==> p.valido && s.pidUsando.Some?)
            && (Error(p.pid) in r.respuestas <==> !p.valido)
            && r.liberados == s.liberados && r.finEnviados == s.finEnviados && r.listaBloqueados == s.listaBloqueados
            && r.solicitantes == s.solicitantes && s.respuestas <= r.respuestas && s.trabajando <= r.trabajando
  {
    var q := s.pedidos[0].pid;
    assert Lugares(s, q) == Uno(q in s.solicitantes);
    hide Inv, DePedidos, DeRespuestas, Veces;
    PedidoTomado(s.pedidos, q);
    NoEsta(s.trabajando, q);
    NoResponde(s.respuestas, q);
  }

  lemma {:induction false} NoEsta(l: seq<nat>, q: nat)
    requires Veces(l, q) == 0
    ensures q !in l
  {
    forall i | 0 <= i < |l| ensures l[i] != q {
      VecesSin(l, i, q);
    }
  }

  lemma NoResponde(rs: seq<Respuesta>, q: nat)
    requires Veces(DeRespuestas(rs), q) == 0
    ensures forall r :: r in rs ==> r.pid != q
  {
    NoEsta(DeRespuestas(rs), q);
    forall i | 0 <= i < |rs| ensures rs[i].pid != q {
      assert DeRespuestas(rs)[i] == rs[i].pid;
    }
  }

  lemma PasoUsuario(s: Interfaz, p: Paso)
    requires UnUsuario(s) && Posible(s, p)
    ensures UnUsuario(Dar(s, p))
  {
  }

  lemma PasoLugares(s: Interfaz, p: Paso, q: nat)
    requires Inv(s) && Posible(s, p)
    ensures Lugares(Dar(s, p), q) == Uno(q in Dar(s, p).solicitantes)
  {
    assert Lugares(s, q) == Uno(q in s.solicitantes);
    hide Veces, Inv, UnUsuario, RecibirRespuesta, AtenderPedido, DePedidos, DeRespuestas, Sin;
    match p
    case Pide(pid, valido) => PedidoNuevo(s.pedidos, Pedido(pid, valido), q);
    case Atiende => AtiendeLugares(s, q);
    case EnviaRechazo => RespuestaNueva(s.respuestas, Ocupada(s.rechazo.value), q);
    case Libera(_) => ObreroLugares(s, p, q);
    case EnviaFin(_) => ObreroLugares(s, p, q);
    case FinAntesDeLiberar(_) => ObreroLugares(s, p, q);
    case LiberaDespues(_) => ObreroLugares(s, p, q);
    case KernelRecibe => RecibirLugares(s, q);
  }

  lemma ObreroLugares(s: Interfaz, p: Paso, q: nat)
    requires Posible(s, p) && (p.Libera? || p.EnviaFin? || p.FinAntesDeLiberar? || p.LiberaDespues?)
    ensures Dar(s, p).solicitantes == s.solicitantes && Lugares(Dar(s, p), q) == Lugares(s, q)
  {
    hide Veces, DePedidos, DeRespuestas, Sin;
    if p.EnviaFin? {
      VecesSin(s.liberados, p.i, q);
      RespuestaNueva(s.respuestas, Fin(s.liberados[p.i]), q);
    } else if p.Libera? {
      VecesSin(s.trabajando, p.i, q);
      VecesUltimo(s.liberados, s.trabajando[p.i], q);
    } else if p.FinAntesDeLiberar? {
      VecesSin(s.trabajando, p.i, q);
      RespuestaNueva(s.respuestas, Fin(s.trabajando[p.i]), q);
    }
  }

  lemma AtiendeLugares(s: Interfaz, q: nat)
    requires s.pedidos != [] && s.rechazo == None
    ensures Lugares(AtenderPedido(s), q) == Lugares(s, q)
  {
    hide Veces, DePedidos, DeRespuestas;
    PedidoTomado(s.pedidos, q);
    RespuestaNueva(s.respuestas, Error(s.pedidos[0].pid), q);
    VecesUltimo(s.trabajando, s.pedidos[0].pid, q);
  }

  lemma RecibirLugares(s: Interfaz, q: nat)
    requires Inv(s) && s.respuestas != []
    ensures Lugares(RecibirRespuesta(s), q) == Uno(q in RecibirRespuesta(s).solicitantes)
    ensures s.respuestas[0].pid in s.solicitantes
  {
    var p := s.respuestas[0].pid;
    assert Lugares(s, q) == Uno(q in s.solicitantes) && Lugares(s, p) == Uno(p in s.solicitantes);
    hide Veces, Inv, UnUsuario, DePedidos, DeRespuestas;
    RespuestaTomada(s.respuestas, q);
    RespuestaTomada(s.respuestas, p);
    VecesUltimo(s.listaBloqueados, p, q);
    if s.listaBloqueados != [] {
      VecesSin(s.listaBloqueados, 0, q);
      assert Sin(s.listaBloqueados, 0) == s.listaBloqueados[1..];
      PedidoNuevo(s.pedidos, Pedido(s.listaBloqueados[0], true), q);
    }
  }

  // ---------------------------------------------------------------- progress

  /** A worker that has the end of its operation still to announce. */
  predicate Activo(s: Interfaz) {
    s.trabajando != [] || s.liberados != []
  }

  ghost predicate HayFin(rs: seq<Respuesta>, desde: int) {
    exists j :: desde <= j < |rs| && 0 <= j && rs[j].Fin?
  }

  ghost predicate HayValido(ps: seq<Pedido>) {
    exists j :: 0 <= j < |ps| && ps[j].valido
  }

  /** Whoever waits, or is about to, has an end of operation coming behind it: a worker, an end on its way after its own
      busy answer, or a request that will become a worker. */
  ghost predicate Progreso(s: Interfaz) {
    && (s.rechazo.Some? ==> Activo(s))
    && (forall i :: 0 <= i < |s.respuestas| && s.respuestas[i].Ocupada? ==> Activo(s) || HayFin(s.respuestas, i))
    && (s.listaBloqueados != [] ==> Activo(s) || HayFin(s.respuestas, 0) || HayValido(s.pedidos))
  }

  /** The last worker with an end to announce announces it while a refusal is decided and not sent. */
  predicate FinConRechazo(s: Interfaz, p: Paso) {
    s.rechazo.Some? && |s.trabajando| + |s.liberados| == 1 && (p.EnviaFin? || p.FinAntesDeLiberar?)
  }

  /** A request is found busy although no worker has an end to announce: the one with the flag announced it before. */
  predicate OcupadaSinObrero(s: Interfaz, p: Paso) {
    p.Atiende? && s.pedidos != [] && s.pedidos[0].valido && s.pidUsando.Some? && !Activo(s)
  }

  predicate Carrera(s: Interfaz, p: Paso) {
    FinConRechazo(s, p) || OcupadaSinObrero(s, p)
  }

  /** A step keeps the guarantee of progress if and only if it is not one of the two races. */
  lemma PasoProgresoSii(s: Interfaz, p: Paso)
    requires Inv(s) && Progreso(s) && Posible(s, p)
    ensures Progreso(Dar(s, p)) <==> !Carrera(s, p)
  {
    match p
    case Pide(pid, valido) => PideProgreso(s, pid, valido);
    case Atiende => AtiendeProgreso(s);
    case EnviaRechazo => EnviaRechazoProgreso(s);
    case Libera(i) =>
    case EnviaFin(i) => EnviaFinProgreso(s, i);
    case FinAntesDeLiberar(i) => FinAntesProgreso(s, i);
    case LiberaDespues(i) =>
    case KernelRecibe => RecibeProgreso(s);
  }

  lemma FinAntesProgreso(s: Interfaz, i: nat)
    requires Inv(s) && Progreso(s) && i < |s.trabajando|
    ensures Progreso(Dar(s, FinAntesDeLiberar(i))) <==> !Carrera(s, FinAntesDeLiberar(i))
  {
    var r := Dar(s, FinAntesDeLiberar(i));
    var n := |s.respuestas|;
    assert r.respuestas[n].Fin?;
    assert forall j :: 0 <= j <= n ==> HayFin(r.respuestas, j);
  }

  lemma PideProgreso(s: Interfaz, pid: nat, valido: bool)
    requires Progreso(s)
    ensures Progreso(s.(solicitantes := s.solicitantes + {pid}, pedidos := s.pedidos + [Pedido(pid, valido)]))
  {
    var ps := s.pedidos + [Pedido(pid, valido)];
    if HayValido(s.pedidos) {
      var j :| 0 <= j < |s.pedidos| && s.pedidos[j].valido;
      assert ps[j].valido;
    }
  }

  lemma FinSigue(rs: seq<Respuesta>, r: Respuesta, desde: int)
    requires HayFin(rs, desde)
    ensures HayFin(rs + [r], desde)
  {
    var j :| desde <= j < |rs| && 0 <= j && rs[j].Fin?;
    assert (rs + [r])[j].Fin?;
  }

  lemma AtiendeProgreso(s: Interfaz)
    requires Inv(s) && Progreso(s) && s.pedidos != [] && s.rechazo == None
    ensures Progreso(AtenderPedido(s)) <==> !Carrera(s, Atiende)
  {
    var r := AtenderPedido(s);
    if !s.pedidos[0].valido {
      var e := Error(s.pedidos[0].pid);
      forall i | 0 <= i < |r.respuestas| && r.respuestas[i].Ocupada? ensures Activo(r) || HayFin(r.respuestas, i) {
        assert s.respuestas[i].Ocupada?;
        if HayFin(s.respuestas, i) {
          FinSigue(s.respuestas, e, i);
        }
      }
      if HayFin(s.respuestas, 0) {
        FinSigue(s.respuestas, e, 0);
      }
      if HayValido(s.pedidos) {
        var j :| 0 <= j < |s.pedidos| && s.pedidos[j].valido;
        assert r.pedidos[j - 1].valido;
      }
    }
  }

  lemma EnviaRechazoProgreso(s: Interfaz)
    requires Progreso(s) && s.rechazo.Some?
    ensures Progreso(s.(rechazo := None, respuestas := s.respuestas + [Ocupada(s.rechazo.value)]))
  {
    assert Activo(s);
  }

  lemma EnviaFinProgreso(s: Interfaz, i: nat)
    requires Inv(s) && Progreso(s) && i < |s.liberados|
    ensures Progreso(Dar(s, EnviaFin(i))) <==> !Carrera(s, EnviaFin(i))
  {
    var r := Dar(s, EnviaFin(i));
    var n := |s.respuestas|;
    assert r.respuestas[n].Fin?;
    assert forall j :: 0 <= j <= n ==> HayFin(r.respuestas, j);
  }

  lemma RecibeProgreso(s: Interfaz)
    requires Inv(s) && Progreso(s) && s.respuestas != []
    ensures Progreso(RecibirRespuesta(s))
  {
    var r := RecibirRespuesta(s);
    assert Activo(s) ==> Activo(r);
    forall i | 0 <= i < |r.respuestas| && r.respuestas[i].Ocupada? ensures Activo(r) || HayFin(r.respuestas, i) {
      assert s.respuestas[i + 1].Ocupada?;
      if HayFin(s.respuestas, i + 1) {
        FinDespues(s.respuestas, i + 1);
      }
    }
    match s.respuestas[0]
    case Ocupada(p) =>
      if HayFin(s.respuestas, 0) {
        FinDespues(s.respuestas, 0);
      }
    case Error(p) =>
      if HayFin(s.respuestas, 0) {
        FinDespues(s.respuestas, 0);
      }
    case Fin(p) =>
      if s.listaBloqueados != [] {
        assert r.pedidos[|s.pedidos|].valido;
      }
  }

  /** An end that is not the first answer is still there when the first one has been taken. */
  lemma FinDespues(rs: seq<Respuesta>, desde: nat)
    requires HayFin(rs, desde) && (desde > 0 || !rs[0].Fin?)
    ensures HayFin(rs[1..], if desde > 0 then desde - 1 else 0)
  {
    var j :| desde <= j < |rs| && 0 <= j && rs[j].Fin?;
    assert rs[1..][j - 1].Fin?;
  }

  // ---------------------------------------------------------------- everybody is served

  /** What is left to do for the requests there are. */
  function Trabajo(s: Interfaz): nat {
    8 * |s.solicitantes| + 6 * |s.pedidos| + 5 * Uno(s.rechazo.Some?) + 4 * |s.trabajando| + 3 * |s.liberados| + |s.finEnviados| + |s.respuestas|
  }

  /** Without new requests every step gets closer to the end. */
  lemma PasoAvanza(s: Interfaz, p: Paso)
    requires Inv(s) && Posible(s, p) && !p.Pide?
    ensures Trabajo(Dar(s, p)) < Trabajo(s)
  {
    if p.KernelRecibe? {
      RecibirAvanza(s);
    } else {
      hide Inv;
    }
  }

  lemma RecibirAvanza(s: Interfaz)
    requires Inv(s) && s.respuestas != []
    ensures Trabajo(RecibirRespuesta(s)) < Trabajo(s)
  {
    RecibirLugares(s, 0);
    hide Inv;
    var p := s.respuestas[0].pid;
    assert |s.solicitantes - {p}| == |s.solicitantes| - 1;
  }

  ghost predicate Quieto(s: Interfaz) {
    forall p: Paso :: Posible(s, p) ==> p.Pide?
  }

  /** When nothing is left to do, nobody is left waiting. */
  lemma QuietoSinEspera(s: Interfaz)
    requires Inv(s) && Progreso(s) && Quieto(s)
    ensures s.solicitantes == {}
  {
    assert !Posible(s, EnviaRechazo) && !Posible(s, Atiende) && !Posible(s, KernelRecibe);
    assert !Posible(s, Libera(0)) && !Posible(s, EnviaFin(0)) && !Posible(s, LiberaDespues(0));
    forall q: nat ensures q !in s.solicitantes {
      assert Lugares(s, q) == Uno(q in s.solicitantes);
    }
  }

  ghost predicate Corrida(ss: seq<Interfaz>, ps: seq<Paso>) {
    && |ss| == |ps| + 1
    && forall i :: 0 <= i < |ps| ==> Posible(ss[i], ps[i]) && ss[i + 1] == Dar(ss[i], ps[i])
  }

  /** In every run each blocked requester is in exactly one place. */
  lemma {:induction false} CorridaConserva(ss: seq<Interfaz>, ps: seq<Paso>, i: nat)
    requires Corrida(ss, ps) && Inv(ss[0]) && i < |ss|
    ensures Inv(ss[i])
  {
    hide Inv, Posible, Dar;
    if i > 0 {
      CorridaConserva(ss, ps, i - 1);
      PasoInv(ss[i - 1], ps[i - 1]);
    }
  }

  /** In every run without races whoever waits has an end of operation coming. */
  lemma {:induction false} CorridaProgresa(ss: seq<Interfaz>, ps: seq<Paso>, i: nat)
    requires Corrida(ss, ps) && Inv(ss[0]) && Progreso(ss[0]) && i < |ss|
    requires forall j :: 0 <= j < |ps| ==> !Carrera(ss[j], ps[j])
    ensures Inv(ss[i]) && Progreso(ss[i])
  {
    hide Inv, Progreso, Posible, Dar, Carrera;
    if i > 0 {
      CorridaProgresa(ss, ps, i - 1);
      PasoInv(ss[i - 1], ps[i - 1]);
      PasoProgresoSii(ss[i - 1], ps[i - 1]);
    }
  }

  /** No request is stranded: in a run without races, once requests stop coming at step `n` only so many steps are
      possible, and if the run then stops because nothing else can happen, every requester has been answered. */
  lemma TodosAtendidos(ss: seq<Interfaz>, ps: seq<Paso>, n: nat)
    requires Corrida(ss, ps) && Inv(ss[0]) && Progreso(ss[0]) && n <= |ps|
    requires forall j :: 0 <= j < |ps| ==> !Carrera(ss[j], ps[j])
    requires forall j :: n <= j < |ps| ==> !ps[j].Pide?
    ensures |ps| - n <= Trabajo(ss[n])
    ensures Quieto(ss[|ps|]) ==> ss[|ps|].solicitantes == {}
  {
    hide Trabajo, Posible, Dar, Carrera, Inv, Progreso;
    Acotada(ss, ps, n, |ps|);
    CorridaProgresa(ss, ps, |ps|);
    if Quieto(ss[|ps|]) {
      QuietoSinEspera(ss[|ps|]);
    }
  }

  lemma {:induction false} Acotada(ss: seq<Interfaz>, ps: seq<Paso>, n: nat, m: nat)
    requires Corrida(ss, ps) && Inv(ss[0]) && n <= m <= |ps|
    requires forall j :: n <= j < m ==> !ps[j].Pide?
    ensures m - n + Trabajo(ss[m]) <= Trabajo(ss[n])
    decreases m - n
  {
    hide Trabajo, Posible, Dar, Inv;
    if n < m {
      Acotada(ss, ps, n, m - 1);
      CorridaConserva(ss, ps, m - 1);
      PasoAvanza(ss[m - 1], ps[m - 1]);
    }
  }
}
