/** Order in the channels between the kernel and an interface, and in the kernel's list of it. */
module InterfazOrden {
  import opened Comunes
  import opened Orden
  import opened InterfazIO

  /** The kernel's list of an interface advances as a queue. */
  lemma ListaAvanza(s: Interfaz, p: Paso)
    requires Inv(s) && Posible(s, p)
    ensures Avanza(s.listaBloqueados, Dar(s, p).listaBloqueados, None) && SinRepetidos(s.listaBloqueados)
  {
    hide Inv, Avanza, SinRepetidos, Lugares;
    var l := s.listaBloqueados;
    UnaVezEnLaLista(s);
    MismaColaAvanza(l, None);
    if p.KernelRecibe? {
      var r := s.respuestas[0];
      if r.Ocupada? {
        LlegaUnaVez(s);
        assert l[0..] == l;
        UnAvance(l, l + [r.pid], None, 0, [r.pid]);
      } else if r.Fin? && l != [] {
        AvanzaPorDespacho(l);
      }
    }
  }

  lemma {:induction false} VecesRepetido(s: seq<nat>, i: nat, j: nat)
    requires i < j < |s| && s[i] == s[j]
    ensures Veces(s, s[i]) >= 2
  {
    VecesSin(s, j, s[i]);
    assert Sin(s, j)[i] == s[i];
    VecesSin(Sin(s, j), i, s[i]);
  }

  lemma UnaVezEnLaLista(s: Interfaz)
    requires Inv(s)
    ensures SinRepetidos(s.listaBloqueados)
  {
    var l := s.listaBloqueados;
    forall i, j | 0 <= i < j < |l| ensures l[i] != l[j] {
      assert Lugares(s, l[i]) == Uno(l[i] in s.solicitantes);
      if l[i] == l[j] {
        VecesRepetido(l, i, j);
      }
    }
  }

  /** A process on its way to the list is not in it yet. */
  lemma LlegaUnaVez(s: Interfaz)
    requires Inv(s) && s.respuestas != []
    ensures s.respuestas[0].pid !in s.listaBloqueados
  {
    var p, l := s.respuestas[0].pid, s.listaBloqueados;
    assert Lugares(s, p) == Uno(p in s.solicitantes);
    RespuestaTomada(s.respuestas, p);
    forall i | 0 <= i < |l| ensures l[i] != p {
      VecesSin(l, i, p);
    }
  }

  /** Whoever waits for an interface is resumed before those that came to the list after it. */
  lemma {:induction false} ListaEnOrden(ss: seq<Interfaz>, ps: seq<Paso>, i: nat, j: nat, p: nat, q: nat)
    requires Corrida(ss, ps) && Inv(ss[0]) && i <= j <= |ps|
    requires Antes(ss[i].listaBloqueados, p, q)
    requires forall n :: i <= n <= j ==> p in ss[n].listaBloqueados
    ensures Antes(ss[j].listaBloqueados, p, q)
    decreases j - i
  {
    hide Inv, Posible, Dar, Antes, Avanza, SinRepetidos;
    if i < j {
      ListaEnOrden(ss, ps, i, j - 1, p, q);
      CorridaConserva(ss, ps, j - 1);
      ListaAvanza(ss[j - 1], ps[j - 1]);
      OrdenSigue(ss[j - 1].listaBloqueados, ss[j].listaBloqueados, None, p, q);
    }
  }

  // ---------------------------------------------------------------- channels

  /** The request that a step sends: by a process, or again by the first of the list when an operation ends. */
  function PedidoEnviado(s: Interfaz, p: Paso): seq<Pedido> {
    if p.Pide? then [Pedido(p.pid, p.valido)]
    else if p.KernelRecibe? && s.respuestas != [] && s.respuestas[0].Fin? && s.listaBloqueados != [] then [Pedido(s.listaBloqueados[0], true)]
    else []
  }

  function PedidoRecibido(s: Interfaz, p: Paso): seq<Pedido> {
    if p.Atiende? && s.pedidos != [] then [s.pedidos[0]] else []
  }

  /** The answer that a step sends: an error for an operation that is not supported, the refusal of the request found busy, or the
      end of a worker's operation. */
  function RespuestaEnviada(s: Interfaz, p: Paso): seq<Respuesta>
    requires Posible(s, p)
  {
    match p
    case Atiende => if s.pedidos[0].valido then [] else [Error(s.pedidos[0].pid)]
    case EnviaRechazo => [Ocupada(s.rechazo.value)]
    case EnviaFin(i) => [Fin(s.liberados[i])]
    case FinAntesDeLiberar(i) => [Fin(s.trabajando[i])]
    case _ => []
  }

  function RespuestaRecibida(s: Interfaz, p: Paso): seq<Respuesta> {
    if p.KernelRecibe? && s.respuestas != [] then [s.respuestas[0]] else []
  }

  /** What the first `n` steps sent and received. */
  ghost function Pedidos(ss: seq<Interfaz>, ps: seq<Paso>, n: nat): (seq<Pedido>, seq<Pedido>)
    requires Corrida(ss, ps) && n <= |ps|
  {
    if n == 0 then ([], [])
    else
      var (e, r) := Pedidos(ss, ps, n - 1);
      (e + PedidoEnviado(ss[n - 1], ps[n - 1]), r + PedidoRecibido(ss[n - 1], ps[n - 1]))
  }

  ghost function Respuestas(ss: seq<Interfaz>, ps: seq<Paso>, n: nat): (seq<Respuesta>, seq<Respuesta>)
    requires Corrida(ss, ps) && n <= |ps|
  {
    if n == 0 then ([], [])
    else
      var (e, r) := Respuestas(ss, ps, n - 1);
      (e + RespuestaEnviada(ss[n - 1], ps[n - 1]), r + RespuestaRecibida(ss[n - 1], ps[n - 1]))
  }

  lemma PasoCanales(s: Interfaz, p: Paso)
    requires Posible(s, p)
    ensures PedidoRecibido(s, p) + Dar(s, p).pedidos == s.pedidos + PedidoEnviado(s, p)
    ensures RespuestaRecibida(s, p) + Dar(s, p).respuestas == s.respuestas + RespuestaEnviada(s, p)
  {
  }

  lemma Encadena<T>(r: seq<T>, c: seq<T>, e: seq<T>, c0: seq<T>, rn: seq<T>, d: seq<T>, en: seq<T>)
    requires r + c == c0 + e && rn + d == c + en
    ensures (r + rn) + d == c0 + (e + en)
  {
    assert (r + rn) + d == r + (rn + d) == (r + c) + en;
  }

  /** Both channels are FIFO: at any point of any run, what has been received and what is on its way are, in that order, what was
      there at first and what has been sent. */
  lemma {:induction false} CanalesFifo(ss: seq<Interfaz>, ps: seq<Paso>, n: nat)
    requires Corrida(ss, ps) && n <= |ps|
    ensures var (enviados, recibidos) := Pedidos(ss, ps, n); recibidos + ss[n].pedidos == ss[0].pedidos + enviados
    ensures var (enviadas, recibidas) := Respuestas(ss, ps, n); recibidas + ss[n].respuestas == ss[0].respuestas + enviadas
  {
    hide Posible, Dar, PedidoEnviado, PedidoRecibido, RespuestaEnviada, RespuestaRecibida;
    if n > 0 {
      CanalesFifo(ss, ps, n - 1);
      var s, p := ss[n - 1], ps[n - 1];
      PasoCanales(s, p);
      var (e, r) := Pedidos(ss, ps, n - 1);
      Encadena(r, s.pedidos, e, ss[0].pedidos, PedidoRecibido(s, p), ss[n].pedidos, PedidoEnviado(s, p));
      var (e', r') := Respuestas(ss, ps, n - 1);
      Encadena(r', s.respuestas, e', ss[0].respuestas, RespuestaRecibida(s, p), ss[n].respuestas, RespuestaEnviada(s, p));
    }
  }
}
