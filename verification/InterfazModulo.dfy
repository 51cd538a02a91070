/** One interface as the objects the kernel and the I/O module update in place. Each method is what a thread does between
    two operations on a mutex or a socket: it keeps every request in one place, and it keeps the guarantee that whoever
    waits has an end coming unless it is a race. */
module InterfazModulo {
  import opened Comunes
  import opened InterfazIO

  class Conexion {
    ghost var solicitantes: set<nat>
    var pedidos: seq<Pedido>
    var rechazo: Option<nat>
    var pidUsandoInterfaz: Option<nat>
    var trabajando: seq<nat>
    var liberados: seq<nat>
    var finEnviados: seq<nat>
    var respuestas: seq<Respuesta>
    var listaBloqueados: seq<nat>

    ghost function Valor(): Interfaz
      reads this
    {
      Interfaz(solicitantes, pedidos, rechazo, pidUsandoInterfaz, trabajando, liberados, finEnviados, respuestas, listaBloqueados)
    }

    constructor ()
      ensures Valor() == Vacia() && Inv(Valor()) && Progreso(Valor())
    {
      solicitantes, pedidos, rechazo, pidUsandoInterfaz := {}, [], None, None;
      trabajando, liberados, finEnviados, respuestas, listaBloqueados := [], [], [], [], [];
    }

    /** A blocked process sends its request. */
    method EnviarPedido(pid: nat, valido: bool)
      requires Inv(Valor()) && Posible(Valor(), Pide(pid, valido))
      modifies this
      ensures Valor() == Dar(old(Valor()), Pide(pid, valido))
      ensures Inv(Valor())
      ensures old(Progreso(Valor())) ==> Progreso(Valor())
    {
      Conserva(Valor(), Pide(pid, valido));
      hide Inv, Progreso;
      solicitantes := solicitantes + {pid};
      pedidos := pedidos + [Pedido(pid, valido)];
    }

    /** The I/O module takes a request: unsupported, refused because the flag is taken, or handed to a new worker. */
    method AtenderKernel()
      requires Inv(Valor()) && Posible(Valor(), Atiende)
      modifies this
      ensures Valor() == Dar(old(Valor()), Atiende)
      ensures Inv(Valor())
      ensures old(Progreso(Valor())) ==> (Progreso(Valor()) <==> !old(pedidos[0].valido && pidUsandoInterfaz.Some? && trabajando == [] && liberados == []))
    {
      Conserva(Valor(), Atiende);
      hide Inv, Progreso;
      var p := pedidos[0];
      pedidos := pedidos[1..];
      if !p.valido {
        respuestas := respuestas + [Error(p.pid)];
      } else if pidUsandoInterfaz.Some? {
        rechazo := Some(p.pid);
      } else {
        pidUsandoInterfaz := Some(p.pid);
        trabajando := trabajando + [p.pid];
      }
    }

    /** The refusal is sent, once the mutex is free. */
    method EnviarOcupada()
      requires Inv(Valor()) && Posible(Valor(), EnviaRechazo)
      modifies this
      ensures Valor() == Dar(old(Valor()), EnviaRechazo)
      ensures Inv(Valor())
      ensures old(Progreso(Valor())) ==> Progreso(Valor())
    {
      Conserva(Valor(), EnviaRechazo);
      hide Inv, Progreso;
      respuestas := respuestas + [Ocupada(rechazo.value)];
      rechazo := None;
    }

    /** A worker frees the flag before it announces the end. */
    method LiberarInterfaz(i: nat)
      requires Inv(Valor()) && Posible(Valor(), Libera(i))
      modifies this
      ensures Valor() == Dar(old(Valor()), Libera(i))
      ensures Inv(Valor())
      ensures old(Progreso(Valor())) ==> Progreso(Valor())
    {
      Conserva(Valor(), Libera(i));
      hide Inv, Progreso;
      pidUsandoInterfaz := None;
      liberados := liberados + [trabajando[i]];
      trabajando := Sin(trabajando, i);
    }

    method EnviarFinIO(i: nat)
      requires Inv(Valor()) && Posible(Valor(), EnviaFin(i))
      modifies this
      ensures Valor() == Dar(old(Valor()), EnviaFin(i))
      ensures Inv(Valor())
      ensures old(Progreso(Valor())) ==> (Progreso(Valor()) <==> !old(rechazo.Some? && trabajando == [] && |liberados| == 1))
    {
      Conserva(Valor(), EnviaFin(i));
      hide Inv, Progreso;
      respuestas := respuestas + [Fin(liberados[i])];
      liberados := Sin(liberados, i);
    }

    /** The worker of a file write announces the end first. */
    method EnviarFinDeEscritura(i: nat)
      requires Inv(Valor()) && Posible(Valor(), FinAntesDeLiberar(i))
      modifies this
      ensures Valor() == Dar(old(Valor()), FinAntesDeLiberar(i))
      ensures Inv(Valor())
      ensures old(Progreso(Valor())) ==> (Progreso(Valor()) <==> !old(rechazo.Some? && |trabajando| == 1 && liberados == []))
    {
      Conserva(Valor(), FinAntesDeLiberar(i));
      hide Inv, Progreso;
      respuestas := respuestas + [Fin(trabajando[i])];
      finEnviados := finEnviados + [trabajando[i]];
      trabajando := Sin(trabajando, i);
    }

    method LiberarTrasEscritura(i: nat)
      requires Inv(Valor()) && Posible(Valor(), LiberaDespues(i))
      modifies this
      ensures Valor() == Dar(old(Valor()), LiberaDespues(i))
      ensures Inv(Valor())
      ensures old(Progreso(Valor())) ==> Progreso(Valor())
    {
      Conserva(Valor(), LiberaDespues(i));
      hide Inv, Progreso;
      pidUsandoInterfaz := None;
      finEnviados := Sin(finEnviados, i);
    }

    /** The kernel takes an answer: a busy one goes to the list, an end resumes its process and the first of the list. */
    method AtenderIO()
      requires Inv(Valor()) && Posible(Valor(), KernelRecibe)
      modifies this
      ensures Valor() == Dar(old(Valor()), KernelRecibe)
      ensures Inv(Valor())
      ensures old(Progreso(Valor())) ==> Progreso(Valor())
    {
      Conserva(Valor(), KernelRecibe);
      hide Inv, Progreso;
      var r := respuestas[0];
      respuestas := respuestas[1..];
      match r {
        case Ocupada(p) =>
          listaBloqueados := listaBloqueados + [p];
        case Error(p) =>
          solicitantes := solicitantes - {p};
        case Fin(p) =>
          solicitantes := solicitantes - {p};
          if |listaBloqueados| > 0 {
            pedidos := pedidos + [Pedido(listaBloqueados[0], true)];
            listaBloqueados := listaBloqueados[1..];
          }
      }
    }
  }

  lemma Conserva(s: Interfaz, p: Paso)
    requires Inv(s) && Posible(s, p)
    ensures Inv(Dar(s, p))
    ensures Progreso(s) ==> (Progreso(Dar(s, p)) <==> !Carrera(s, p))
  {
    hide Inv, Progreso, Carrera, Dar, Posible;
    PasoInv(s, p);
    if Progreso(s) {
      PasoProgresoSii(s, p);
    }
  }
}
