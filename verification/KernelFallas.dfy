/** Runs in which killing a process from the console leaves the kernel stuck, or lets in one process too many. */
module KernelFallas {
  import opened Comunes
  import opened KernelEstado
  import opened KernelRecursos
  import opened KernelPasos
  import opened KernelSucesos
  import opened KernelSemaforos
  import opened KernelPrioridad
  import opened KernelCorridas

  /** Whenever a process dies waiting for what it holds in the way that loses a unit, one waiter more than units owed
      stays in the queue: the last of them is never served by returning what is owed. */
  lemma QuedaVarado(k: Kernel, p: nat, r: string)
    requires Inv(k) && Creado(k, p) && p in k.pcbs && k.estados[p - 1] != EXITT && PierdeUnidad(k, p, r)
    ensures r in Eliminar(k, p).recursos
    ensures var rec := Eliminar(k, p).recursos[r];
            rec.instancias <= 0 && |rec.bloqueados| == 1 - rec.instancias
  {
    EnSuCola(k, p, r);
    var rec, c := k.recursos[r], Veces(k.pcbs[p].tomados, r);
    RecuentoAlDejar(rec, p, c);
    assert |rec.bloqueados| == -rec.instancias;
    hide Inv, InvColas, InvRecursos, Recuento, Veces, Sacar, Devolver;
    DevueltoEs(k, p);
    DevueltoDef(k, p);
    SacarPcbs(k, p);
    var s := Devuelto(k, p);
    assert s.recursos[r].bloqueados == rec.bloqueados[c..];
    assert Eliminar(k, p).recursos[r] == Recurso(s.recursos[r].instancias + 1, Quitar(s.recursos[r].bloqueados, p));
  }

  /** A kernel as it starts, under FIFO. */
  function Inicial(recursos: map<string, Recurso>, grado: int): Kernel {
    Kernel(FIFO, 1, Colas([], [], [], [], [], []), map[], [], recursos, 1, 0, grado, false, false, false)
  }

  /** A process in `estado` that has used no quantum. */
  function Proceso(estado: Estado, tomados: seq<string>, esperando: Option<string>): Pcb {
    Pcb(estado, 0, 0, tomados, esperando)
  }

  lemma UnoMas(ks: seq<Kernel>, ss: seq<Suceso>, s: Suceso, t: Kernel) returns (rs: seq<Kernel>, us: seq<Suceso>)
    requires Corrida(ks, ss) && Posible(ks[|ss|], s) && Paso(ks[|ss|], s) == t
    ensures Corrida(rs, us) && rs[0] == ks[0] && us == ss + [s] && rs[|us|] == t
  {
    hide Posible, Paso;
    rs, us := ks + [t], ss + [s];
    assert forall i :: 0 <= i < |ss| ==> Sigue(ks[i], ss[i], ks[i + 1]);
  }

  lemma Comienzo(k: Kernel) returns (ks: seq<Kernel>, ss: seq<Suceso>)
    ensures Corrida(ks, ss) && ks == [k] && ss == []
  {
    ks, ss := [k], [];
  }

  // ---------------------------------------------------------------- a unit lost

  /** One process, and two, with one resource. */
  function Solo(colas: Colas, a: Pcb, ra: Recurso, enReady: int): Kernel {
    Kernel(FIFO, 1, colas, map[1 := a], [a.estado], map["RA" := ra], 1, enReady, 2, false, false, false)
  }

  function Dos(colas: Colas, a: Pcb, b: Pcb, ra: Recurso, cpuLibre: int, enReady: int): Kernel {
    Kernel(FIFO, 1, colas, map[1 := a, 2 := b], [a.estado, b.estado], map["RA" := ra], cpuLibre, enReady, 2, false, false, false)
  }

  lemma Cambiar(a: Pcb, b: Pcb, x: Pcb, ra: Recurso, y: Recurso)
    ensures map[1 := a, 2 := b][1 := x] == map[1 := x, 2 := b] && map[1 := a, 2 := b][2 := x] == map[1 := a, 2 := x]
    ensures [a.estado, b.estado][0 := x.estado] == [x.estado, b.estado] && [a.estado, b.estado][1 := x.estado] == [a.estado, x.estado]
    ensures map["RA" := ra]["RA" := y] == map["RA" := y]
  {
  }

  lemma QuitarPrimero(p: nat, q: nat)
    requires p != q
    ensures Quitar([p], p) == [] && Quitar([p, q], p) == [q]
  {
    assert Indice([p], p) == 0 && Indice([p, q], p) == 0;
  }

  /** The first process is created and admitted. */
  lemma PrimerProceso() returns (ks: seq<Kernel>, ss: seq<Suceso>)
    ensures Corrida(ks, ss) && ks[0] == Inicial(map["RA" := Recurso(1, [])], 2)
    ensures ss == [Crea, Comprueba(false), Admite]
    ensures ks[|ss|] == Solo(Colas([], [1], [], [], [], []), Proceso(READY, [], None), Recurso(1, []), 1)
  {
    hide Corrida, Quitar;
    QuitarPrimero(1, 2);
    ks, ss := Comienzo(Inicial(map["RA" := Recurso(1, [])], 2));
    var k := Solo(Colas([1], [], [], [], [], []), Proceso(NEW, [], None), Recurso(1, []), 0);
    ks, ss := UnoMas(ks, ss, Crea, k);
    ks, ss := UnoMas(ks, ss, Comprueba(false), k.(admision := true));
    ks, ss := UnoMas(ks, ss, Admite, Solo(Colas([], [1], [], [], [], []), Proceso(READY, [], None), Recurso(1, []), 1));
  }

  lemma SegundoProceso() returns (ks: seq<Kernel>, ss: seq<Suceso>)
    ensures Corrida(ks, ss) && ks[0] == Inicial(map["RA" := Recurso(1, [])], 2)
    ensures ss == [Crea, Comprueba(false), Admite] + [Crea, Comprueba(false), Admite]
    ensures ks[|ss|] == Dos(Colas([], [1, 2], [], [], [], []), Proceso(READY, [], None), Proceso(READY, [], None), Recurso(1, []), 1, 2)
  {
    hide Corrida, Quitar;
    QuitarPrimero(2, 1);
    ks, ss := PrimerProceso();
    var ra, listo := Recurso(1, []), Proceso(READY, [], None);
    var k := Dos(Colas([2], [1], [], [], [], []), listo, Proceso(NEW, [], None), ra, 1, 1);
    ks, ss := UnoMas(ks, ss, Crea, k);
    ks, ss := UnoMas(ks, ss, Comprueba(false), k.(admision := true));
    Cambiar(listo, Proceso(NEW, [], None), listo, ra, ra);
    ks, ss := UnoMas(ks, ss, Admite, Dos(Colas([], [1, 2], [], [], [], []), listo, listo, ra, 1, 2));
  }

  /** The head of READY goes to the CPU. */
  lemma DespachaPrimero()
    ensures var listo, ra := Proceso(READY, [], None), Recurso(1, []);
            var k := Dos(Colas([], [1, 2], [], [], [], []), listo, listo, ra, 1, 2);
            Posible(k, Despacha(0)) && Paso(k, Despacha(0)) == Dos(Colas([], [2], [1], [], [], []), Proceso(EXEC, [], None), listo, ra, 0, 1)
  {
    var listo, ra := Proceso(READY, [], None), Recurso(1, []);
    QuitarPrimero(1, 2);
    Cambiar(listo, listo, listo, ra, ra);
    Cambiar(listo, listo, Proceso(EXEC, [], None), ra, ra);
    hide Quitar;
  }

  /** It takes the unit. */
  lemma TomaUnidad()
    ensures var listo := Proceso(READY, [], None);
            var k := Dos(Colas([], [2], [1], [], [], []), Proceso(EXEC, [], None), listo, Recurso(1, []), 0, 1);
            Posible(k, PideWait("RA")) &&
            Paso(k, PideWait("RA")) == Dos(Colas([], [2], [1], [], [], []), Proceso(EXEC, ["RA"], None), listo, Recurso(0, []), 0, 1)
  {
    Cambiar(Proceso(EXEC, [], None), Proceso(READY, [], None), Proceso(EXEC, ["RA"], None), Recurso(1, []), Recurso(0, []));
    assert [] + ["RA"] == ["RA"];
  }

  /** It asks for it again. */
  lemma EsperaUno()
    ensures var listo := Proceso(READY, [], None);
            var k := Dos(Colas([], [2], [1], [], [], []), Proceso(EXEC, ["RA"], None), listo, Recurso(0, []), 0, 1);
            Posible(k, PideWait("RA")) &&
            Paso(k, PideWait("RA")) == Dos(Colas([], [2], [], [1], [], []), Proceso(BLOCKED, ["RA"], Some("RA")), listo, Recurso(-1, [1]), 1, 1)
  {
    var a, listo := Proceso(EXEC, ["RA"], None), Proceso(READY, [], None);
    QuitarPrimero(1, 2);
    Cambiar(a, listo, a.(estado := BLOCKED), Recurso(0, []), Recurso(-1, [1]));
    Cambiar(a.(estado := BLOCKED), listo, Proceso(BLOCKED, ["RA"], Some("RA")), Recurso(0, []), Recurso(-1, [1]));
    hide Quitar;
  }

  lemma DespachaSegundo()
    ensures var a, ra := Proceso(BLOCKED, ["RA"], Some("RA")), Recurso(-1, [1]);
            var k := Dos(Colas([], [2], [], [1], [], []), a, Proceso(READY, [], None), ra, 1, 1);
            Posible(k, Despacha(0)) && Paso(k, Despacha(0)) == Dos(Colas([], [], [2], [1], [], []), a, Proceso(EXEC, [], None), ra, 0, 0)
  {
    var a, b, ra := Proceso(BLOCKED, ["RA"], Some("RA")), Proceso(READY, [], None), Recurso(-1, [1]);
    QuitarPrimero(2, 1);
    Cambiar(a, b, b, ra, ra);
    Cambiar(a, b, Proceso(EXEC, [], None), ra, ra);
    hide Quitar;
  }

  lemma EsperaDos()
    ensures var a := Proceso(BLOCKED, ["RA"], Some("RA"));
            var k := Dos(Colas([], [], [2], [1], [], []), a, Proceso(EXEC, [], None), Recurso(-1, [1]), 0, 0);
            Posible(k, PideWait("RA")) &&
            Paso(k, PideWait("RA")) == Dos(Colas([], [], [], [1, 2], [], []), a, Proceso(BLOCKED, [], Some("RA")), Recurso(-2, [1, 2]), 1, 0)
  {
    var a, b := Proceso(BLOCKED, ["RA"], Some("RA")), Proceso(EXEC, [], None);
    QuitarPrimero(2, 1);
    Cambiar(a, b, b.(estado := BLOCKED), Recurso(-1, [1]), Recurso(-2, [1, 2]));
    Cambiar(a, b.(estado := BLOCKED), Proceso(BLOCKED, [], Some("RA")), Recurso(-1, [1]), Recurso(-2, [1, 2]));
    hide Quitar;
  }

  /** One process holds the only unit of a resource and waits for another, with a second process behind it. */
  lemma EsperaLoQueTiene(k: Kernel)
    requires k == Dos(Colas([], [], [], [1, 2], [], []), Proceso(BLOCKED, ["RA"], Some("RA")), Proceso(BLOCKED, [], Some("RA")), Recurso(-2, [1, 2]), 1, 0)
    ensures Inv(k) && Matable(k, 1) && Posible(k, Mata(1)) && PierdeUnidad(k, 1, "RA")
  {
    assert ["RA"][..0] == [];
    assert Veces(["RA"], "RA") == 1;
    assert Indice([1, 2], 1) == 0;
    forall e: Estado, p: nat ensures EnCola(k, e, p) <==> Figura(k, e, p) {
    }
    forall p: nat, r: string ensures EnEspera(k, p, r) <==> Espera(k, p, r) {
    }
    assert Recuento(k.recursos["RA"]);
  }

  /** Process 1 asks twice for the only unit and process 2 once. Both wait, and killing process 1 loses the unit. */
  lemma EsperaAlcanzable() returns (ks: seq<Kernel>, ss: seq<Suceso>)
    ensures Corrida(ks, ss) && ks[0] == Inicial(map["RA" := Recurso(1, [])], 2)
    ensures ss == [Crea, Comprueba(false), Admite] + [Crea, Comprueba(false), Admite]
                  + [Despacha(0), PideWait("RA"), PideWait("RA")] + [Despacha(0), PideWait("RA")]
    ensures var k := ks[|ss|]; Inv(k) && Matable(k, 1) && Posible(k, Mata(1)) && PierdeUnidad(k, 1, "RA")
  {
    hide Corrida, Paso, Posible, Dos, Inv, PierdeUnidad, Matable;
    var listo, a := Proceso(READY, [], None), Proceso(BLOCKED, ["RA"], Some("RA"));
    ks, ss := SegundoProceso();
    DespachaPrimero();
    ks, ss := UnoMas(ks, ss, Despacha(0), Dos(Colas([], [2], [1], [], [], []), Proceso(EXEC, [], None), listo, Recurso(1, []), 0, 1));
    TomaUnidad();
    ks, ss := UnoMas(ks, ss, PideWait("RA"), Dos(Colas([], [2], [1], [], [], []), Proceso(EXEC, ["RA"], None), listo, Recurso(0, []), 0, 1));
    EsperaUno();
    ks, ss := UnoMas(ks, ss, PideWait("RA"), Dos(Colas([], [2], [], [1], [], []), a, listo, Recurso(-1, [1]), 1, 1));
    DespachaSegundo();
    ks, ss := UnoMas(ks, ss, Despacha(0), Dos(Colas([], [], [2], [1], [], []), a, Proceso(EXEC, [], None), Recurso(-1, [1]), 0, 0));
    EsperaDos();
    var k := Dos(Colas([], [], [], [1, 2], [], []), a, Proceso(BLOCKED, [], Some("RA")), Recurso(-2, [1, 2]), 1, 0);
    ks, ss := UnoMas(ks, ss, PideWait("RA"), k);
    EsperaLoQueTiene(k);
  }

  // ---------------------------------------------------------------- the scheduler stops

  /** A FIFO kernel with one process: created, admitted, killed while ready; the scheduler then spends the token of the
      CPU on an empty list. */
  lemma MuerteEnReadyDetiene(k: Kernel, k1: Kernel, k2: Kernel, k3: Kernel, k4: Kernel)
    requires k == Kernel(FIFO, 1, Colas([], [], [], [], [], []), map[], [], map[], 1, 0, 1, false, false, false)
    requires k1 == Crear(k) && k2 == Comprobar(k1, false)
    requires Posible(k2, Admite) ==> k3 == Paso(k2, Admite)
    requires k4 == Matar(k3, 1)
    ensures Posible(k2, Admite) && Matable(k3, 1)
    ensures Posible(k4, Despacha(0)) && DespachoVacio(k4, Despacha(0))
  {
    var b := Pcb(NEW, 0, 0, [], None);
    assert k1 == Kernel(FIFO, 1, Colas([1], [], [], [], [], []), map[1 := b], [NEW], map[], 1, 0, 1, false, false, false);
    assert k2 == k1.(admision := true);
    assert Quitar([1], 1) == [];
    assert k3 == Kernel(FIFO, 1, Colas([], [1], [], [], [], []), map[1 := b.(estado := READY)], [READY], map[], 1, 1, 1, false, false, false);
    assert k4.colas == Colas([], [], [], [], [1], []) && k4.cpuLibre == 1 && k4.enReady == 1;
  }

  // ---------------------------------------------------------------- killed while new

  /** The only process is killed while new, once its admission has passed the check. */
  lemma MuereNuevo() returns (ks: seq<Kernel>, ss: seq<Suceso>)
    ensures Corrida(ks, ss) && ks[0] == Inicial(map[], 1) && ss == [Crea, Comprueba(false), Mata(1)]
    ensures ks[|ss|] == Kernel(FIFO, 1, Colas([], [], [], [], [1], []), map[1 := Proceso(EXITT, [], None)], [EXITT], map[], 1, 0, 1, true, false, false)
  {
    hide Corrida, Quitar;
    QuitarPrimero(1, 2);
    ks, ss := Comienzo(Inicial(map[], 1));
    var k := Kernel(FIFO, 1, Colas([1], [], [], [], [], []), map[1 := Proceso(NEW, [], None)], [NEW], map[], 1, 0, 1, false, false, false);
    ks, ss := UnoMas(ks, ss, Crea, k);
    ks, ss := UnoMas(ks, ss, Comprueba(false), k.(admision := true));
    ks, ss := UnoMas(ks, ss, Mata(1),
      Kernel(FIFO, 1, Colas([], [], [], [], [1], []), map[1 := Proceso(EXITT, [], None)], [EXITT], map[], 1, 0, 1, true, false, false));
  }

  /** Its admission then finds nobody and keeps the mutex of the list: nobody can be created any more, and the next kill keeps
      the semaphore that every end needs. */
  lemma MuerteEnNewDetiene() returns (ks: seq<Kernel>, ss: seq<Suceso>)
    ensures Corrida(ks, ss) && ks[0] == Inicial(map[], 1) && ss == [Crea, Comprueba(false), Mata(1)] + [Admite, EsperaNew]
    ensures ks[|ss|].newTrabada && ks[|ss|].largoTomado && !Posible(ks[|ss|], Crea) && !Posible(ks[|ss|], Termina)
  {
    hide Corrida;
    ks, ss := MuereNuevo();
    var k := Kernel(FIFO, 1, Colas([], [], [], [], [1], []), map[1 := Proceso(EXITT, [], None)], [EXITT], map[], 1, 0, 1, false, true, false);
    ks, ss := UnoMas(ks, ss, Admite, k);
    ks, ss := UnoMas(ks, ss, EsperaNew, k.(largoTomado := true));
  }

  // ---------------------------------------------------------------- one process too many

  /** A kernel with a degree of 1 and no resources, all of whose processes are new, ready or ended. */
  function Chico(nuevos: seq<nat>, ready: seq<nat>, salida: seq<nat>, pcbs: map<nat, Pcb>, estados: seq<Estado>): Kernel {
    Kernel(FIFO, 1, Colas(nuevos, ready, [], [], salida, []), pcbs, estados, map[], 1, |ready|, 1, false, false, false)
  }

  lemma UnoListo() returns (ks: seq<Kernel>, ss: seq<Suceso>)
    ensures Corrida(ks, ss) && ks[0] == Inicial(map[], 1) && ss == [Crea, Comprueba(false), Admite]
    ensures ks[|ss|] == Chico([], [1], [], map[1 := Proceso(READY, [], None)], [READY])
  {
    hide Corrida, Quitar;
    QuitarPrimero(1, 2);
    ks, ss := Comienzo(Inicial(map[], 1));
    var k := Chico([1], [], [], map[1 := Proceso(NEW, [], None)], [NEW]);
    ks, ss := UnoMas(ks, ss, Crea, k);
    ks, ss := UnoMas(ks, ss, Comprueba(false), k.(admision := true));
    ks, ss := UnoMas(ks, ss, Admite, Chico([], [1], [], map[1 := Proceso(READY, [], None)], [READY]));
  }

  /** Process 2 is created and killed while new. */
  lemma NaceYMuere() returns (ks: seq<Kernel>, ss: seq<Suceso>)
    ensures Corrida(ks, ss) && ks[0] == Inicial(map[], 1) && ss == [Crea, Comprueba(false), Admite] + [Crea, Mata(2)]
    ensures ks[|ss|] == Chico([], [1], [2], map[1 := Proceso(READY, [], None), 2 := Proceso(EXITT, [], None)], [READY, EXITT])
  {
    hide Corrida, Quitar;
    QuitarPrimero(2, 1);
    var a, b := Proceso(READY, [], None), Proceso(NEW, [], None);
    ks, ss := UnoListo();
    ks, ss := UnoMas(ks, ss, Crea, Chico([2], [1], [], map[1 := a, 2 := b], [READY, NEW]));
    Cambiar(a, b, Proceso(EXITT, [], None), Recurso(0, []), Recurso(0, []));
    ks, ss := UnoMas(ks, ss, Mata(2), Chico([], [1], [2], map[1 := a, 2 := Proceso(EXITT, [], None)], [READY, EXITT]));
  }

  lemma AdmiteTercero()
    ensures var a, b, c := Proceso(READY, [], None), Proceso(EXITT, [], None), Proceso(NEW, [], None);
            var k := Chico([3], [1], [2], map[1 := a, 2 := b, 3 := c], [READY, EXITT, NEW]).(admision := true);
            Posible(k, Admite) && Paso(k, Admite) == Chico([], [1, 3], [2], map[1 := a, 2 := b, 3 := a], [READY, EXITT, READY])
  {
    var a, b, c := Proceso(READY, [], None), Proceso(EXITT, [], None), Proceso(NEW, [], None);
    QuitarPrimero(3, 1);
    assert map[1 := a, 2 := b, 3 := c][3 := a] == map[1 := a, 2 := b, 3 := a];
    assert [READY, EXITT, NEW][2 := READY] == [READY, EXITT, READY];
    hide Quitar;
  }

  /** With a degree of 1 and process 1 ready, process 2 is killed while new, and process 3 passes a check that is made while
      process 1 is between two lists. */
  lemma UnoDeMas() returns (ks: seq<Kernel>, ss: seq<Suceso>)
    ensures Corrida(ks, ss) && ks[0] == Inicial(map[], 1)
    ensures ss == [Crea, Comprueba(false), Admite] + [Crea, Mata(2)] + [Crea, Comprueba(true), Admite]
    ensures Activos(ks[|ss|]) == 2 && ks[|ss|].grado == 1
  {
    hide Corrida, Quitar;
    var a, b, c := Proceso(READY, [], None), Proceso(EXITT, [], None), Proceso(NEW, [], None);
    ks, ss := NaceYMuere();
    var k := Chico([3], [1], [2], map[1 := a, 2 := b, 3 := c], [READY, EXITT, NEW]);
    ks, ss := UnoMas(ks, ss, Crea, k);
    ks, ss := UnoMas(ks, ss, Comprueba(true), k.(admision := true));
    AdmiteTercero();
    ks, ss := UnoMas(ks, ss, Admite, Chico([], [1, 3], [2], map[1 := a, 2 := b, 3 := a], [READY, EXITT, READY]));
  }
}
