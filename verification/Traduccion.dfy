/** Address translation through the TLB, and the runs of the system in which it gives the address the
    page table gives. */
module Traduccion {
  import opened Comunes
  import opened Paginacion
  import opened Acceso
  import opened Tlb

  predicate EnPagina(tablas: map<nat, seq<nat>>, r: Registro)
    requires r.pid in tablas
  {
    r.pagina < |tablas[r.pid]| && tablas[r.pid][r.pagina] == r.marco
  }

  /** Every entry of a live process is its page-table entry. */
  ghost predicate Coherente(t: Cache, tablas: map<nat, seq<nat>>) {
    forall r :: r in t.entradas && r.pid in tablas ==> EnPagina(tablas, r)
  }

  /** On a miss the memory module is asked for the page, which it must have. */
  predicate Traducible(t: Cache, tablas: map<nat, seq<nat>>, pid: nat, pagina: nat, ahora: int) {
    && t.ultimoIndex <= t.tam
    && (Buscar(t.entradas, pid, pagina) < 0 ==> pid in tablas && pagina < |tablas[pid]| && Insertable(t, ahora))
  }

  /** The frame of a page: from the TLB on a hit, else from the page table, noting it in the TLB. */
  function MarcoDe(t: Cache, tablas: map<nat, seq<nat>>, pid: nat, pagina: nat, ahora: int): (Cache, nat)
    requires Traducible(t, tablas, pid, pagina, ahora)
  {
    var i := Buscar(t.entradas, pid, pagina);
    if i >= 0 then (Tocar(t, i, ahora), t.entradas[i].marco)
    else
      var marco := tablas[pid][pagina];
      (Insertar(t, Registro(pid, pagina, marco, 0), ahora), marco)
  }

  /** `traducir_direccion_a_fisica`: the TLB afterwards, the frame and the offset in it. */
  function Traducir(t: Cache, tablas: map<nat, seq<nat>>, pid: nat, a: nat, tamPagina: nat, ahora: int): (Cache, nat, nat)
    requires tamPagina > 0 && Traducible(t, tablas, pid, Unidad(a, tamPagina), ahora)
  {
    var pagina := Unidad(a, tamPagina);
    var (nueva, marco) := MarcoDe(t, tablas, pid, pagina, ahora);
    (nueva, marco, a - Posicion(pagina, tamPagina))
  }

  /** Hit or miss, the address is the logical one, and the TLB stays coherent, bounded and without repeated pages. */
  lemma TraducirTransparente(t: Cache, tablas: map<nat, seq<nat>>, pid: nat, a: nat, tamPagina: nat, ahora: int)
    requires tamPagina > 0 && Traducible(t, tablas, pid, Unidad(a, tamPagina), ahora)
    requires Valida(t) && Coherente(t, tablas) && pid in tablas
    ensures var (nueva, marco, desplazamiento) := Traducir(t, tablas, pid, a, tamPagina, ahora);
            && Unidad(a, tamPagina) < |tablas[pid]|
            && Posicion(marco, tamPagina) + desplazamiento == DirLogica(tablas[pid], tamPagina, a)
            && 0 <= desplazamiento < tamPagina
            && Valida(nueva) && Coherente(nueva, tablas)
            && nueva.tam == t.tam && nueva.algoritmo == t.algoritmo
  {
    hide Valida, Posicion, Unidad, Sobra, Insertar, Tocar;
    EnSuUnidad(a, tamPagina);
    MarcoTransparente(t, tablas, pid, Unidad(a, tamPagina), ahora);
  }

  lemma MarcoTransparente(t: Cache, tablas: map<nat, seq<nat>>, pid: nat, pagina: nat, ahora: int)
    requires Traducible(t, tablas, pid, pagina, ahora) && Valida(t) && Coherente(t, tablas) && pid in tablas
    ensures var (nueva, marco) := MarcoDe(t, tablas, pid, pagina, ahora);
            && pagina < |tablas[pid]| && marco == tablas[pid][pagina]
            && Valida(nueva) && Coherente(nueva, tablas)
            && nueva.tam == t.tam && nueva.algoritmo == t.algoritmo
            && forall r :: r in nueva.entradas ==> r.pid == pid || r in t.entradas
  {
    hide Insertable;
    var i := Buscar(t.entradas, pid, pagina);
    if i >= 0 {
      assert t.entradas[i] in t.entradas && EnPagina(tablas, t.entradas[i]);
      TocarValida(t, i, ahora);
      TocarCoherente(t, tablas, i, ahora);
    } else {
      var r := Registro(pid, pagina, tablas[pid][pagina], 0);
      InsertarValida(t, r, ahora);
      InsertarTam(t, r, ahora);
      hide Valida, Insertar, Buscar, ClavesUnicas;
    }
  }

  lemma TocarCoherente(t: Cache, tablas: map<nat, seq<nat>>, i: nat, ahora: int)
    requires Coherente(t, tablas) && i < |t.entradas|
    ensures Coherente(Tocar(t, i, ahora), tablas)
    ensures Tocar(t, i, ahora).tam == t.tam && Tocar(t, i, ahora).algoritmo == t.algoritmo
    ensures forall r :: r in Tocar(t, i, ahora).entradas ==> r in t.entradas || r.pid == t.entradas[i].pid
  {
    assert t.entradas[i] in t.entradas;
  }

  // ---------------------------------------------------------------- resize

  /** `ejecutar_resize`: the CPU flushes only for size 0, then the memory module resizes. */
  function VaciarSiCero(t: Cache, pid: nat, cantBytes: nat): Cache {
    if cantBytes == 0 then t.(entradas := Limpiar(t.entradas, pid)) else t
  }

  /** After a resize an entry is wrong exactly when it is of the process and past its new table. */
  lemma ResizeEntradas(t: Cache, m: Memoria, pid: nat, cantBytes: nat)
    requires Inv(m) && pid in m.tablas && Coherente(t, m.tablas)
    ensures var nueva, r := VaciarSiCero(t, pid, cantBytes), Resize(m, pid, cantBytes).0;
            && pid in r.tablas
            && (Coherente(nueva, r.tablas) <==> forall e :: e in nueva.entradas && e.pid == pid ==> e.pagina < |r.tablas[pid]|)
  {
    hide Inv, Resize, Limpiar, Libres, Techo, Posicion;
    InvLibresNoNegativo(m);
    ResizeTodoONada(m, pid, cantBytes);
    LimpiarQuita(t.entradas, pid);
    var nueva, r := VaciarSiCero(t, pid, cantBytes), Resize(m, pid, cantBytes).0;
    forall e | e in nueva.entradas && e.pid in r.tablas
      ensures EnPagina(r.tablas, e) <==> e.pagina < |r.tablas[e.pid]|
    {
      assert EnPagina(m.tablas, e);
    }
  }

  /** A resize to a size other than zero leaves the TLB coherent if and only if it fails, for too few free frames,
      or no entry of the process is for a page past the new size. */
  lemma ResizeCoherenteSii(t: Cache, m: Memoria, pid: nat, cantBytes: nat)
    requires Inv(m) && pid in m.tablas && Coherente(t, m.tablas) && cantBytes > 0
    ensures var paginas := Techo(cantBytes, m.tamPagina);
            Coherente(VaciarSiCero(t, pid, cantBytes), Resize(m, pid, cantBytes).0.tablas) <==>
            || Libres(m.marcos) < paginas - |m.tablas[pid]|
            || forall e :: e in t.entradas && e.pid == pid ==> e.pagina < paginas
  {
    hide Inv, Resize, Limpiar, Libres, Techo, Posicion;
    InvLibresNoNegativo(m);
    ResizeTodoONada(m, pid, cantBytes);
    ResizeEntradas(t, m, pid, cantBytes);
    hide Coherente;
    if Libres(m.marcos) < Techo(cantBytes, m.tamPagina) - |m.tablas[pid]| {
      assert Resize(m, pid, cantBytes).0 == m;
    }
  }

  /** Shrinking to nothing leaves the TLB coherent if and only if the flush is complete: its first two
      entries are not both the process's. */
  lemma ResizeACeroCoherenteSii(t: Cache, m: Memoria, pid: nat)
    requires Inv(m) && pid in m.tablas && Coherente(t, m.tablas)
    ensures var e := t.entradas;
            Coherente(VaciarSiCero(t, pid, 0), Resize(m, pid, 0).0.tablas)
            <==> !(|e| >= 2 && e[0].pid == pid && e[1].pid == pid)
  {
    hide Inv, Limpiar, Libres, Posicion, Coherente;
    ResizeEntradas(t, m, pid, 0);
    LimpiarTodoSii(t.entradas, pid);
    ResizeVacia(m, pid);
  }

  lemma ResizeVacia(m: Memoria, pid: nat)
    requires Inv(m) && pid in m.tablas
    ensures pid in Resize(m, pid, 0).0.tablas && Resize(m, pid, 0).0.tablas[pid] == []
  {
    InvLibresNoNegativo(m);
    ResizeTodoONada(m, pid, 0);
  }

  lemma InvLibresNoNegativo(m: Memoria)
    requires Inv(m)
    ensures m.tamPagina > 0 && m.marcosLibres >= 0
  {
  }

  // ---------------------------------------------------------------- runs

  /** CPU and memory module; `usados` are the pids ever created. */
  datatype Sistema = Sistema(t: Cache, m: Memoria, usados: set<nat>)

  datatype Paso =
    | Traduce(pid: nat, a: nat, ahora: int)
    | Redimensiona(pid: nat, cantBytes: nat)
    | Crea(pid: nat)
    | Elimina(pid: nat)

  /** Pids are never reused, and translations stay inside the table. */
  ghost predicate Habilitado(s: Sistema, p: Paso) {
    s.m.tamPagina > 0 &&
    match p
    case Traduce(pid, a, ahora) =>
      pid in s.m.tablas && Unidad(a, s.m.tamPagina) < |s.m.tablas[pid]| && Traducible(s.t, s.m.tablas, pid, Unidad(a, s.m.tamPagina), ahora)
    case Redimensiona(pid, cantBytes) => pid in s.m.tablas
    case Crea(pid) => pid !in s.usados
    case Elimina(pid) => pid in s.m.tablas
  }

  /** A resize that leaves in the TLB pages the process no longer has: to nothing, with its entries in the first two
      places; to less, when it does not fail and an entry is past the new size. */
  predicate DejaRestos(s: Sistema, p: Paso)
    requires s.m.tamPagina > 0
  {
    && p.Redimensiona? && p.pid in s.m.tablas
    && var e, paginas := s.t.entradas, Techo(p.cantBytes, s.m.tamPagina);
       if p.cantBytes == 0 then |e| >= 2 && e[0].pid == p.pid && e[1].pid == p.pid
       else Libres(s.m.marcos) >= paginas - |s.m.tablas[p.pid]| && exists r :: r in e && r.pid == p.pid && r.pagina >= paginas
  }

  function Sigue(s: Sistema, p: Paso): Sistema
    requires Habilitado(s, p)
  {
    match p
    case Traduce(pid, a, ahora) => s.(t := Traducir(s.t, s.m.tablas, pid, a, s.m.tamPagina, ahora).0)
    case Redimensiona(pid, cantBytes) => s.(t := VaciarSiCero(s.t, pid, cantBytes), m := Resize(s.m, pid, cantBytes).0)
    case Crea(pid) => s.(m := Crear(s.m, pid), usados := s.usados + {pid})
    case Elimina(pid) => s.(m := Eliminar(s.m, pid))
  }

  ghost predicate InvSistema(s: Sistema) {
    && Inv(s.m) && Valida(s.t) && Coherente(s.t, s.m.tablas)
    && (forall r :: r in s.t.entradas ==> r.pid in s.usados)
    && (forall pid :: pid in s.m.tablas ==> pid in s.usados)
  }

  /** Every step keeps memory and TLB consistent, but for exactly the resizes that leave pages behind. */
  lemma PasoInvSii(s: Sistema, p: Paso)
    requires InvSistema(s) && Habilitado(s, p)
    ensures InvSistema(Sigue(s, p)) <==> !DejaRestos(s, p)
  {
    match p
    case Traduce(pid, a, ahora) => TraduceInv(s, pid, a, ahora);
    case Redimensiona(pid, cantBytes) => RedimensionaInvSii(s, pid, cantBytes);
    case Crea(pid) =>
      hide Inv, Valida;
      CrearInvSii(s.m, pid);
    case Elimina(pid) =>
      hide Inv, Valida, Eliminar;
      EliminarDevuelve(s.m, pid);
  }

  lemma TraduceInv(s: Sistema, pid: nat, a: nat, ahora: int)
    requires InvSistema(s) && Habilitado(s, Traduce(pid, a, ahora))
    ensures InvSistema(Sigue(s, Traduce(pid, a, ahora)))
  {
    hide Inv, Valida, MarcoDe, Coherente, Traducible, Unidad;
    MarcoTransparente(s.t, s.m.tablas, pid, Unidad(a, s.m.tamPagina), ahora);
  }

  lemma RedimensionaInvSii(s: Sistema, pid: nat, cantBytes: nat)
    requires InvSistema(s) && Habilitado(s, Redimensiona(pid, cantBytes))
    ensures InvSistema(Sigue(s, Redimensiona(pid, cantBytes))) <==> !DejaRestos(s, Redimensiona(pid, cantBytes))
  {
    hide Inv, Valida, Resize, Limpiar, Techo, Libres, Coherente;
    ResizeTodoONada(s.m, pid, cantBytes);
    LimpiarQuita(s.t.entradas, pid);
    LimpiarValida(s.t, pid);
    if cantBytes == 0 {
      ResizeACeroCoherenteSii(s.t, s.m, pid);
    } else {
      ResizeCoherenteSii(s.t, s.m, pid, cantBytes);
    }
  }

  ghost predicate Corrida(ss: seq<Sistema>, ps: seq<Paso>) {
    && |ss| == |ps| + 1
    && forall i :: 0 <= i < |ps| ==> Habilitado(ss[i], ps[i]) && ss[i + 1] == Sigue(ss[i], ps[i])
  }

  /** No resize of the first `n` steps leaves pages behind. */
  ghost predicate SinRestos(ss: seq<Sistema>, ps: seq<Paso>, n: nat)
    requires Corrida(ss, ps) && n <= |ps|
  {
    forall k :: 0 <= k < n ==> !DejaRestos(ss[k], ps[k])
  }

  lemma {:induction false} CorridaInv(ss: seq<Sistema>, ps: seq<Paso>, i: nat)
    requires Corrida(ss, ps) && InvSistema(ss[0]) && i < |ss| && SinRestos(ss, ps, i)
    ensures InvSistema(ss[i])
  {
    if i > 0 {
      CorridaInv(ss, ps, i - 1);
      PasoInvSii(ss[i - 1], ps[i - 1]);
    }
  }

  /** In every run without such a resize the TLB goes unnoticed: each translation gives the byte the page table
      gives, and the TLB holds no more entries than configured, one at most for each page. */
  lemma CorridaTransparente(ss: seq<Sistema>, ps: seq<Paso>, i: nat)
    requires Corrida(ss, ps) && InvSistema(ss[0]) && i < |ps| && ps[i].Traduce? && SinRestos(ss, ps, i)
    ensures var s, p := ss[i], ps[i];
            var (_, marco, desplazamiento) := Traducir(s.t, s.m.tablas, p.pid, p.a, s.m.tamPagina, p.ahora);
            Posicion(marco, s.m.tamPagina) + desplazamiento == DirLogica(s.m.tablas[p.pid], s.m.tamPagina, p.a)
            && 0 <= desplazamiento < s.m.tamPagina && Valida(s.t)
  {
    CorridaInv(ss, ps, i);
    var s, p := ss[i], ps[i];
    hide Inv, Valida, Posicion, Unidad, Traducir, DirLogica, Coherente, Traducible;
    TraducirTransparente(s.t, s.m.tablas, p.pid, p.a, s.m.tamPagina, p.ahora);
  }
}
