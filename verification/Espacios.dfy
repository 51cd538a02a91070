/** The logical address space of each process, and runs of memory requests: paged memory refines a map
    from pids to bytes. */
module Espacios {
  import opened Comunes
  import opened Paginacion
  import opened Acceso

  /** The address space of a process: page after page of its table. */
  function Espacio(m: Memoria, pid: nat): (r: seq<byte>)
    requires Inv(m) && pid in m.tablas
    ensures |r| == Posicion(|m.tablas[pid]|, m.tamPagina)
  {
    var t := m.tablas[pid];
    seq(Posicion(|t|, m.tamPagina), a requires 0 <= a < Posicion(|t|, m.tamPagina) =>
      LogicaDentro(m, pid, a);
      m.bytes[DirLogica(t, m.tamPagina, a)])
  }

  lemma EspacioEn(m: Memoria, pid: nat, a: nat)
    requires Inv(m) && pid in m.tablas && a < |Espacio(m, pid)|
    ensures DirLogica(m.tablas[pid], m.tamPagina, a) < |m.bytes|
    ensures Espacio(m, pid)[a] == m.bytes[DirLogica(m.tablas[pid], m.tamPagina, a)]
  {
    LogicaDentro(m, pid, a);
    hide Inv, Posicion, DirLogica;
  }

  /** All address spaces: what memory is for its users. */
  ghost function Espacios(m: Memoria): map<nat, seq<byte>>
    requires Inv(m)
  {
    map pid | pid in m.tablas :: Espacio(m, pid)
  }

  lemma PaginaDe(a: nat, paginas: nat, tam: nat)
    requires tam > 0
    ensures a < Posicion(paginas, tam) <==> Unidad(a, tam) < paginas
  {
    EnSuUnidad(a, tam);
    if Unidad(a, tam) < paginas {
      PosicionMonotona(Unidad(a, tam) + 1, paginas, tam);
      PosicionSuma(Unidad(a, tam), 1, tam);
    } else {
      PosicionMonotona(paginas, Unidad(a, tam), tam);
    }
  }

  lemma LogicaDentro(m: Memoria, pid: nat, a: nat)
    requires Inv(m) && pid in m.tablas && a < Posicion(|m.tablas[pid]|, m.tamPagina)
    ensures Unidad(a, m.tamPagina) < |m.tablas[pid]|
    ensures DirLogica(m.tablas[pid], m.tamPagina, a) < |m.bytes|
  {
    var t := m.tablas[pid];
    PaginaDe(a, |t|, m.tamPagina);
    TablaDistinta(m, pid);
    var f := t[Unidad(a, m.tamPagina)];
    PosicionMonotona(f + 1, |m.marcos|, m.tamPagina);
    PosicionSuma(f, 1, m.tamPagina);
  }

  /** Two logical bytes share a physical one only when they are the same byte of the same process. */
  lemma LogicasDistintas(m: Memoria, pid: nat, a: nat, q: nat, b: nat)
    requires Inv(m) && pid in m.tablas && q in m.tablas
    requires a < Posicion(|m.tablas[pid]|, m.tamPagina) && b < Posicion(|m.tablas[q]|, m.tamPagina)
    requires DirLogica(m.tablas[pid], m.tamPagina, a) == DirLogica(m.tablas[q], m.tamPagina, b)
    ensures pid == q && a == b
  {
    var tam := m.tamPagina;
    LogicaDentro(m, pid, a);
    LogicaDentro(m, q, b);
    hide Inv;
    MismaLogica(m.tablas[pid], a, m.tablas[q], b, tam);
    MismoMarco(m, pid, Unidad(a, tam), q, Unidad(b, tam));
    MismoCociente(a, b, tam);
  }

  lemma MismaLogica(t: seq<nat>, a: nat, u: seq<nat>, b: nat, tam: nat)
    requires tam > 0 && Unidad(a, tam) < |t| && Unidad(b, tam) < |u| && DirLogica(t, tam, a) == DirLogica(u, tam, b)
    ensures t[Unidad(a, tam)] == u[Unidad(b, tam)] && Sobra(a, tam) == Sobra(b, tam)
  {
    MismaPosicion(t[Unidad(a, tam)], Sobra(a, tam), u[Unidad(b, tam)], Sobra(b, tam), tam);
  }

  lemma MismoMarco(m: Memoria, pid: nat, i: nat, q: nat, j: nat)
    requires Inv(m) && pid in m.tablas && q in m.tablas && i < |m.tablas[pid]| && j < |m.tablas[q]|
    requires m.tablas[pid][i] == m.tablas[q][j]
    ensures pid == q && i == j
  {
    hide Posicion, Unidad, Sobra, Libres;
    assert EnTabla(m, pid, i, m.tablas[pid][i]) && EnTabla(m, q, j, m.tablas[pid][i]);
  }

  lemma InvSinBytes(m: Memoria, bytes: seq<byte>)
    requires Inv(m) && |bytes| == |m.bytes|
    ensures Inv(m.(bytes := bytes))
  {
    hide Posicion, Unidad, Sobra, Libres;
    var r := m.(bytes := bytes);
    assert forall pid, i, f :: EnTabla(r, pid, i, f) <==> EnTabla(m, pid, i, f);
    assert forall f: nat :: Usado(r, f) <==> Usado(m, f) by {
      forall f: nat ensures Usado(r, f) <==> Usado(m, f) {
        if Usado(m, f) {
          var pid, i :| EnTabla(m, pid, i, f);
          assert EnTabla(r, pid, i, f);
        }
      }
    }
  }

  // ---------------------------------------------------------------- one access

  /** Physical address the MMU gives for logical byte `a` of the process. */
  function Traducida(m: Memoria, pid: nat, a: nat): nat
    requires Inv(m) && pid in m.tablas
  {
    DirLogica(m.tablas[pid], m.tamPagina, a)
  }

  function CaminoLogico(m: Memoria, pid: nat, a: nat): Camino
    requires Inv(m) && pid in m.tablas
  {
    Camino(m.tablas[pid], m.tamPagina, Unidad(a, m.tamPagina), Sobra(a, m.tamPagina))
  }

  /** The range lies in the address space and starts at a page boundary, stays in a page, or goes on
      through physically consecutive frames. */
  ghost predicate Alineado(m: Memoria, pid: nat, a: nat, n: nat)
    requires Inv(m)
  {
    && pid in m.tablas && a < Posicion(|m.tablas[pid]|, m.tamPagina) && a + n <= Posicion(|m.tablas[pid]|, m.tamPagina)
    && (Sobra(a, m.tamPagina) == 0 || Consecutivos(CaminoLogico(m, pid, a), n))
  }

  lemma AlineadoEnRango(m: Memoria, pid: nat, a: nat, n: nat)
    requires Inv(m) && Alineado(m, pid, a, n)
    ensures m.tamPagina > 0 && pid in m.tablas && a < |Espacio(m, pid)| && a + n <= |Espacio(m, pid)|
  {
  }

  /** The memory module finds the page again from the physical address. */
  lemma CaminoRecuperado(m: Memoria, pid: nat, a: nat)
    requires Inv(m) && pid in m.tablas && a < Posicion(|m.tablas[pid]|, m.tamPagina)
    ensures var dir := Traducida(m, pid, a);
            && Indice(m.tablas[pid], Unidad(dir, m.tamPagina)) >= 0
            && CaminoDe(m, pid, dir) == CaminoLogico(m, pid, a)
  {
    var t := m.tablas[pid];
    LogicaDentro(m, pid, a);
    UnidadYSobra(t[Unidad(a, m.tamPagina)], m.tamPagina, Sobra(a, m.tamPagina));
    TablaDistinta(m, pid);
    hide Inv, Posicion, Unidad, Sobra;
    assert t[Indice(t, t[Unidad(a, m.tamPagina)])] == t[Unidad(a, m.tamPagina)];
  }

  /** An aligned access visits exactly its logical bytes, and never indexes the page table or memory past its end. */
  lemma AlineadoAccesible(m: Memoria, pid: nat, a: nat, n: nat)
    requires Inv(m) && Alineado(m, pid, a, n)
    ensures Accesible(m, pid, Traducida(m, pid, a), n)
    ensures n > 0 ==> Dentro(CaminoLogico(m, pid, a), n, |m.bytes|)
    ensures forall j: nat :: j < n ==> Dir(CaminoLogico(m, pid, a), j) == DirLogica(m.tablas[pid], m.tamPagina, a + j)
  {
    CaminoRecuperado(m, pid, a);
    if n > 0 {
      AlineadoPaginas(m, pid, a, n);
    }
    var c := CaminoLogico(m, pid, a);
    assert c.tam > 0;
    hide Inv, Posicion, Unidad, Sobra, Consecutivos, Indice, Techo;
    if n > 0 {
      AccesoLogicoSii(c, n);
      forall j: nat | j < n
        ensures Dir(c, j) == DirLogica(m.tablas[pid], m.tamPagina, a + j)
        ensures Dir(c, j) < |m.bytes|
      {
        assert EsLogica(c, j);
        EnSuUnidad(a, m.tamPagina);
        LogicaDentro(m, pid, a + j);
      }
    }
  }

  lemma AlineadoPaginas(m: Memoria, pid: nat, a: nat, n: nat)
    requires Inv(m) && Alineado(m, pid, a, n) && n > 0
    ensures PaginasDentro(CaminoLogico(m, pid, a), n)
  {
    var tam := m.tamPagina;
    LogicaDentro(m, pid, a);
    PaginaDe(a + n - 1, |m.tablas[pid]|, tam);
    hide Inv, Posicion, Unidad, Sobra;
    PaginasDelRango(a, n, tam);
  }

  lemma PaginasDelRango(a: nat, n: nat, tam: nat)
    requires tam > 0 && n > 0
    ensures Unidad(a, tam) + Techo(n, tam) <= Unidad(a + n - 1, tam) + 1
  {
    var p, k, u := Unidad(a, tam), Techo(n, tam), Unidad(a + n - 1, tam);
    EnSuUnidad(a, tam);
    EnSuUnidad(a + n - 1, tam);
    TechoAlcanza(n, tam);
    assert Posicion(k, tam) == k * tam && Posicion(2, tam) == 2 * tam;
    PosicionSuma(p, k, tam);
    PosicionSuma(u, 2, tam);
    if u + 1 < p + k {
      PosicionMonotona(u + 2, p + k, tam);
      assert false;
    }
  }

  /** A read gives the logical bytes `[a, a + n)`. */
  lemma LeerLogico(m: Memoria, pid: nat, a: nat, n: nat)
    requires Inv(m) && Alineado(m, pid, a, n)
    ensures Accesible(m, pid, Traducida(m, pid, a), n)
    ensures Leer(m, pid, Traducida(m, pid, a), n) == Espacio(m, pid)[a..a + n]
  {
    AlineadoAccesible(m, pid, a, n);
    CaminoRecuperado(m, pid, a);
    var c := CaminoLogico(m, pid, a);
    hide Inv, Posicion, Unidad, Sobra, DirLogica, Dir, Dentro, Indice, Espacio, Leidos;
    forall j: nat | j < n ensures Leidos(m.bytes, c, n)[j] == Espacio(m, pid)[a + j] {
      EspacioEn(m, pid, a + j);
    }
  }

  /** A write replaces exactly the logical bytes `[a, a + n)` of its process: every other byte of this and
      of all other processes is kept. */
  lemma EscribirLogico(m: Memoria, pid: nat, a: nat, datos: seq<byte>)
    requires Inv(m) && Alineado(m, pid, a, |datos|)
    ensures Accesible(m, pid, Traducida(m, pid, a), |datos|)
    ensures var r := Escribir(m, pid, Traducida(m, pid, a), datos);
            Inv(r) && r == m.(bytes := r.bytes) && Espacios(r) == Espacios(m)[pid := Pegar(Espacio(m, pid), a, datos)]
  {
    hide Inv, Posicion, Unidad, Sobra, Escribir, EscritoEn, Alineado, Traducida, Pegar, Espacio;
    AlineadoEnRango(m, pid, a, |datos|);
    EscribirEn(m, pid, a, datos);
    var r := Escribir(m, pid, Traducida(m, pid, a), datos);
    InvSinBytes(m, r.bytes);
    forall q | q in m.tablas
      ensures Espacio(r, q) == if q == pid then Pegar(Espacio(m, pid), a, datos) else Espacio(m, q)
    {
      EspacioEscrito(m, pid, a, datos, r.bytes, q);
    }
  }

  lemma EscribirEn(m: Memoria, pid: nat, a: nat, datos: seq<byte>)
    requires Inv(m) && Alineado(m, pid, a, |datos|)
    ensures Accesible(m, pid, Traducida(m, pid, a), |datos|)
    ensures var r := Escribir(m, pid, Traducida(m, pid, a), datos);
            r == m.(bytes := r.bytes) && EscritoEn(m.bytes, CaminoLogico(m, pid, a), datos, r.bytes)
  {
    AlineadoAccesible(m, pid, a, |datos|);
    CaminoRecuperado(m, pid, a);
    if datos != [] {
      TablaDistinta(m, pid);
      EscritosEn(m.bytes, CaminoLogico(m, pid, a), datos, |datos|);
      assert datos[..|datos|] == datos;
    }
  }

  lemma EspacioEscrito(m: Memoria, pid: nat, a: nat, datos: seq<byte>, bytes: seq<byte>, q: nat)
    requires Inv(m) && Alineado(m, pid, a, |datos|) && q in m.tablas
    requires EscritoEn(m.bytes, CaminoLogico(m, pid, a), datos, bytes)
    ensures Inv(m.(bytes := bytes))
    ensures Espacio(m.(bytes := bytes), q) == if q == pid then Pegar(Espacio(m, pid), a, datos) else Espacio(m, q)
  {
    assert |bytes| == |m.bytes|;
    hide Inv, Posicion, Unidad, Sobra, DirLogica, EscritoEn, Alineado, Espacio, Pegar;
    AlineadoEnRango(m, pid, a, |datos|);
    var r := m.(bytes := bytes);
    InvSinBytes(m, bytes);
    forall b: nat | b < |Espacio(m, q)|
      ensures Espacio(r, q)[b] == if q == pid && a <= b < a + |datos| then datos[b - a] else Espacio(m, q)[b]
    {
      EspacioEn(r, q, b);
      EspacioEn(m, q, b);
      ByteEscrito(m, pid, a, datos, bytes, q, b);
    }
    if q == pid {
      PegarEs(Espacio(m, pid), a, datos, Espacio(r, q));
    }
  }

  lemma ByteEscrito(m: Memoria, pid: nat, a: nat, datos: seq<byte>, bytes: seq<byte>, q: nat, b: nat)
    requires Inv(m) && Alineado(m, pid, a, |datos|) && q in m.tablas && b < Posicion(|m.tablas[q]|, m.tamPagina)
    requires EscritoEn(m.bytes, CaminoLogico(m, pid, a), datos, bytes)
    ensures var x := DirLogica(m.tablas[q], m.tamPagina, b);
            x < |bytes| && bytes[x] == if q == pid && a <= b < a + |datos| then datos[b - a] else m.bytes[x]
  {
    AlineadoAccesible(m, pid, a, |datos|);
    LogicaDentro(m, q, b);
    var c := CaminoLogico(m, pid, a);
    var x := DirLogica(m.tablas[q], m.tamPagina, b);
    hide Inv, Posicion, Unidad, Sobra, DirLogica, Dir;
    if q == pid && a <= b < a + |datos| {
      assert Dir(c, b - a) == x;
    } else {
      forall j: nat | j < |datos| ensures Dir(c, j) != x {
        if Dir(c, j) == x {
          LogicasDistintas(m, pid, a + j, q, b);
        }
      }
    }
  }

  /** Both ranges of a `copy_string` in the process. */
  ghost predicate CopiaAlineada(m: Memoria, pid: nat, di: nat, si: nat, n: nat)
    requires Inv(m)
  {
    Alineado(m, pid, si, n) && Alineado(m, pid, di, n)
  }

  /** Copying means `memmove`: the destination gets the source bytes as they were before, overlapping or not. */
  lemma CopiarStringMueve(m: Memoria, pid: nat, di: nat, si: nat, n: nat)
    requires Inv(m) && CopiaAlineada(m, pid, di, si, n)
    ensures Accesible(m, pid, Traducida(m, pid, si), n) && Accesible(m, pid, Traducida(m, pid, di), n)
    ensures var r := CopiarString(m, pid, Traducida(m, pid, di), Traducida(m, pid, si), n);
            && Inv(r) && r == m.(bytes := r.bytes)
            && Espacios(r) == Espacios(m)[pid := Pegar(Espacio(m, pid), di, Espacio(m, pid)[si..si + n])]
  {
    hide Inv, Alineado, Accesible, Traducida, Escribir, Leer, Posicion, Unidad, Sobra, Espacio, Pegar;
    AlineadoEnRango(m, pid, si, n);
    AlineadoEnRango(m, pid, di, n);
    LeerLogico(m, pid, si, n);
    EscribirLogico(m, pid, di, Espacio(m, pid)[si..si + n]);
  }

  // ---------------------------------------------------------------- tables that change

  /** With the same bytes, a table that extends another one means an address space that extends the other. */
  lemma EspacioPrefijo(m: Memoria, pid: nat, r: Memoria, q: nat)
    requires Inv(m) && Inv(r) && pid in m.tablas && q in r.tablas && m.bytes == r.bytes && m.tamPagina == r.tamPagina
    requires m.tablas[pid] <= r.tablas[q]
    ensures Espacio(m, pid) <= Espacio(r, q)
    ensures m.tablas[pid] == r.tablas[q] ==> Espacio(m, pid) == Espacio(r, q)
  {
    var t, u := m.tablas[pid], r.tablas[q];
    PosicionMonotona(|t|, |u|, m.tamPagina);
    forall a: nat | a < |Espacio(m, pid)| ensures Espacio(m, pid)[a] == Espacio(r, q)[a] {
      LogicaDentro(m, pid, a);
      hide Inv, Posicion, Unidad, Sobra, Espacio;
      EspacioEn(m, pid, a);
      EspacioEn(r, q, a);
    }
  }

  /** Resizing a process keeps what it retains of its address space and every other address space. */
  lemma ResizeEspacios(m: Memoria, pid: nat, cantBytes: nat)
    requires Inv(m) && pid in m.tablas
    ensures var (r, codigo) := Resize(m, pid, cantBytes);
            && Inv(r) && r.tablas.Keys == m.tablas.Keys && r.tamPagina == m.tamPagina
            && (forall q :: q in m.tablas && q != pid ==> Espacio(r, q) == Espacio(m, q))
            && (if codigo == 1 then r == m
                else |Espacio(r, pid)| == Posicion(Techo(cantBytes, m.tamPagina), m.tamPagina) &&
                     (Espacio(m, pid) <= Espacio(r, pid) || Espacio(r, pid) <= Espacio(m, pid)))
  {
    assert m.tamPagina > 0;
    hide Inv, Posicion, Unidad, Sobra, Resize, Techo, DirLogica, Libres;
    ResizeTodoONada(m, pid, cantBytes);
    var r := Resize(m, pid, cantBytes).0;
    forall q | q in m.tablas && q != pid ensures Espacio(r, q) == Espacio(m, q) {
      EspacioPrefijo(m, q, r, q);
    }
    if m.tablas[pid] <= r.tablas[pid] {
      EspacioPrefijo(m, pid, r, pid);
    } else if r.tablas[pid] <= m.tablas[pid] {
      EspacioPrefijo(r, pid, m, pid);
    }
  }

  lemma CrearEspacios(m: Memoria, pid: nat)
    requires Inv(m) && (pid !in m.tablas || m.tablas[pid] == [])
    ensures Inv(Crear(m, pid)) && Espacios(Crear(m, pid)) == Espacios(m)[pid := []]
  {
    hide Inv, DirLogica, Posicion, Unidad, Sobra;
    CrearInvSii(m, pid);
    var r := Crear(m, pid);
    forall q | q in m.tablas && q != pid ensures Espacio(r, q) == Espacio(m, q) {
      EspacioPrefijo(m, q, r, q);
    }
    assert Posicion(0, m.tamPagina) == 0 by { PosicionCero(m.tamPagina); }
    assert Espacio(r, pid) == [];
  }

  lemma PosicionCero(tam: nat)
    ensures Posicion(0, tam) == 0
  {
  }

  lemma EliminarEspacios(m: Memoria, pid: nat)
    requires Inv(m) && pid in m.tablas
    ensures Inv(Eliminar(m, pid)) && Espacios(Eliminar(m, pid)) == Espacios(m) - {pid}
  {
    EliminarDevuelve(m, pid);
    hide Inv, DirLogica, Posicion, Unidad, Sobra;
    var r := Eliminar(m, pid);
    forall q | q in r.tablas ensures Espacio(r, q) == Espacio(m, q) {
      EspacioPrefijo(m, q, r, q);
    }
  }

  // ---------------------------------------------------------------- runs

  /** Requests to the memory module; addresses are logical, as the instructions of a process give them. */
  datatype Pedido =
    | Nuevo(pid: nat)
    | Redimensionar(pid: nat, cantBytes: nat)
    | Destruir(pid: nat)
    | Escritura(pid: nat, a: nat, datos: seq<byte>)
    | Copia(pid: nat, di: nat, si: nat, n: nat)

  /** A pid is created when it has no pages; the other requests come from existing processes, with
      aligned accesses. */
  ghost predicate Habilitado(m: Memoria, p: Pedido)
    requires Inv(m)
  {
    match p
    case Nuevo(pid) => pid !in m.tablas || m.tablas[pid] == []
    case Redimensionar(pid, _) => pid in m.tablas
    case Destruir(pid) => pid in m.tablas
    case Escritura(pid, a, datos) => Alineado(m, pid, a, |datos|)
    case Copia(pid, di, si, n) => CopiaAlineada(m, pid, di, si, n)
  }

  /** `m'` is what the request makes of `m`. */
  ghost predicate Atiende(m: Memoria, p: Pedido, m': Memoria)
    requires Inv(m) && Habilitado(m, p)
  {
    match p
    case Nuevo(pid) => m' == Crear(m, pid)
    case Redimensionar(pid, cantBytes) => m' == Resize(m, pid, cantBytes).0
    case Destruir(pid) => m' == Eliminar(m, pid)
    case Escritura(pid, a, datos) =>
      Accesible(m, pid, Traducida(m, pid, a), |datos|) && m' == Escribir(m, pid, Traducida(m, pid, a), datos)
    case Copia(pid, di, si, n) =>
      && Accesible(m, pid, Traducida(m, pid, si), n) && Accesible(m, pid, Traducida(m, pid, di), n)
      && m' == CopiarString(m, pid, Traducida(m, pid, di), Traducida(m, pid, si), n)
  }

  /** What a request does to the address spaces while `libres` frames are free: a resize that needs more changes nothing. */
  ghost predicate PasoAbstracto(e: map<nat, seq<byte>>, p: Pedido, e': map<nat, seq<byte>>, tam: nat, libres: nat)
    requires tam > 0
  {
    match p
    case Nuevo(pid) => e' == e[pid := []]
    case Redimensionar(pid, cantBytes) =>
      && pid in e
      && var pedidos := Posicion(Techo(cantBytes, tam), tam);
         if pedidos > |e[pid]| + Posicion(libres, tam) then e' == e
         else
           && e'.Keys == e.Keys && (forall q :: q in e && q != pid ==> e'[q] == e[q])
           && |e'[pid]| == pedidos && (e[pid] <= e'[pid] || e'[pid] <= e[pid])
    case Destruir(pid) => e' == e - {pid}
    case Escritura(pid, a, datos) =>
      pid in e && a + |datos| <= |e[pid]| && e' == e[pid := Pegar(e[pid], a, datos)]
    case Copia(pid, di, si, n) =>
      pid in e && di + n <= |e[pid]| && si + n <= |e[pid]| && e' == e[pid := Pegar(e[pid], di, e[pid][si..si + n])]
  }

  /** Every request served keeps the allocator invariant and is a step of the map of address spaces. */
  lemma PasoRefina(m: Memoria, p: Pedido, m': Memoria)
    requires Inv(m) && Habilitado(m, p) && Atiende(m, p, m')
    ensures Inv(m') && m'.tamPagina == m.tamPagina && m.tamPagina > 0
    ensures PasoAbstracto(Espacios(m), p, Espacios(m'), m.tamPagina, Libres(m.marcos))
  {
    assert m.tamPagina > 0;
    hide Inv, Posicion, Unidad, Sobra, Techo, Libres, DirLogica, Indice, Accesible, Traducida, Resize, Eliminar, Consecutivos, Escribir;
    match p
    case Nuevo(pid) => CrearEspacios(m, pid);
    case Redimensionar(pid, cantBytes) => RedimensionarRefina(m, pid, cantBytes);
    case Destruir(pid) => EliminarEspacios(m, pid); EliminarTam(m, pid);
    case Escritura(pid, a, datos) => EscribirLogico(m, pid, a, datos);
    case Copia(pid, di, si, n) => CopiaRefina(m, pid, di, si, n);
  }

  lemma RedimensionarRefina(m: Memoria, pid: nat, cantBytes: nat)
    requires Inv(m) && m.tamPagina > 0 && pid in m.tablas
    ensures var r := Resize(m, pid, cantBytes).0;
            && Inv(r) && r.tamPagina == m.tamPagina
            && PasoAbstracto(Espacios(m), Redimensionar(pid, cantBytes), Espacios(r), m.tamPagina, Libres(m.marcos))
  {
    hide Inv, Posicion, Unidad, Sobra, Techo, Libres, Resize, Espacio;
    ResizeEspacios(m, pid, cantBytes);
    ResizeTodoONada(m, pid, cantBytes);
    NoAlcanzan(Techo(cantBytes, m.tamPagina), |m.tablas[pid]|, Libres(m.marcos), m.tamPagina);
  }

  /** Too few frames, counted in bytes. */
  lemma NoAlcanzan(paginas: nat, actuales: nat, libres: nat, tam: nat)
    requires tam > 0
    ensures libres < paginas - actuales <==> Posicion(paginas, tam) > Posicion(actuales, tam) + Posicion(libres, tam)
  {
    PosicionSuma(actuales, libres, tam);
    if libres < paginas - actuales {
      PosicionMonotona(actuales + libres + 1, paginas, tam);
      PosicionSuma(actuales + libres, 1, tam);
      assert Posicion(1, tam) == tam;
    } else {
      PosicionMonotona(paginas, actuales + libres, tam);
    }
  }

  lemma CopiaRefina(m: Memoria, pid: nat, di: nat, si: nat, n: nat)
    requires Inv(m) && CopiaAlineada(m, pid, di, si, n)
    ensures Accesible(m, pid, Traducida(m, pid, si), n) && Accesible(m, pid, Traducida(m, pid, di), n)
    ensures var r := CopiarString(m, pid, Traducida(m, pid, di), Traducida(m, pid, si), n);
            && Inv(r) && r.tamPagina == m.tamPagina > 0
            && PasoAbstracto(Espacios(m), Copia(pid, di, si, n), Espacios(r), m.tamPagina, Libres(m.marcos))
  {
    hide Inv, Posicion, Unidad, Sobra, Accesible, Traducida, CopiarString, Alineado, Espacio, Pegar;
    AlineadoEnRango(m, pid, si, n);
    AlineadoEnRango(m, pid, di, n);
    CopiarStringMueve(m, pid, di, si, n);
  }

  lemma EliminarTam(m: Memoria, pid: nat)
    requires pid in m.tablas
    ensures Eliminar(m, pid).tamPagina == m.tamPagina
  {
  }

  ghost predicate Paso(m: Memoria, p: Pedido, m': Memoria) {
    Inv(m) ==> Habilitado(m, p) && Atiende(m, p, m')
  }

  lemma PasoInv(m: Memoria, p: Pedido, m': Memoria)
    requires Inv(m) && Paso(m, p, m')
    ensures m.tamPagina > 0 && Inv(m') && m'.tamPagina == m.tamPagina
    ensures PasoAbstracto(Espacios(m), p, Espacios(m'), m.tamPagina, Libres(m.marcos))
  {
    hide Inv, PasoAbstracto, Habilitado, Atiende, Espacios;
    PasoRefina(m, p, m');
  }

  /** A run: each state follows from the previous one by an enabled request. */
  ghost predicate Corrida(ms: seq<Memoria>, ps: seq<Pedido>) {
    |ms| == |ps| + 1 && forall i :: 0 <= i < |ps| ==> Paso(ms[i], ps[i], ms[i + 1])
  }

  /** Over every run, the frames stay accounted for and each request is a step of the map of address spaces. */
  lemma {:induction false} CorridaRefina(ms: seq<Memoria>, ps: seq<Pedido>, i: nat)
    requires Corrida(ms, ps) && Inv(ms[0]) && i <= |ps|
    ensures Inv(ms[i]) && ms[i].tamPagina == ms[0].tamPagina && ms[0].tamPagina > 0
    ensures i < |ps| ==> Inv(ms[i + 1]) && ms[i + 1].tamPagina == ms[0].tamPagina
    ensures i < |ps| ==> PasoAbstracto(Espacios(ms[i]), ps[i], Espacios(ms[i + 1]), ms[0].tamPagina, Libres(ms[i].marcos))
  {
    assert ms[0].tamPagina > 0;
    assert |ms| == |ps| + 1 && (i < |ps| ==> Paso(ms[i], ps[i], ms[i + 1]));
    hide *;
    if i > 0 {
      CorridaRefina(ms, ps, i - 1);
    }
    if i < |ps| {
      PasoInv(ms[i], ps[i], ms[i + 1]);
    }
  }

  /** The request leaves the bytes `[a, a + n)` of the process alone, as a caller can tell from its arguments. */
  predicate Respeta(p: Pedido, pid: nat, a: nat, n: nat, tam: nat)
    requires tam > 0
  {
    match p
    case Nuevo(q) => q != pid
    case Redimensionar(q, cantBytes) => q == pid ==> a + n <= Posicion(Techo(cantBytes, tam), tam)
    case Destruir(q) => q != pid
    case Escritura(q, b, datos) => q == pid ==> b + |datos| <= a || a + n <= b
    case Copia(q, di, _, k) => q == pid ==> di + k <= a || a + n <= di
  }

  /** The pages below address `fin` are on the same frames. */
  ghost predicate SusPaginas(m: Memoria, r: Memoria, pid: nat, fin: nat) {
    && pid in m.tablas && pid in r.tablas
    && forall i: nat :: i < |m.tablas[pid]| && Posicion(i, m.tamPagina) < fin ==>
         i < |r.tablas[pid]| && r.tablas[pid][i] == m.tablas[pid][i]
  }

  lemma PasoPaginas(m: Memoria, p: Pedido, r: Memoria, pid: nat, a: nat, n: nat)
    requires Inv(m) && m.tamPagina > 0 && Paso(m, p, r) && pid in m.tablas && Respeta(p, pid, a, n, m.tamPagina)
    ensures SusPaginas(m, r, pid, a + n)
  {
    hide Inv, Posicion, Unidad, Sobra, Techo, Resize, Eliminar, Libres, Accesible, Traducida, Alineado, Leer, Escritos;
    match p
    case Nuevo(_) =>
    case Redimensionar(q, cantBytes) =>
      ResizeTodoONada(m, q, cantBytes);
      if q == pid && Resize(m, q, cantBytes).1 == 0 {
        CabenPaginas(m, r, pid, a + n, Techo(cantBytes, m.tamPagina));
      }
    case Destruir(q) => EliminarDevuelve(m, q);
    case Escritura(_, _, _) =>
    case Copia(_, _, _, _) =>
  }

  lemma CabenPaginas(m: Memoria, r: Memoria, pid: nat, fin: nat, paginas: nat)
    requires pid in m.tablas && pid in r.tablas && |r.tablas[pid]| == paginas && fin <= Posicion(paginas, m.tamPagina)
    requires m.tablas[pid] <= r.tablas[pid] || r.tablas[pid] <= m.tablas[pid]
    ensures SusPaginas(m, r, pid, fin)
  {
    hide Posicion;
    forall i: nat | i < |m.tablas[pid]| && Posicion(i, m.tamPagina) < fin
      ensures i < |r.tablas[pid]| && r.tablas[pid][i] == m.tablas[pid][i]
    {
      if paginas <= i {
        PosicionMonotona(paginas, i, m.tamPagina);
      }
    }
  }

  /** The bytes written keep their frames. */
  lemma {:induction false} CorridaPaginas(ms: seq<Memoria>, ps: seq<Pedido>, pid: nat, a: nat, n: nat, k: nat)
    requires Corrida(ms, ps) && Inv(ms[0]) && ms[0].tamPagina > 0 && pid in ms[0].tablas && k < |ms|
    requires forall i :: 0 <= i < k ==> Respeta(ps[i], pid, a, n, ms[0].tamPagina) || (ps[i].Escritura? && ps[i].pid == pid)
    ensures SusPaginas(ms[0], ms[k], pid, a + n)
  {
    if k > 0 {
      CorridaPaginas(ms, ps, pid, a, n, k - 1);
      assert Paso(ms[k - 1], ps[k - 1], ms[k]);
      CorridaRefina(ms, ps, k - 1);
      hide Inv, Paso, Corrida, Posicion, Techo;
      if ps[k - 1].Escritura? {
        EscrituraPaginas(ms[k - 1], ps[k - 1], ms[k], pid, a + n);
      } else {
        PasoPaginas(ms[k - 1], ps[k - 1], ms[k], pid, a, n);
      }
    }
  }

  lemma EscrituraPaginas(m: Memoria, p: Pedido, r: Memoria, pid: nat, fin: nat)
    requires Inv(m) && Paso(m, p, r) && p.Escritura? && pid in m.tablas
    ensures SusPaginas(m, r, pid, fin)
  {
    hide Inv, Posicion, Accesible, Traducida, Alineado, Escritos;
  }

  lemma SigueAlineado(m: Memoria, r: Memoria, pid: nat, a: nat, n: nat)
    requires Inv(m) && Inv(r) && r.tamPagina == m.tamPagina && Alineado(m, pid, a, n) && n > 0
    requires SusPaginas(m, r, pid, a + n) && a + n <= Posicion(|r.tablas[pid]|, r.tamPagina)
    ensures Alineado(r, pid, a, n)
  {
    hide Inv, Posicion, Unidad, Sobra;
    var c, d, tam := CaminoLogico(m, pid, a), CaminoLogico(r, pid, a), m.tamPagina;
    EnSuUnidad(a, tam);
    if Consecutivos(c, n) {
      forall q: nat | d.pagina <= q && Posicion(q + 1, tam) < Posicion(d.pagina, tam) + d.corrimiento + n
        ensures Seguidos(d.tabla, q)
      {
        PosicionMonotona(q, q + 1, tam);
        assert Seguidos(c.tabla, q);
      }
    }
  }

  /** Reading back returns the last bytes written at those logical addresses, through any run of requests of this
      and the other processes in between. */
  lemma LecturaDeLoEscrito(ms: seq<Memoria>, ps: seq<Pedido>, pid: nat, a: nat, datos: seq<byte>, k: nat)
    requires Corrida(ms, ps) && Inv(ms[0]) && ms[0].tamPagina > 0
    requires 0 < k < |ms| && ps[0] == Escritura(pid, a, datos)
    requires forall i :: 0 < i < k ==> Respeta(ps[i], pid, a, |datos|, ms[0].tamPagina)
    ensures Inv(ms[k]) && pid in ms[k].tablas
    ensures Accesible(ms[k], pid, Traducida(ms[k], pid, a), |datos|)
    ensures Leer(ms[k], pid, Traducida(ms[k], pid, a), |datos|) == datos
  {
    assert Alineado(ms[0], pid, a, |datos|) by {
      assert Paso(ms[0], ps[0], ms[1]);
    }
    hide Inv, Leer, Traducida, Accesible, Posicion, Unidad, Sobra, Habilitado, Atiende, Espacio, Consecutivos;
    EscritoPersiste(ms, ps, pid, a, datos, k);
    CorridaRefina(ms, ps, k - 1);
    CorridaPaginas(ms, ps, pid, a, |datos|, k);
    if datos == [] {
      LeerNada(ms[k], pid, Traducida(ms[k], pid, a));
    } else {
      SigueAlineado(ms[0], ms[k], pid, a, |datos|);
      LeerLogico(ms[k], pid, a, |datos|);
    }
  }

  lemma LeerNada(m: Memoria, pid: nat, dir: nat)
    requires m.tamPagina > 0 && pid in m.tablas
    ensures Accesible(m, pid, dir, 0) && Leer(m, pid, dir, 0) == []
  {
  }

  lemma {:induction false} EscritoPersiste(ms: seq<Memoria>, ps: seq<Pedido>, pid: nat, a: nat, datos: seq<byte>, k: nat)
    requires Corrida(ms, ps) && Inv(ms[0]) && ms[0].tamPagina > 0
    requires 0 < k < |ms| && ps[0] == Escritura(pid, a, datos)
    requires forall i :: 0 < i < k ==> Respeta(ps[i], pid, a, |datos|, ms[0].tamPagina)
    ensures Inv(ms[k]) && Guarda(Espacios(ms[k]), pid, a, datos)
  {
    hide Inv, Espacios, Posicion, Unidad, Sobra, Techo;
    CorridaRefina(ms, ps, k - 1);
    if k > 1 {
      EscritoPersiste(ms, ps, pid, a, datos, k - 1);
      PasoPersiste(ms[0].tamPagina, Libres(ms[k - 1].marcos), Espacios(ms[k - 1]), ps[k - 1], Espacios(ms[k]), pid, a, datos);
    }
  }

  ghost predicate Guarda(e: map<nat, seq<byte>>, pid: nat, a: nat, datos: seq<byte>) {
    pid in e && a + |datos| <= |e[pid]| && e[pid][a..a + |datos|] == datos
  }

  lemma PasoPersiste(tam: nat, libres: nat, e: map<nat, seq<byte>>, p: Pedido, e': map<nat, seq<byte>>, pid: nat, a: nat, datos: seq<byte>)
    requires tam > 0 && PasoAbstracto(e, p, e', tam, libres) && Respeta(p, pid, a, |datos|, tam) && Guarda(e, pid, a, datos)
    ensures Guarda(e', pid, a, datos)
  {
    hide Techo, Posicion, Unidad, Sobra, Pegar;
    match p
    case Nuevo(_) =>
    case Redimensionar(_, _) =>
    case Destruir(_) =>
    case Escritura(q, b, ds) => if q == pid { FueraDePegar(e[pid], b, ds, a, |datos|); }
    case Copia(q, di, si, n) => if q == pid { FueraDePegar(e[pid], di, e[pid][si..si + n], a, |datos|); }
  }
}
