/** A consistent memory and TLB, and the requests that go wrong on them. */
module MemoriaFallas {
  import opened Comunes
  import opened Paginacion
  import opened Acceso
  import opened Espacios
  import opened Tlb
  import opened TlbFifo
  import opened Traduccion

  /** Three frames of 2 bytes, all in use: process 1 has frames 0 and 2, process 2 has frame 1. */
  function Llena(): Memoria {
    Memoria(2, [true, true, true], 0, map[1 := [0, 2], 2 := [1]], Ceros(6))
  }

  /** Both pages of process 1 are cached, and are the first entries. */
  function Cacheadas(): Cache {
    Cache(4, Fifo, [Registro(1, 0, 0, 0), Registro(1, 1, 2, 0), Registro(2, 0, 1, 0)], 0)
  }

  lemma EnTablaLlena(pid: nat, i: int, f: nat)
    ensures EnTabla(Llena(), pid, i, f) <==> (pid == 1 && i == 0 && f == 0) || (pid == 1 && i == 1 && f == 2) || (pid == 2 && i == 0 && f == 1)
  {
  }

  lemma LibresLlena()
    ensures Libres([true, true, true]) == 0
  {
    var m := [true, true, true];
    assert m[..2][..1] == [true] && m[..2] == [true, true];
    assert Libres([true]) == 0 && Libres([true, true]) == 0;
  }

  lemma LlenaInv()
    ensures Inv(Llena())
  {
    LibresLlena();
    var m := Llena();
    assert Posicion(3, 2) == 6;
    hide Libres, Posicion;
    forall pid, i, f ensures EnTabla(m, pid, i, f) <==>
      (pid == 1 && i == 0 && f == 0) || (pid == 1 && i == 1 && f == 2) || (pid == 2 && i == 0 && f == 1)
    {
      EnTablaLlena(pid, i, f);
    }
    hide EnTabla;
    assert EnTabla(m, 1, 0, 0) && EnTabla(m, 2, 0, 1) && EnTabla(m, 1, 1, 2);
    assert Usado(m, 0) && Usado(m, 1) && Usado(m, 2);
  }

  /** Two bytes written by process 1 across its two pages: the second one lands in the memory of process 2. */
  lemma CruceAjeno()
    ensures Inv(Llena()) && Accesible(Llena(), 1, Traducida(Llena(), 1, 1), 2)
    ensures var r := Escribir(Llena(), 1, Traducida(Llena(), 1, 1), [7, 7]);
            && Inv(r) && 2 in r.tablas && Espacio(Llena(), 2) == [0, 0] && Espacio(r, 2) == [7, 0]
            && 1 in r.tablas && Espacio(r, 1) == [0, 7, 0, 0]
  {
    LlenaInv();
    var m := Llena();
    CruceEscribe(m);
    InvSinBytes(m, [0, 7, 7, 0, 0, 0]);
    EspacioDeDos(m);
    EspacioDeDos(m.(bytes := [0, 7, 7, 0, 0, 0]));
  }

  lemma Cuentas(a: nat)
    ensures Posicion(a, 2) == 2 * a && Unidad(2 * a, 2) == Unidad(2 * a + 1, 2) == a && Sobra(2 * a, 2) == 0 && Sobra(2 * a + 1, 2) == 1
  {
  }

  lemma Logica(t: seq<nat>, i: nat)
    requires i < |t|
    ensures DirLogica(t, 2, 2 * i) == 2 * t[i] && DirLogica(t, 2, 2 * i + 1) == 2 * t[i] + 1
  {
    Cuentas(i);
    Cuentas(t[i]);
    hide Posicion, Unidad, Sobra;
  }

  function Cruce(): Camino {
    Camino([0, 2], 2, 0, 1)
  }

  lemma CuentasDeUno()
    ensures Posicion(0, 2) == 0 && Unidad(0, 2) == 0 && Unidad(1, 2) == 0 && Sobra(0, 2) == 0 && Sobra(1, 2) == 1 && Techo(2, 2) == 1
  {
  }

  lemma DirDeCruce()
    ensures Dir(Cruce(), 0) == 1 && Dir(Cruce(), 1) == 2
  {
    CuentasDeUno();
    hide Posicion, Unidad, Sobra;
    assert Marco([0, 2], 0) == 0;
  }

  lemma CruceDentro()
    ensures Dentro(Cruce(), 2, 6)
  {
    CuentasDeUno();
    DirDeCruce();
    hide Dir, Techo;
    forall j: nat | j < 2 ensures Dir(Cruce(), j) < 6 {
      if j > 0 {
        assert j == 1;
      }
    }
  }

  lemma CaminoDeCruce(m: Memoria)
    requires m == Llena()
    ensures Accesible(m, 1, 1, 2) && CaminoDe(m, 1, 1) == Cruce()
  {
    CuentasDeUno();
    CruceDentro();
    var t := m.tablas[1];
    assert t == [0, 2] && t[0] == 0;
    hide Posicion, Unidad, Sobra, Dir, Dentro;
    var i := Indice(t, 0);
    assert i == 0;
    hide Indice;
  }

  lemma EscritosEnCruce(b: seq<byte>, d: seq<byte>)
    requires |b| == 6 && d == [7, 7] && Dentro(Cruce(), 2, 6)
    ensures Escritos(b, Cruce(), d, 2) == b[1 := 7][2 := 7]
  {
    DirDeCruce();
    hide Dir, Dentro;
    assert Escritos(b, Cruce(), d, 0) == b;
    assert Escritos(b, Cruce(), d, 1) == b[1 := 7];
  }

  lemma LogicaUno()
    ensures DirLogica([0, 2], 2, 1) == 1
  {
    CuentasDeUno();
    hide Posicion, Unidad, Sobra;
    assert Marco([0, 2], 0) == 0;
  }

  lemma SeisBytes()
    ensures Ceros(6)[1 := 7][2 := 7] == [0, 7, 7, 0, 0, 0]
  {
  }

  lemma CruceEscribe(m: Memoria)
    requires m == Llena() && Inv(m)
    ensures Traducida(m, 1, 1) == 1 && Accesible(m, 1, 1, 2)
    ensures Escribir(m, 1, 1, [7, 7]) == m.(bytes := [0, 7, 7, 0, 0, 0])
  {
    hide Inv, Accesible, CaminoDe, Escritos, DirLogica, Dentro;
    CaminoDeCruce(m);
    CruceDentro();
    LogicaUno();
    EscritosEnCruce(m.bytes, [7, 7]);
    SeisBytes();
  }

  lemma EspacioDeDos(m: Memoria)
    requires Inv(m) && m == Llena().(bytes := m.bytes) && |m.bytes| == 6
    ensures Espacio(m, 2) == [m.bytes[2], m.bytes[3]]
    ensures Espacio(m, 1) == [m.bytes[0], m.bytes[1], m.bytes[4], m.bytes[5]]
  {
    hide Inv, DirLogica, Posicion, Unidad, Sobra, Espacio;
    assert m.tablas[1] == [0, 2] && m.tablas[2] == [1];
    Cuentas(1);
    Cuentas(2);
    Logica(m.tablas[2], 0);
    Logica(m.tablas[1], 0);
    Logica(m.tablas[1], 1);
    EspacioEn(m, 2, 0);
    EspacioEn(m, 2, 1);
    EspacioEn(m, 1, 0);
    EspacioEn(m, 1, 1);
    EspacioEn(m, 1, 2);
    EspacioEn(m, 1, 3);
  }

  lemma CacheadasBien()
    ensures Inv(Llena()) && Valida(Cacheadas()) && Coherente(Cacheadas(), Llena().tablas) && EnOrden(Cacheadas())
  {
    LlenaInv();
    hide Inv;
  }

  /** The flush of process 1 leaves its second entry. */
  lemma VaciadoIncompleto()
    ensures Valida(Cacheadas()) && Registro(1, 1, 2, 0) in Limpiar(Cacheadas().entradas, 1)
  {
    CacheadasBien();
    LimpiarEs(Cacheadas().entradas, 1);
  }

  /** A resize of process 1 to one page, and one to nothing, leave its second page cached. */
  lemma ResizeDejaRestos()
    ensures Inv(Llena()) && Valida(Cacheadas()) && Coherente(Cacheadas(), Llena().tablas)
    ensures !Coherente(VaciarSiCero(Cacheadas(), 1, 2), Resize(Llena(), 1, 2).0.tablas)
    ensures !Coherente(VaciarSiCero(Cacheadas(), 1, 0), Resize(Llena(), 1, 0).0.tablas)
  {
    CacheadasBien();
    LibresLlena();
    var t, m := Cacheadas(), Llena();
    assert t.entradas[1] in t.entradas && Techo(2, 2) == 1 && |m.tablas[1]| == 2;
    hide Inv, Coherente, Resize, VaciarSiCero, Techo, Valida, Limpiar, Libres;
    ResizeCoherenteSii(t, m, 1, 2);
    ResizeACeroCoherenteSii(t, m, 1);
  }

  /** With the index in the middle, the flush of a process breaks the order of arrival of the rest. */
  lemma VaciadoDesordena()
    ensures var t := Cacheadas().(tam := 3, ultimoIndex := 2);
            Valida(t) && EnOrden(t) && !SigueFifo(Vaciada(t, 2), Quedan(Cola(t), Limpiar(t.entradas, 2)))
  {
    var t := Cacheadas().(tam := 3, ultimoIndex := 2);
    assert t.entradas[2] in t.entradas;
    LimpiarFifoSii(t, 2);
  }
}
