/** The TLB as a value: lookup, replacement, flush, and why translation does not notice it. */
module Tlb {
  import opened Comunes

  datatype Registro = Registro(pid: nat, pagina: nat, marco: nat, ultimoAcceso: int)

  datatype Algoritmo = Fifo | Lru | Ninguno

  datatype Cache = Cache(tam: nat, algoritmo: Algoritmo, entradas: seq<Registro>, ultimoIndex: nat)

  predicate EsDe(r: Registro, pid: nat, pagina: nat) {
    r.pid == pid && r.pagina == pagina
  }

  /** The first entry for the page, or -1. */
  function Buscar(entradas: seq<Registro>, pid: nat, pagina: nat): (i: int)
    ensures -1 <= i < |entradas|
    ensures i >= 0 ==> EsDe(entradas[i], pid, pagina)
    ensures forall j :: 0 <= j < (if i < 0 then |entradas| else i) ==> !EsDe(entradas[j], pid, pagina)
  {
    if entradas == [] then -1
    else
      var i := Buscar(entradas[..|entradas| - 1], pid, pagina);
      if i >= 0 then i
      else if EsDe(entradas[|entradas| - 1], pid, pagina) then |entradas| - 1
      else -1
  }

  /** `get_index_for_lru` on the first `n` entries: the least recent access so far and where it is. */
  function Menor(entradas: seq<Registro>, ahora: int, n: nat): (r: (int, int))
    requires n <= |entradas|
    ensures -1 <= r.1 < n && r.0 <= ahora
    ensures r.1 < 0 ==> r.0 == ahora
    ensures r.1 >= 0 ==> entradas[r.1].ultimoAcceso == r.0 < ahora
    ensures forall j :: 0 <= j < n ==> r.0 <= entradas[j].ultimoAcceso
  {
    if n == 0 then (ahora, -1)
    else
      var r := Menor(entradas, ahora, n - 1);
      if entradas[n - 1].ultimoAcceso < r.0 then (entradas[n - 1].ultimoAcceso, n - 1) else r
  }

  function IndiceLru(entradas: seq<Registro>, ahora: int): int {
    Menor(entradas, ahora, |entradas|).1
  }

  /** The replacement finds a victim exactly when some entry was last used before now. */
  lemma IndiceLruSii(entradas: seq<Registro>, ahora: int)
    ensures IndiceLru(entradas, ahora) >= 0 <==> exists i :: 0 <= i < |entradas| && entradas[i].ultimoAcceso < ahora
  {
    var r := Menor(entradas, ahora, |entradas|);
    if r.1 >= 0 {
      assert entradas[r.1].ultimoAcceso < ahora;
    }
  }

  /** What the clock must have done for LRU to replace an entry of a full TLB. */
  predicate Insertable(t: Cache, ahora: int) {
    t.algoritmo == Lru && t.tam > 0 && |t.entradas| == t.tam ==> IndiceLru(t.entradas, ahora) >= 0
  }

  /** `insertar_en_tlb`. */
  function Insertar(t: Cache, r: Registro, ahora: int): Cache
    requires Insertable(t, ahora) && t.ultimoIndex <= t.tam
  {
    if t.algoritmo == Fifo && t.tam > 0 then
      var i := if t.ultimoIndex == t.tam then 0 else t.ultimoIndex;
      var nuevo := r.(ultimoAcceso := 0);
      if |t.entradas| < t.tam then t.(entradas := t.entradas + [nuevo], ultimoIndex := i)
      else if |t.entradas| == t.tam then t.(entradas := t.entradas[i := nuevo], ultimoIndex := i + 1)
      else t.(ultimoIndex := i)
    else if t.algoritmo == Lru && t.tam > 0 then
      var nuevo := r.(ultimoAcceso := ahora);
      if |t.entradas| < t.tam then t.(entradas := t.entradas + [nuevo])
      else if |t.entradas| == t.tam then
        var i := IndiceLru(t.entradas, ahora);
        t.(entradas := Sin(t.entradas, i) + [nuevo])
      else t
    else t
  }

  lemma InsertarTam(t: Cache, r: Registro, ahora: int)
    requires Insertable(t, ahora) && t.ultimoIndex <= t.tam
    ensures Insertar(t, r, ahora).tam == t.tam && Insertar(t, r, ahora).algoritmo == t.algoritmo
  {
  }

  /** A hit on entry `i`; only LRU notes the time. */
  function Tocar(t: Cache, i: nat, ahora: int): Cache
    requires i < |t.entradas|
  {
    if t.algoritmo == Lru then t.(entradas := t.entradas[i := t.entradas[i].(ultimoAcceso := ahora)]) else t
  }

  // ---------------------------------------------------------------- flush

  /** The loop of `limpiar_tlb` from index `i` on: after a removal it goes on at index 1. */
  function LimpiarDesde(entradas: seq<Registro>, i: nat, pid: nat): seq<Registro>
    decreases |entradas|, |entradas| - i
  {
    if i >= |entradas| then entradas
    else if entradas[i].pid == pid then LimpiarDesde(Sin(entradas, i), 1, pid)
    else LimpiarDesde(entradas, i + 1, pid)
  }

  function Limpiar(entradas: seq<Registro>, pid: nat): seq<Registro> {
    LimpiarDesde(entradas, 0, pid)
  }

  /** The entries of other processes, in order. */
  function Ajenas(entradas: seq<Registro>, pid: nat): (r: seq<Registro>)
    ensures forall e :: e in r <==> e in entradas && e.pid != pid
    ensures |r| <= |entradas|
  {
    if entradas == [] then []
    else if entradas[0].pid == pid then Ajenas(entradas[1..], pid)
    else [entradas[0]] + Ajenas(entradas[1..], pid)
  }

  lemma {:induction false} AjenasConcat(a: seq<Registro>, b: seq<Registro>, pid: nat)
    ensures Ajenas(a + b, pid) == Ajenas(a, pid) + Ajenas(b, pid)
  {
    if a == [] {
      assert a + b == b;
    } else {
      assert (a + b)[1..] == a[1..] + b;
      AjenasConcat(a[1..], b, pid);
    }
  }

  /** From index 1 on, the loop keeps the first entry and drops every entry of the process after it. */
  lemma {:induction false} LimpiarDesdeUno(entradas: seq<Registro>, i: nat, pid: nat)
    requires 1 <= i <= |entradas| && forall j :: 1 <= j < i ==> entradas[j].pid != pid
    ensures LimpiarDesde(entradas, i, pid) == [entradas[0]] + Ajenas(entradas[1..], pid)
    decreases |entradas|, |entradas| - i
  {
    var e := entradas;
    if i == |e| {
      TodasAjenas(e[1..], pid);
    } else if e[i].pid == pid {
      var s := Sin(e, i);
      LimpiarDesdeUno(s, 1, pid);
      assert e[1..] == e[1..i] + ([e[i]] + e[i + 1..]);
      assert s[1..] == e[1..i] + e[i + 1..];
      AjenasConcat(e[1..i], [e[i]] + e[i + 1..], pid);
      AjenasConcat(e[1..i], e[i + 1..], pid);
      assert Ajenas([e[i]] + e[i + 1..], pid) == Ajenas(e[i + 1..], pid);
    } else {
      LimpiarDesdeUno(e, i + 1, pid);
    }
  }

  lemma {:induction false} TodasAjenas(e: seq<Registro>, pid: nat)
    requires forall j :: 0 <= j < |e| ==> e[j].pid != pid
    ensures Ajenas(e, pid) == e
  {
    if e != [] {
      TodasAjenas(e[1..], pid);
    }
  }

  /** The flush keeps the other processes' entries in order. It also keeps the second entry when the first
      one is the process's, whoever that second one belongs to. */
  lemma LimpiarEs(e: seq<Registro>, pid: nat)
    ensures Limpiar(e, pid) ==
            if |e| >= 2 && e[0].pid == pid then [e[1]] + Ajenas(e[2..], pid) else Ajenas(e, pid)
  {
    if |e| > 0 {
      if e[0].pid == pid {
        var s := Sin(e, 0);
        assert s == e[1..];
        assert Limpiar(e, pid) == LimpiarDesde(s, 1, pid);
        if |e| >= 2 {
          LimpiarDesdeUno(s, 1, pid);
          assert s[1..] == e[2..];
        }
      } else {
        LimpiarDesdeUno(e, 1, pid);
        assert Limpiar(e, pid) == LimpiarDesde(e, 1, pid);
      }
    }
  }

  /** The flush drops every entry of the process if and only if the first two entries are not both its own. */
  lemma LimpiarTodoSii(e: seq<Registro>, pid: nat)
    ensures (forall r :: r in Limpiar(e, pid) ==> r.pid != pid) <==> !(|e| >= 2 && e[0].pid == pid && e[1].pid == pid)
  {
    LimpiarEs(e, pid);
    if |e| >= 2 && e[0].pid == pid && e[1].pid == pid {
      assert e[1] in Limpiar(e, pid);
    }
  }

  /** Nothing new appears, and no entry of another process is lost. */
  lemma LimpiarQuita(e: seq<Registro>, pid: nat)
    ensures |Limpiar(e, pid)| <= |e|
    ensures forall r :: r in Limpiar(e, pid) ==> r in e
    ensures forall r :: r in e && r.pid != pid ==> r in Limpiar(e, pid)
  {
    LimpiarEs(e, pid);
    if |e| >= 2 && e[0].pid == pid {
      assert e == [e[0], e[1]] + e[2..];
    }
  }

  // ---------------------------------------------------------------- size and keys

  ghost predicate ClavesUnicas(e: seq<Registro>) {
    forall i, j :: 0 <= i < j < |e| ==> !(e[i].pid == e[j].pid && e[i].pagina == e[j].pagina)
  }

  /** No more entries than configured, and one at most for each page. */
  ghost predicate Valida(t: Cache) {
    |t.entradas| <= t.tam && t.ultimoIndex <= t.tam && ClavesUnicas(t.entradas)
  }

  ghost predicate SinClave(e: seq<Registro>, r: Registro) {
    forall j :: 0 <= j < |e| ==> !EsDe(e[j], r.pid, r.pagina)
  }

  /** `n` has the entry `x` and, for the rest, only entries of `e`. */
  ghost predicate ConNueva(e: seq<Registro>, x: Registro, n: seq<Registro>) {
    ClavesUnicas(n) && Buscar(n, x.pid, x.pagina) >= 0 && forall r :: r in n ==> r in e || r == x
  }

  lemma AgregarUnica(e: seq<Registro>, x: Registro)
    requires ClavesUnicas(e) && SinClave(e, x)
    ensures ConNueva(e, x, e + [x])
  {
    assert (e + [x])[|e|] == x;
  }

  lemma ReemplazarUnica(e: seq<Registro>, i: nat, x: Registro)
    requires ClavesUnicas(e) && SinClave(e, x) && i < |e|
    ensures ConNueva(e, x, e[i := x])
  {
    assert e[i := x][i] == x;
  }

  lemma SinUnica(e: seq<Registro>, i: nat)
    requires ClavesUnicas(e) && i < |e|
    ensures ClavesUnicas(Sin(e, i)) && forall r :: r in Sin(e, i) ==> r in e
  {
    var s := Sin(e, i);
    assert forall j :: 0 <= j < |s| ==> s[j] == if j < i then e[j] else e[j + 1];
  }

  /** An insertion keeps the bound and the keys, and adds the entry asked for and no other. */
  lemma InsertarValida(t: Cache, r: Registro, ahora: int)
    requires Valida(t) && Insertable(t, ahora) && Buscar(t.entradas, r.pid, r.pagina) < 0
    ensures Valida(Insertar(t, r, ahora))
    ensures t.tam > 0 && t.algoritmo != Ninguno ==>
      ConNueva(t.entradas, r.(ultimoAcceso := if t.algoritmo == Lru then ahora else 0), Insertar(t, r, ahora).entradas)
    ensures !(t.tam > 0 && t.algoritmo != Ninguno) ==> Insertar(t, r, ahora) == t
  {
    hide Insertar, ConNueva, ClavesUnicas;
    assert SinClave(t.entradas, r);
    if t.algoritmo == Fifo && t.tam > 0 {
      InsertarFifoValida(t, r, ahora);
    } else if t.algoritmo == Lru && t.tam > 0 {
      InsertarLruValida(t, r, ahora);
    } else {
      SinInsertar(t, r, ahora);
    }
  }

  lemma SinInsertar(t: Cache, r: Registro, ahora: int)
    requires Insertable(t, ahora) && t.ultimoIndex <= t.tam && !(t.tam > 0 && t.algoritmo != Ninguno)
    ensures Insertar(t, r, ahora) == t
  {
  }

  lemma InsertarFifoValida(t: Cache, r: Registro, ahora: int)
    requires Valida(t) && Insertable(t, ahora) && SinClave(t.entradas, r) && t.algoritmo == Fifo && t.tam > 0
    ensures Valida(Insertar(t, r, ahora)) && ConNueva(t.entradas, r.(ultimoAcceso := 0), Insertar(t, r, ahora).entradas)
  {
    hide ConNueva, ClavesUnicas;
    var e, nuevo := t.entradas, r.(ultimoAcceso := 0);
    if |e| < t.tam {
      AgregarUnica(e, nuevo);
      NuevaUnica(e, nuevo, e + [nuevo]);
    } else {
      var i := if t.ultimoIndex == t.tam then 0 else t.ultimoIndex;
      ReemplazarUnica(e, i, nuevo);
      NuevaUnica(e, nuevo, e[i := nuevo]);
    }
  }

  lemma InsertarLruValida(t: Cache, r: Registro, ahora: int)
    requires Valida(t) && Insertable(t, ahora) && SinClave(t.entradas, r) && t.algoritmo == Lru && t.tam > 0
    ensures Valida(Insertar(t, r, ahora)) && ConNueva(t.entradas, r.(ultimoAcceso := ahora), Insertar(t, r, ahora).entradas)
  {
    hide ConNueva, ClavesUnicas, Sin, Menor;
    var e, nuevo := t.entradas, r.(ultimoAcceso := ahora);
    if |e| < t.tam {
      AgregarUnica(e, nuevo);
      NuevaUnica(e, nuevo, e + [nuevo]);
    } else {
      var i := IndiceLru(e, ahora);
      ReemplazoLru(e, i, nuevo);
      NuevaUnica(e, nuevo, Sin(e, i) + [nuevo]);
    }
  }

  lemma ReemplazoLru(e: seq<Registro>, i: nat, x: Registro)
    requires ClavesUnicas(e) && SinClave(e, x) && i < |e|
    ensures ConNueva(e, x, Sin(e, i) + [x]) && |Sin(e, i)| == |e| - 1
  {
    SinUnica(e, i);
    assert forall j :: 0 <= j < |Sin(e, i)| ==> Sin(e, i)[j] in e;
    AgregarUnica(Sin(e, i), x);
  }

  lemma NuevaUnica(e: seq<Registro>, x: Registro, n: seq<Registro>)
    requires ConNueva(e, x, n)
    ensures ClavesUnicas(n)
  {
  }

  lemma TocarValida(t: Cache, i: nat, ahora: int)
    requires Valida(t) && i < |t.entradas|
    ensures Valida(Tocar(t, i, ahora))
  {
  }

  lemma {:induction false} AjenasUnicas(e: seq<Registro>, pid: nat)
    requires ClavesUnicas(e)
    ensures ClavesUnicas(Ajenas(e, pid))
  {
    if e != [] {
      AjenasUnicas(e[1..], pid);
      PrimeraUnica(e, Ajenas(e[1..], pid));
    }
  }

  lemma PrimeraUnica(e: seq<Registro>, resto: seq<Registro>)
    requires e != [] && ClavesUnicas(e) && ClavesUnicas(resto) && forall r :: r in resto ==> r in e[1..]
    ensures ClavesUnicas([e[0]] + resto)
  {
    forall j | 0 <= j < |resto| ensures !EsDe(resto[j], e[0].pid, e[0].pagina) {
      assert resto[j] in e[1..];
    }
  }

  lemma LimpiarValida(t: Cache, pid: nat)
    requires Valida(t)
    ensures Valida(t.(entradas := Limpiar(t.entradas, pid)))
  {
    var e := t.entradas;
    LimpiarEs(e, pid);
    LimpiarQuita(e, pid);
    if |e| >= 2 && e[0].pid == pid {
      assert ClavesUnicas(e[1..]) && ClavesUnicas(e[2..]) && e[1..][1..] == e[2..];
      hide Limpiar, ClavesUnicas, Ajenas;
      AjenasUnicas(e[2..], pid);
      PrimeraUnica(e[1..], Ajenas(e[2..], pid));
    } else {
      AjenasUnicas(e, pid);
    }
  }

  // ---------------------------------------------------------------- FIFO

  /** While the TLB fills up nothing has been replaced yet. */
  ghost predicate EnOrden(t: Cache) {
    |t.entradas| < t.tam ==> t.ultimoIndex == 0 || t.ultimoIndex == t.tam
  }

  /** The entries from oldest to newest: the circular index cuts the list. */
  function Cola(t: Cache): seq<Registro> {
    if t.ultimoIndex <= |t.entradas| then t.entradas[t.ultimoIndex..] + t.entradas[..t.ultimoIndex] else t.entradas
  }

  /** Replacement at the circular index is a bounded queue: the newest goes in, and when full the oldest goes out. */
  lemma InsertarFifo(t: Cache, r: Registro, ahora: int)
    requires t.algoritmo == Fifo && t.tam > 0 && Valida(t) && EnOrden(t)
    ensures var n := Insertar(t, r, ahora);
            && EnOrden(n)
            && Cola(n) == (if |t.entradas| < t.tam then Cola(t) else Cola(t)[1..]) + [r.(ultimoAcceso := 0)]
  {
    hide ClavesUnicas;
    if |t.entradas| == t.tam {
      ReemplazoEnCola(t.entradas, t.ultimoIndex, r.(ultimoAcceso := 0));
    }
  }

  lemma ReemplazoEnCola(e: seq<Registro>, u: nat, x: Registro)
    requires |e| > 0 && u <= |e|
    ensures var i := if u == |e| then 0 else u;
            e[i := x][i + 1..] + e[i := x][..i + 1] == (e[u..] + e[..u])[1..] + [x]
  {
    var i := if u == |e| then 0 else u;
    assert e[i := x][i + 1..] == e[i + 1..] && e[i := x][..i + 1] == e[..i] + [x];
    assert (e[u..] + e[..u])[1..] == e[i + 1..] + e[..i];
  }

  // ---------------------------------------------------------------- LRU

  /** `cola` lists the entries from least to most recently used. */
  ghost predicate PorUso(cola: seq<Registro>, e: seq<Registro>) {
    |cola| == |e| && multiset(cola) == multiset(e) && Creciente(cola)
  }

  ghost predicate AntesDe(e: seq<Registro>, ahora: int) {
    forall r :: r in e ==> r.ultimoAcceso < ahora
  }

  /** Dropping one entry and putting it back, or another, as the last one used. */
  lemma PasarAlFinal(cola: seq<Registro>, k: nat, e: seq<Registro>, i: nat, x: Registro)
    requires PorUso(cola, e) && k < |cola| && i < |e| && cola[k] == e[i]
    requires forall r :: r in e ==> r.ultimoAcceso < x.ultimoAcceso
    ensures PorUso(Sin(cola, k) + [x], Sin(e, i) + [x])
  {
    MismosElementos(cola, e);
    SinOrdenada(cola, k, x);
    hide Sin;
    QuitarDelMulti(cola, k);
    QuitarDelMulti(e, i);
  }

  ghost predicate Creciente(s: seq<Registro>) {
    forall i, j :: 0 <= i < j < |s| ==> s[i].ultimoAcceso < s[j].ultimoAcceso
  }

  lemma SinOrdenada(cola: seq<Registro>, k: nat, x: Registro)
    requires Creciente(cola) && k < |cola| && forall r :: r in cola ==> r.ultimoAcceso < x.ultimoAcceso
    ensures Creciente(Sin(cola, k) + [x]) && |Sin(cola, k)| == |cola| - 1
  {
    var s := Sin(cola, k);
    assert forall j :: 0 <= j < |s| ==> s[j] == cola[if j < k then j else j + 1];
  }

  lemma AgregarAlFinal(cola: seq<Registro>, e: seq<Registro>, x: Registro)
    requires PorUso(cola, e) && forall r :: r in e ==> r.ultimoAcceso < x.ultimoAcceso
    ensures PorUso(cola + [x], e + [x])
  {
    MismosElementos(cola, e);
  }

  /** With a clock that advances, the victim is the least recently used entry. */
  lemma InsertarLru(t: Cache, cola: seq<Registro>, r: Registro, ahora: int)
    requires t.algoritmo == Lru && t.tam > 0 && Valida(t) && PorUso(cola, t.entradas) && AntesDe(t.entradas, ahora)
    ensures Insertable(t, ahora)
    ensures PorUso((if |t.entradas| < t.tam then cola else cola[1..]) + [r.(ultimoAcceso := ahora)], Insertar(t, r, ahora).entradas)
  {
    var e, nuevo := t.entradas, r.(ultimoAcceso := ahora);
    if |e| == t.tam {
      assert e[0].ultimoAcceso < ahora;
      IndiceLruSii(e, ahora);
      MenorEsPrimero(cola, e, ahora);
      PasarAlFinal(cola, 0, e, IndiceLru(e, ahora), nuevo);
      assert Sin(cola, 0) == cola[1..];
    } else {
      AgregarAlFinal(cola, e, nuevo);
    }
  }

  lemma MismosElementos(cola: seq<Registro>, e: seq<Registro>)
    requires multiset(cola) == multiset(e)
    ensures forall r :: r in cola <==> r in e
  {
    forall r ensures r in cola <==> r in e {
      assert r in multiset(cola) <==> r in multiset(e);
    }
  }

  lemma MenorEsPrimero(cola: seq<Registro>, e: seq<Registro>, ahora: int)
    requires PorUso(cola, e) && |e| > 0 && AntesDe(e, ahora) && IndiceLru(e, ahora) >= 0
    ensures e[IndiceLru(e, ahora)] == cola[0]
  {
    MismosElementos(cola, e);
    var v := e[IndiceLru(e, ahora)];
    assert v in e && v in cola;
    var k :| 0 <= k < |cola| && cola[k] == v;
    assert cola[0] in e;
    var j :| 0 <= j < |e| && e[j] == cola[0];
    assert v.ultimoAcceso <= e[j].ultimoAcceso;
  }

  lemma QuitarDelMulti(e: seq<Registro>, i: nat)
    requires i < |e|
    ensures |Sin(e, i)| == |e| - 1
    ensures multiset(Sin(e, i)) == multiset(e) - multiset{e[i]}
  {
    assert e == e[..i] + [e[i]] + e[i + 1..];
  }

  /** A hit makes the entry the most recently used one. */
  lemma TocarLru(t: Cache, cola: seq<Registro>, i: nat, k: nat, ahora: int)
    requires t.algoritmo == Lru && PorUso(cola, t.entradas) && AntesDe(t.entradas, ahora)
    requires i < |t.entradas| && k < |cola| && cola[k] == t.entradas[i]
    ensures PorUso(Sin(cola, k) + [cola[k].(ultimoAcceso := ahora)], Tocar(t, i, ahora).entradas)
  {
    var e := t.entradas;
    var n := e[i].(ultimoAcceso := ahora);
    PasarAlFinal(cola, k, e, i, n);
    ReemplazoMulti(e, i, n);
  }

  lemma ReemplazoMulti(e: seq<Registro>, i: nat, x: Registro)
    requires i < |e|
    ensures multiset(e[i := x]) == multiset(Sin(e, i) + [x])
  {
    assert e[i := x] == e[..i] + [x] + e[i + 1..];
  }
}
