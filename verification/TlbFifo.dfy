/** Runs of lookups of the TLB, FIFO replacement over them, and what a flush does to its order. */
module TlbFifo {
  import opened Comunes
  import opened Tlb

  /** A lookup of a page; on a miss the page table gives `marco`. */
  datatype Uso = Uso(pid: nat, pagina: nat, marco: nat, ahora: int)

  function Entrada(u: Uso): Registro {
    Registro(u.pid, u.pagina, u.marco, 0)
  }

  predicate Posible(t: Cache, u: Uso) {
    t.ultimoIndex <= t.tam && (Buscar(t.entradas, u.pid, u.pagina) < 0 ==> Insertable(t, u.ahora))
  }

  function Usar(t: Cache, u: Uso): Cache
    requires Posible(t, u)
  {
    var i := Buscar(t.entradas, u.pid, u.pagina);
    if i >= 0 then Tocar(t, i, u.ahora) else Insertar(t, Entrada(u), u.ahora)
  }

  ghost predicate Usos(ts: seq<Cache>, us: seq<Uso>) {
    && |ts| == |us| + 1
    && forall i :: 0 <= i < |us| ==> Posible(ts[i], us[i]) && ts[i + 1] == Usar(ts[i], us[i])
  }

  // ---------------------------------------------------------------- FIFO

  /** A bounded queue without repeated pages: a known page changes nothing, a new one goes in last,
      and the first one leaves when the queue is full. */
  function Encolar(cola: seq<Registro>, u: Uso, tam: nat): seq<Registro>
    requires tam > 0
  {
    if Buscar(cola, u.pid, u.pagina) >= 0 then cola
    else (if |cola| < tam then cola else cola[1..]) + [Entrada(u)]
  }

  function Encolados(cola: seq<Registro>, us: seq<Uso>, tam: nat): seq<Registro>
    requires tam > 0
  {
    if us == [] then cola else Encolar(Encolados(cola, us[..|us| - 1], tam), us[|us| - 1], tam)
  }

  /** A lookup of a TLB in arrival order is a step of the bounded queue. */
  lemma UsarFifo(t: Cache, u: Uso)
    requires t.algoritmo == Fifo && t.tam > 0 && Valida(t) && EnOrden(t)
    ensures Posible(t, u)
    ensures var n := Usar(t, u);
            Valida(n) && EnOrden(n) && Cola(n) == Encolar(Cola(t), u, t.tam) && n.tam == t.tam && n.algoritmo == Fifo
  {
    hide ClavesUnicas, Buscar;
    BuscarEnCola(t, u.pid, u.pagina);
    if Buscar(t.entradas, u.pid, u.pagina) < 0 {
      InsertarFifo(t, Entrada(u), u.ahora);
      InsertarValida(t, Entrada(u), u.ahora);
      LargoDeCola(t);
    }
  }

  lemma LargoDeCola(t: Cache)
    ensures |Cola(t)| == |t.entradas| && multiset(Cola(t)) == multiset(t.entradas)
  {
    if t.ultimoIndex <= |t.entradas| {
      assert t.entradas == t.entradas[..t.ultimoIndex] + t.entradas[t.ultimoIndex..];
    }
  }

  lemma BuscarEnCola(t: Cache, pid: nat, pagina: nat)
    ensures Buscar(Cola(t), pid, pagina) < 0 <==> Buscar(t.entradas, pid, pagina) < 0
  {
    LargoDeCola(t);
    MismosElementos(Cola(t), t.entradas);
    var i, j := Buscar(Cola(t), pid, pagina), Buscar(t.entradas, pid, pagina);
    if i >= 0 {
      assert Cola(t)[i] in t.entradas;
    }
    if j >= 0 {
      assert t.entradas[j] in Cola(t);
    }
  }

  /** Over any run of lookups the FIFO TLB is the bounded queue of the pages looked up. */
  lemma {:induction false} CorridaFifo(ts: seq<Cache>, us: seq<Uso>, i: nat)
    requires Usos(ts, us) && i < |ts|
    requires ts[0].algoritmo == Fifo && ts[0].tam > 0 && Valida(ts[0]) && EnOrden(ts[0])
    ensures Valida(ts[i]) && EnOrden(ts[i]) && ts[i].tam == ts[0].tam && ts[i].algoritmo == Fifo
    ensures Cola(ts[i]) == Encolados(Cola(ts[0]), us[..i], ts[0].tam)
  {
    if i > 0 {
      CorridaFifo(ts, us, i - 1);
      hide Valida, EnOrden, Cola;
      assert us[..i][..i - 1] == us[..i - 1];
      UsarFifo(ts[i - 1], us[i - 1]);
    } else {
      assert us[..i] == [];
    }
  }

  // ---------------------------------------------------------------- flush under FIFO

  /** From `t` on, whatever is looked up, the TLB holds what the bounded queue that starts as `cola` holds. */
  ghost predicate SigueFifo(t: Cache, cola: seq<Registro>)
    requires t.tam > 0
  {
    forall ts: seq<Cache>, us: seq<Uso> :: Usos(ts, us) && ts[0] == t ==> multiset(ts[|us|].entradas) == multiset(Encolados(cola, us, t.tam))
  }

  /** Those of `cola` that are in `quedan`, in the order of `cola`. */
  function Quedan(cola: seq<Registro>, quedan: seq<Registro>): (r: seq<Registro>)
    ensures |r| <= |cola| && forall x :: x in r ==> x in quedan
  {
    if cola == [] then []
    else if cola[0] in quedan then [cola[0]] + Quedan(cola[1..], quedan)
    else Quedan(cola[1..], quedan)
  }

  function Vaciada(t: Cache, pid: nat): Cache {
    t.(entradas := Limpiar(t.entradas, pid))
  }

  /** After a flush of a FIFO TLB the entries left go on leaving in order of arrival if and only if the
      index is at an end or the process had no entry. */
  lemma LimpiarFifoSii(t: Cache, pid: nat)
    requires t.algoritmo == Fifo && t.tam > 0 && Valida(t) && EnOrden(t)
    ensures SigueFifo(Vaciada(t, pid), Quedan(Cola(t), Limpiar(t.entradas, pid))) <==>
            t.ultimoIndex == 0 || t.ultimoIndex == t.tam || forall r :: r in t.entradas ==> r.pid != pid
  {
    if t.ultimoIndex == 0 || t.ultimoIndex == t.tam || forall r :: r in t.entradas ==> r.pid != pid {
      ColaVaciada(t, pid);
      LimpiarValida(t, pid);
      OrdenSigue(Vaciada(t, pid));
    } else {
      var r :| r in t.entradas && r.pid == pid;
      LimpiarAlgo(t.entradas, pid, r);
      LimpiarQuita(t.entradas, pid);
      LargoDeCola(t);
      NoSigue(Vaciada(t, pid), Quedan(Cola(t), Limpiar(t.entradas, pid)));
    }
  }

  /** In arrival order, the queue is the cached one. */
  lemma OrdenSigue(t: Cache)
    requires t.algoritmo == Fifo && t.tam > 0 && Valida(t) && EnOrden(t)
    ensures SigueFifo(t, Cola(t))
  {
    forall ts: seq<Cache>, us: seq<Uso> | Usos(ts, us) && ts[0] == t
      ensures multiset(ts[|us|].entradas) == multiset(Encolados(Cola(t), us, t.tam))
    {
      CorridaFifo(ts, us, |us|);
      LargoDeCola(ts[|us|]);
      assert us[..|us|] == us;
    }
  }

  lemma {:induction false} QuedanTodas(s: seq<Registro>, quedan: seq<Registro>)
    requires forall x :: x in s ==> x in quedan
    ensures Quedan(s, quedan) == s
  {
    if s != [] {
      QuedanTodas(s[1..], quedan);
    }
  }

  lemma {:induction false} QuedanAjenas(s: seq<Registro>, quedan: seq<Registro>, pid: nat)
    requires forall x :: x in s ==> (x in quedan <==> x.pid != pid)
    ensures Quedan(s, quedan) == Ajenas(s, pid)
  {
    if s != [] {
      QuedanAjenas(s[1..], quedan, pid);
    }
  }

  /** The flush keeps the order of the list. */
  lemma LimpiarEnOrden(e: seq<Registro>, pid: nat)
    requires ClavesUnicas(e)
    ensures Quedan(e, Limpiar(e, pid)) == Limpiar(e, pid)
  {
    LimpiarEs(e, pid);
    var l := Limpiar(e, pid);
    if |e| >= 2 && e[0].pid == pid {
      assert e[0] !in l by {
        assert forall x :: x in e[2..] ==> x != e[0] && x != e[1];
      }
      assert e[1] in l;
      QuedanAjenas(e[2..], l, pid) by {
        assert forall x :: x in e[2..] ==> x != e[1];
      }
      assert e[1..][1..] == e[2..];
    } else {
      QuedanAjenas(e, l, pid);
    }
  }

  lemma SinQuitar(e: seq<Registro>, pid: nat)
    requires forall r :: r in e ==> r.pid != pid
    ensures Limpiar(e, pid) == e
  {
    LimpiarEs(e, pid);
    TodasAjenas(e, pid);
  }

  lemma LimpiarAlgo(e: seq<Registro>, pid: nat, r: Registro)
    requires r in e && r.pid == pid
    ensures |Limpiar(e, pid)| < |e|
  {
    LimpiarEs(e, pid);
    if !(|e| >= 2 && e[0].pid == pid) {
      AjenasMenos(e, pid, r);
    }
  }

  lemma {:induction false} AjenasMenos(e: seq<Registro>, pid: nat, r: Registro)
    requires r in e && r.pid == pid
    ensures |Ajenas(e, pid)| < |e|
  {
    if e[0].pid != pid {
      AjenasMenos(e[1..], pid, r);
    }
  }

  lemma ColaVaciada(t: Cache, pid: nat)
    requires Valida(t) && EnOrden(t)
    requires t.ultimoIndex == 0 || t.ultimoIndex == t.tam || forall r :: r in t.entradas ==> r.pid != pid
    ensures Cola(Vaciada(t, pid)) == Quedan(Cola(t), Limpiar(t.entradas, pid)) && EnOrden(Vaciada(t, pid))
  {
    hide ClavesUnicas;
    var e := t.entradas;
    LimpiarQuita(e, pid);
    if t.ultimoIndex == 0 || t.ultimoIndex == t.tam {
      assert Cola(t) == e && Cola(Vaciada(t, pid)) == Limpiar(e, pid);
      LimpiarEnOrden(e, pid);
    } else {
      SinQuitar(e, pid);
      LargoDeCola(t);
      MismosElementos(Cola(t), e);
      QuedanTodas(Cola(t), e);
    }
  }

  /** A page not cached yet, the `k`-th of a process without entries. */
  function Fresca(pid: nat, k: nat): Uso {
    Uso(pid, k, 0, 0)
  }

  function Frescas(pid: nat, n: nat): seq<Uso> {
    seq(n, k requires k >= 0 => Fresca(pid, k))
  }

  /** What is at position `j` after `k` fresh pages: they fill the list up, then replace from the index on. */
  function Puesta(t: Cache, pid: nat, k: nat, j: nat): Registro
    requires |t.entradas| <= t.tam
  {
    var falta, u := t.tam - |t.entradas|, t.ultimoIndex;
    if k > falta && u <= j < u + k - falta then Entrada(Fresca(pid, falta + j - u))
    else if j < |t.entradas| then t.entradas[j]
    else Entrada(Fresca(pid, j - |t.entradas|))
  }

  function TrasFrescas(t: Cache, pid: nat, k: nat): Cache
    requires |t.entradas| <= t.tam
  {
    var falta := t.tam - |t.entradas|;
    var n := if k <= falta then |t.entradas| + k else t.tam;
    t.(entradas := seq(n, j requires 0 <= j < n => Puesta(t, pid, k, j)),
      ultimoIndex := if k <= falta then t.ultimoIndex else t.ultimoIndex + k - falta)
  }

  lemma PasoFresca(t: Cache, pid: nat, k: nat)
    requires t.algoritmo == Fifo && |t.entradas| < t.tam && 0 < t.ultimoIndex < t.tam
    requires k < t.tam - |t.entradas| + t.tam - t.ultimoIndex && forall r :: r in t.entradas ==> r.pid != pid
    ensures var n := TrasFrescas(t, pid, k);
            && Buscar(n.entradas, pid, k) < 0 && Posible(n, Fresca(pid, k))
            && Usar(n, Fresca(pid, k)) == TrasFrescas(t, pid, k + 1)
  {
    hide Buscar;
    var n, m := TrasFrescas(t, pid, k), TrasFrescas(t, pid, k + 1);
    NoEstaFresca(t, pid, k);
    var x := Usar(n, Fresca(pid, k));
    assert |x.entradas| == |m.entradas|;
    assert x.entradas == m.entradas;
  }

  lemma NoEstaFresca(t: Cache, pid: nat, k: nat)
    requires |t.entradas| < t.tam && 0 < t.ultimoIndex < t.tam
    requires k <= t.tam - |t.entradas| + t.tam - t.ultimoIndex && forall r :: r in t.entradas ==> r.pid != pid
    ensures Buscar(TrasFrescas(t, pid, k).entradas, pid, k) < 0
  {
    var n := TrasFrescas(t, pid, k);
    forall j | 0 <= j < |n.entradas| ensures !EsDe(n.entradas[j], pid, k) {
      assert n.entradas[j] == Puesta(t, pid, k, j);
      if j < |t.entradas| {
        assert t.entradas[j] in t.entradas;
      }
    }
  }

  lemma CorridaFresca(t: Cache, pid: nat, n: nat) returns (ts: seq<Cache>)
    requires t.algoritmo == Fifo && |t.entradas| < t.tam && 0 < t.ultimoIndex < t.tam
    requires n <= t.tam - |t.entradas| + t.tam - t.ultimoIndex && forall r :: r in t.entradas ==> r.pid != pid
    ensures Usos(ts, Frescas(pid, n)) && ts[0] == t && ts[n] == TrasFrescas(t, pid, n)
  {
    ts := seq(n + 1, k requires 0 <= k <= n => TrasFrescas(t, pid, k));
    assert TrasFrescas(t, pid, 0).entradas == t.entradas;
    forall k | 0 <= k < n
      ensures Posible(ts[k], Frescas(pid, n)[k]) && ts[k + 1] == Usar(ts[k], Frescas(pid, n)[k])
    {
      PasoFresca(t, pid, k);
    }
  }

  /** `q` ends with the latest of the first `n` fresh pages, in order, and knows no later one. */
  ghost predicate Ultimas(q: seq<Registro>, pid: nat, n: nat) {
    && (forall j :: 0 <= j < |q| && |q| - n <= j ==> q[j] == Entrada(Fresca(pid, n - |q| + j)))
    && (forall r :: r in q && r.pid == pid ==> r.pagina < n)
  }

  lemma UnaFresca(q: seq<Registro>, pid: nat, n: nat, tam: nat)
    requires tam > 0 && |q| <= tam && Ultimas(q, pid, n)
    ensures var m := Encolar(q, Fresca(pid, n), tam);
            Ultimas(m, pid, n + 1) && |m| == if |q| < tam then |q| + 1 else tam
  {
    NoEstaAun(q, pid, n);
    hide Buscar, Ultimas;
    AlFinalFresca(q, pid, n);
    if |q| == tam {
      SinPrimera(q, pid, n);
      AlFinalFresca(q[1..], pid, n);
    }
  }

  lemma NoEstaAun(q: seq<Registro>, pid: nat, n: nat)
    requires Ultimas(q, pid, n)
    ensures Buscar(q, pid, n) < 0
  {
  }

  lemma SinPrimera(q: seq<Registro>, pid: nat, n: nat)
    requires Ultimas(q, pid, n) && q != []
    ensures Ultimas(q[1..], pid, n)
  {
    assert forall j :: 0 <= j < |q| - 1 ==> q[1..][j] == q[j + 1];
  }

  lemma AlFinalFresca(q: seq<Registro>, pid: nat, n: nat)
    requires Ultimas(q, pid, n)
    ensures Ultimas(q + [Entrada(Fresca(pid, n))], pid, n + 1)
  {
  }

  /** The queue keeps the latest of the fresh pages, in order. */
  lemma {:induction false} EncoladasFrescas(cola: seq<Registro>, pid: nat, n: nat, tam: nat)
    requires 0 < tam && |cola| <= tam && forall r :: r in cola ==> r.pid != pid
    ensures var q := Encolados(cola, Frescas(pid, n), tam);
            Ultimas(q, pid, n) && |q| == if |cola| + n < tam then |cola| + n else tam
  {
    if n > 0 {
      EncoladasFrescas(cola, pid, n - 1, tam);
      var us := Frescas(pid, n);
      assert us[..n - 1] == Frescas(pid, n - 1) && us[n - 1] == Fresca(pid, n - 1);
      hide Ultimas, Encolar;
      UnaFresca(Encolados(cola, us[..n - 1], tam), pid, n - 1, tam);
    }
  }

  /** How many fresh pages it takes, and which of them the index drops too soon. */
  function Hasta(t: Cache): (nat, nat)
    requires |t.entradas| < t.tam
  {
    var e, u := |t.entradas|, t.ultimoIndex;
    if u < e then (t.tam - u + 1, 0) else (t.tam - e + 1, u - e)
  }

  lemma PerdidaFresca(t: Cache, pid: nat)
    requires |t.entradas| < t.tam && 0 < t.ultimoIndex < t.tam && forall r :: r in t.entradas ==> r.pid != pid
    ensures var (n, k) := Hasta(t);
            Entrada(Fresca(pid, k)) !in TrasFrescas(t, pid, n).entradas
  {
    var (n, k) := Hasta(t);
    var final := TrasFrescas(t, pid, n).entradas;
    forall j | 0 <= j < |final| ensures final[j] != Entrada(Fresca(pid, k)) {
      assert final[j] == Puesta(t, pid, n, j);
      if j < |t.entradas| {
        assert t.entradas[j] in t.entradas;
      }
    }
  }

  /** With the list short of its size and the index inside it, some run keeps the wrong entries. */
  lemma NoSigue(t: Cache, cola: seq<Registro>)
    requires t.algoritmo == Fifo && |t.entradas| < t.tam && 0 < t.ultimoIndex < t.tam
    requires |cola| <= t.tam && forall r :: r in cola ==> r in t.entradas
    ensures !SigueFifo(t, cola)
  {
    hide Usos, TrasFrescas, Encolados;
    var pid := PidLibre(t.entradas);
    var (n, k) := Hasta(t);
    var ts := CorridaFresca(t, pid, n);
    EncoladasFrescas(cola, pid, n, t.tam);
    PerdidaFresca(t, pid);
    var q, x := Encolados(cola, Frescas(pid, n), t.tam), Entrada(Fresca(pid, k));
    assert q[|q| - n + k] == x;
    assert x in multiset(q) && x !in multiset(ts[n].entradas);
  }

  lemma PidLibre(e: seq<Registro>) returns (pid: nat)
    ensures forall r :: r in e ==> r.pid < pid
  {
    pid := 0;
    for i := 0 to |e|
      invariant forall j :: 0 <= j < i ==> e[j].pid < pid
    {
      if pid <= e[i].pid {
        pid := e[i].pid + 1;
      }
    }
  }
}
