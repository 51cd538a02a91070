/** LRU replacement over runs of lookups: the pages cached are the latest looked up. */
module TlbLru {
  import opened Comunes
  import opened Tlb
  import opened TlbFifo

  type Clave = (nat, nat)

  function ClaveDe(r: Registro): Clave {
    (r.pid, r.pagina)
  }

  function Claves(s: seq<Registro>): (r: seq<Clave>)
    ensures |r| == |s|
  {
    seq(|s|, i requires 0 <= i < |s| => ClaveDe(s[i]))
  }

  /** The pages looked up, each once, from the one whose last use is oldest to the latest used. */
  function Recientes(us: seq<Uso>): seq<Clave> {
    if us == [] then []
    else
      var u := us[|us| - 1];
      SinClaveDe(Recientes(us[..|us| - 1]), (u.pid, u.pagina)) + [(u.pid, u.pagina)]
  }

  function SinClaveDe(s: seq<Clave>, c: Clave): seq<Clave> {
    if s == [] then []
    else if s[0] == c then SinClaveDe(s[1..], c)
    else [s[0]] + SinClaveDe(s[1..], c)
  }

  /** The last lookup of a page, or -1. */
  function UltimoUso(us: seq<Uso>, c: Clave): (k: int)
    ensures -1 <= k < |us|
    ensures k >= 0 ==> (us[k].pid, us[k].pagina) == c
    ensures forall j :: k < j < |us| ==> (us[j].pid, us[j].pagina) != c
  {
    if us == [] then -1
    else
      var u := us[|us| - 1];
      if (u.pid, u.pagina) == c then |us| - 1 else UltimoUso(us[..|us| - 1], c)
  }

  /** The clock readings only go forward. */
  ghost predicate RelojAvanza(us: seq<Uso>) {
    forall i, j :: 0 <= i < j < |us| ==> us[i].ahora < us[j].ahora
  }

  lemma {:induction false} SinClaveTiene(s: seq<Clave>, c: Clave)
    ensures forall x :: x in SinClaveDe(s, c) <==> x in s && x != c
  {
    if s != [] {
      SinClaveTiene(s[1..], c);
    }
  }

  lemma {:induction false} SinClaveConcat(a: seq<Clave>, b: seq<Clave>, c: Clave)
    ensures SinClaveDe(a + b, c) == SinClaveDe(a, c) + SinClaveDe(b, c)
  {
    if a == [] {
      assert a + b == b;
    } else {
      assert (a + b)[1..] == a[1..] + b;
      SinClaveConcat(a[1..], b, c);
    }
  }

  lemma {:induction false} SinClaveNada(s: seq<Clave>, c: Clave)
    requires c !in s
    ensures SinClaveDe(s, c) == s
  {
    if s != [] {
      SinClaveNada(s[1..], c);
    }
  }

  ghost predicate Distintas(s: seq<Clave>) {
    forall i, j :: 0 <= i < j < |s| ==> s[i] != s[j]
  }

  lemma SinClaveEnMedio(a: seq<Clave>, c: Clave, b: seq<Clave>)
    requires c !in a && c !in b
    ensures SinClaveDe(a + ([c] + b), c) == a + b
  {
    assert ([c] + b)[0] == c && ([c] + b)[1..] == b;
    assert SinClaveDe([c] + b, c) == SinClaveDe(b, c);
    hide SinClaveDe;
    SinClaveConcat(a, [c] + b, c);
    SinClaveNada(a, c);
    SinClaveNada(b, c);
  }

  lemma UnaSolaVez(s: seq<Clave>, k: nat)
    requires Distintas(s) && k < |s|
    ensures s[k] !in s[..k] && s[k] !in s[k + 1..]
  {
  }

  lemma SinClaveEs(s: seq<Clave>, k: nat)
    requires Distintas(s) && k < |s|
    ensures SinClaveDe(s, s[k]) == Sin(s, k)
  {
    hide SinClaveDe, Distintas;
    var a, c, b := s[..k], s[k], s[k + 1..];
    UnaSolaVez(s, k);
    SinClaveEnMedio(a, c, b);
    assert s == a + ([c] + b);
  }

  ghost predicate PorUltimoUso(s: seq<Clave>, us: seq<Uso>) {
    forall i, j :: 0 <= i < j < |s| ==> UltimoUso(us, s[i]) < UltimoUso(us, s[j])
  }

  lemma {:induction false} SinClaveOrdenada(s: seq<Clave>, c: Clave, us: seq<Uso>)
    requires PorUltimoUso(s, us)
    ensures PorUltimoUso(SinClaveDe(s, c), us)
  {
    if s != [] {
      SinClaveOrdenada(s[1..], c, us);
      SinClaveTiene(s[1..], c);
      forall x | x in SinClaveDe(s[1..], c) ensures UltimoUso(us, s[0]) < UltimoUso(us, x) {
        assert x in s[1..];
        var j :| 0 <= j < |s| - 1 && s[1..][j] == x;
        assert s[j + 1] == x;
      }
    }
  }

  lemma UltimoUsoMas(us: seq<Uso>, u: Uso, x: Clave)
    ensures UltimoUso(us + [u], x) == if (u.pid, u.pagina) == x then |us| else UltimoUso(us, x)
  {
    assert (us + [u])[..|us|] == us;
  }

  /** A lookup puts its page at the end of the list ordered by last use. */
  lemma OrdenadaMas(s: seq<Clave>, us: seq<Uso>, u: Uso)
    requires PorUltimoUso(s, us)
    ensures var c := (u.pid, u.pagina);
            PorUltimoUso(SinClaveDe(s, c) + [c], us + [u])
  {
    var c := (u.pid, u.pagina);
    SinClaveOrdenada(s, c, us);
    SinClaveTiene(s, c);
    hide SinClaveDe, UltimoUso;
    var m := SinClaveDe(s, c);
    forall i, j | 0 <= i < j < |m + [c]| ensures UltimoUso(us + [u], (m + [c])[i]) < UltimoUso(us + [u], (m + [c])[j]) {
      assert m[i] in m;
      UltimoUsoMas(us, u, m[i]);
      UltimoUsoMas(us, u, (m + [c])[j]);
    }
  }

  lemma RecientesMas(us: seq<Uso>, u: Uso)
    ensures Recientes(us + [u]) == SinClaveDe(Recientes(us), (u.pid, u.pagina)) + [(u.pid, u.pagina)]
  {
    assert (us + [u])[..|us|] == us;
  }

  /** The list has exactly the pages looked up, in the order of their last lookups. */
  lemma {:induction false} RecientesSii(us: seq<Uso>)
    ensures forall c :: c in Recientes(us) <==> UltimoUso(us, c) >= 0
    ensures PorUltimoUso(Recientes(us), us)
  {
    if us != [] {
      var antes, u := us[..|us| - 1], us[|us| - 1];
      assert us == antes + [u];
      RecientesSii(antes);
      hide Recientes, PorUltimoUso, UltimoUso, SinClaveDe;
      OrdenadaMas(Recientes(antes), antes, u);
      RecientesMas(antes, u);
      SinClaveTiene(Recientes(antes), (u.pid, u.pagina));
      forall c ensures c in Recientes(us) <==> UltimoUso(us, c) >= 0 {
        UltimoUsoMas(antes, u, c);
      }
    }
  }

  function LasUltimas(s: seq<Clave>, n: nat): seq<Clave> {
    if |s| <= n then s else s[|s| - n..]
  }

  lemma LasUltimasDe(a: seq<Clave>, b: seq<Clave>, n: nat)
    requires |b| == n || (|b| < n && a == [])
    ensures LasUltimas(a + b, n) == b
  {
  }

  /** How the latest `tam` pages change when one more page is looked up. */
  lemma UltimasPaso(s: seq<Clave>, c: Clave, tam: nat)
    requires Distintas(s) && tam > 0
    ensures var b := LasUltimas(s, tam);
            LasUltimas(SinClaveDe(s, c) + [c], tam)
            == (if c in b then SinClaveDe(b, c) else if |b| < tam then b else b[1..]) + [c]
  {
    var b := LasUltimas(s, tam);
    var a := s[..|s| - |b|];
    assert s == a + b;
    SinClaveConcat(a, b, c);
    if c in b {
      UltimasConocida(a, b, c, tam);
    } else {
      SinClaveNada(b, c);
      UltimasNueva(SinClaveDe(a, c), b, c, tam);
    }
  }

  lemma UltimasConocida(a: seq<Clave>, b: seq<Clave>, c: Clave, tam: nat)
    requires Distintas(a + b) && c in b && tam > 0 && (|b| == tam || (|b| < tam && a == []))
    ensures LasUltimas(SinClaveDe(a, c) + SinClaveDe(b, c) + [c], tam) == SinClaveDe(b, c) + [c]
  {
    var k :| 0 <= k < |b| && b[k] == c;
    forall i | 0 <= i < |a| ensures a[i] != c {
      assert (a + b)[i] == a[i] && (a + b)[|a| + k] == c;
    }
    forall i, j | 0 <= i < j < |b| ensures b[i] != b[j] {
      assert (a + b)[|a| + i] == b[i] && (a + b)[|a| + j] == b[j];
    }
    SinClaveNada(a, c);
    SinClaveEs(b, k);
    hide SinClaveDe, Distintas, LasUltimas;
    assert a + SinClaveDe(b, c) + [c] == a + (SinClaveDe(b, c) + [c]);
    LasUltimasDe(a, SinClaveDe(b, c) + [c], tam);
  }

  lemma UltimasNueva(a: seq<Clave>, b: seq<Clave>, c: Clave, tam: nat)
    requires tam > 0 && (|b| == tam || (|b| < tam && a == []))
    ensures LasUltimas(a + b + [c], tam) == (if |b| < tam then b else b[1..]) + [c]
  {
    if |b| < tam {
      LasUltimasDe(a, b + [c], tam);
      assert a + b + [c] == a + (b + [c]);
    } else {
      assert a + b + [c] == (a + [b[0]]) + (b[1..] + [c]);
      LasUltimasDe(a + [b[0]], b[1..] + [c], tam);
    }
  }

  /** A run from an empty LRU TLB. */
  ghost predicate LruDesdeVacia(ts: seq<Cache>, us: seq<Uso>) {
    && Usos(ts, us) && RelojAvanza(us)
    && ts[0].algoritmo == Lru && ts[0].tam > 0 && ts[0].entradas == [] && ts[0].ultimoIndex <= ts[0].tam
  }

  /** `cola` lists the entries by use, and their pages are the latest `tam` looked up. */
  ghost predicate ColaDeUso(t: Cache, cola: seq<Registro>, us: seq<Uso>) {
    && t.algoritmo == Lru && Valida(t) && t.tam > 0 && PorUso(cola, t.entradas)
    && Claves(cola) == LasUltimas(Recientes(us), t.tam)
  }

  /** Every entry carries the time of some lookup. */
  ghost predicate Fechadas(e: seq<Registro>, us: seq<Uso>) {
    forall r :: r in e ==> exists k :: 0 <= k < |us| && r.ultimoAcceso == us[k].ahora
  }

  lemma BuscarEnColaLru(cola: seq<Registro>, e: seq<Registro>, pid: nat, pagina: nat)
    requires multiset(cola) == multiset(e)
    ensures Buscar(e, pid, pagina) >= 0 <==> (pid, pagina) in Claves(cola)
    ensures forall k :: 0 <= k < |cola| && Claves(cola)[k] == (pid, pagina) && ClavesUnicas(e) && Buscar(e, pid, pagina) >= 0
              ==> cola[k] == e[Buscar(e, pid, pagina)]
  {
    MismosElementos(cola, e);
    var b := Buscar(e, pid, pagina);
    if b >= 0 {
      assert e[b] in cola;
      var k :| 0 <= k < |cola| && cola[k] == e[b];
      assert Claves(cola)[k] == (pid, pagina);
    }
    forall k | 0 <= k < |cola| && Claves(cola)[k] == (pid, pagina)
      ensures b >= 0 && (ClavesUnicas(e) ==> cola[k] == e[b])
    {
      assert cola[k] in e;
      var j :| 0 <= j < |e| && e[j] == cola[k];
      assert EsDe(e[j], pid, pagina);
    }
  }

  lemma ClavesDistintas(cola: seq<Registro>, e: seq<Registro>)
    requires PorUso(cola, e) && ClavesUnicas(e)
    ensures Distintas(Claves(cola))
  {
    MismosElementos(cola, e);
    forall i, j | 0 <= i < j < |cola| ensures ClaveDe(cola[i]) != ClaveDe(cola[j]) {
      assert cola[i] in e && cola[j] in e && cola[i].ultimoAcceso < cola[j].ultimoAcceso;
    }
  }

  lemma ClavesSin(cola: seq<Registro>, k: nat, x: Registro)
    requires k < |cola|
    ensures Claves(Sin(cola, k) + [x]) == Sin(Claves(cola), k) + [ClaveDe(x)]
  {
    assert |Sin(cola, k)| == |cola| - 1;
    assert forall j :: 0 <= j < |cola| - 1 ==> Sin(cola, k)[j] == cola[if j < k then j else j + 1];
    assert forall j :: 0 <= j < |cola| - 1 ==> Sin(Claves(cola), k)[j] == Claves(cola)[if j < k then j else j + 1];
  }

  lemma ClavesMas(cola: seq<Registro>, x: Registro)
    ensures Claves(cola + [x]) == Claves(cola) + [ClaveDe(x)]
    ensures cola != [] ==> Claves(cola[1..]) == Claves(cola)[1..]
  {
  }

  /** A hit. */
  lemma AciertoLru(t: Cache, cola: seq<Registro>, us: seq<Uso>, u: Uso) returns (nueva: seq<Registro>)
    requires ColaDeUso(t, cola, us) && AntesDe(t.entradas, u.ahora) && Distintas(Recientes(us))
    requires Buscar(t.entradas, u.pid, u.pagina) >= 0
    ensures ColaDeUso(Tocar(t, Buscar(t.entradas, u.pid, u.pagina), u.ahora), nueva, us + [u])
  {
    hide Buscar, SinClaveDe, LasUltimas, Sin, AntesDe, PorUso, ClavesUnicas, Distintas, Recientes;
    var e, c, i := t.entradas, (u.pid, u.pagina), Buscar(t.entradas, u.pid, u.pagina);
    PorUsoEs(cola, e);
    BuscarEnColaLru(cola, e, u.pid, u.pagina);
    var k :| 0 <= k < |cola| && Claves(cola)[k] == c;
    ClavesDistintas(cola, e);
    TocarLru(t, cola, i, k, u.ahora);
    TocarValida(t, i, u.ahora);
    nueva := Sin(cola, k) + [cola[k].(ultimoAcceso := u.ahora)];
    ClavesSin(cola, k, cola[k].(ultimoAcceso := u.ahora));
    UltimasPaso(Recientes(us), c, t.tam);
    SinClaveEs(Claves(cola), k);
    RecientesMas(us, u);
  }

  lemma PorUsoEs(cola: seq<Registro>, e: seq<Registro>)
    requires PorUso(cola, e)
    ensures |cola| == |e| && multiset(cola) == multiset(e)
  {
  }

  /** A miss. */
  lemma FalloLru(t: Cache, cola: seq<Registro>, us: seq<Uso>, u: Uso) returns (nueva: seq<Registro>)
    requires ColaDeUso(t, cola, us) && AntesDe(t.entradas, u.ahora) && Distintas(Recientes(us))
    requires Buscar(t.entradas, u.pid, u.pagina) < 0
    ensures Insertable(t, u.ahora) && ColaDeUso(Insertar(t, Entrada(u), u.ahora), nueva, us + [u])
  {
    hide Buscar, SinClaveDe, LasUltimas, Sin, AntesDe, PorUso, ClavesUnicas, Distintas, Recientes, Insertar, Insertable, ConNueva;
    var e, c, x := t.entradas, (u.pid, u.pagina), Entrada(u).(ultimoAcceso := u.ahora);
    PorUsoEs(cola, e);
    BuscarEnColaLru(cola, e, u.pid, u.pagina);
    InsertarLru(t, cola, Entrada(u), u.ahora);
    InsertarValida(t, Entrada(u), u.ahora);
    InsertarTam(t, Entrada(u), u.ahora);
    var resto := if |e| < t.tam then cola else cola[1..];
    nueva := resto + [x];
    ClavesMas(cola, x);
    ClavesMas(resto, x);
    UltimasPaso(Recientes(us), c, t.tam);
    RecientesMas(us, u);
  }

  lemma FechadasAntes(e: seq<Registro>, us: seq<Uso>, i: nat)
    requires RelojAvanza(us) && i < |us| && Fechadas(e, us[..i])
    ensures AntesDe(e, us[i].ahora)
  {
    forall r | r in e ensures r.ultimoAcceso < us[i].ahora {
      var k :| 0 <= k < i && r.ultimoAcceso == us[..i][k].ahora;
      assert us[..i][k] == us[k];
    }
  }

  lemma UsarFechadas(t: Cache, us: seq<Uso>, u: Uso)
    requires t.algoritmo == Lru && Posible(t, u) && Fechadas(t.entradas, us)
    ensures Fechadas(Usar(t, u).entradas, us + [u])
  {
    hide Buscar, Insertable;
    var n := Usar(t, u).entradas;
    forall r | r in n ensures exists k :: 0 <= k <= |us| && r.ultimoAcceso == (us + [u])[k].ahora {
      if r in t.entradas {
        var k :| 0 <= k < |us| && r.ultimoAcceso == us[k].ahora;
        assert (us + [u])[k] == us[k];
      } else {
        assert r.ultimoAcceso == (us + [u])[|us|].ahora;
      }
    }
  }

  /** Over any run of lookups from an empty LRU TLB whose clock advances, the pages cached are the latest `tam`
      looked up, and `cola` lists them by last use. */
  lemma {:induction false} CorridaLru(ts: seq<Cache>, us: seq<Uso>, i: nat) returns (cola: seq<Registro>)
    requires LruDesdeVacia(ts, us) && i < |ts|
    ensures ColaDeUso(ts[i], cola, us[..i]) && ts[i].tam == ts[0].tam && Fechadas(ts[i].entradas, us[..i])
  {
    hide *;
    if i == 0 {
      cola := [];
      EmpiezaVacia(ts, us);
      assert us[..i] == [];
    } else {
      UsosPaso(ts, us, i);
      var antes := CorridaLru(ts, us, i - 1);
      FechadasAntes(ts[i - 1].entradas, us, i - 1);
      cola := PasoLru(ts[i - 1], antes, us[..i - 1], us[i - 1]);
      assert us[..i] == us[..i - 1] + [us[i - 1]];
    }
  }

  lemma EmpiezaVacia(ts: seq<Cache>, us: seq<Uso>)
    requires LruDesdeVacia(ts, us)
    ensures |ts| == |us| + 1 && ColaDeUso(ts[0], [], []) && Fechadas(ts[0].entradas, [])
  {
  }

  lemma UsosPaso(ts: seq<Cache>, us: seq<Uso>, i: nat)
    requires LruDesdeVacia(ts, us) && 0 < i < |ts|
    ensures |ts| == |us| + 1 && ts[0].tam > 0 && RelojAvanza(us) && Posible(ts[i - 1], us[i - 1]) && ts[i] == Usar(ts[i - 1], us[i - 1])
  {
  }

  lemma PasoLru(t: Cache, cola: seq<Registro>, us: seq<Uso>, u: Uso) returns (nueva: seq<Registro>)
    requires ColaDeUso(t, cola, us) && AntesDe(t.entradas, u.ahora) && Fechadas(t.entradas, us) && Posible(t, u)
    ensures ColaDeUso(Usar(t, u), nueva, us + [u]) && Usar(t, u).tam == t.tam && Fechadas(Usar(t, u).entradas, us + [u])
  {
    RecientesSii(us);
    assert Distintas(Recientes(us));
    hide PorUso, Valida, LasUltimas, Buscar, Distintas, Recientes, Insertar, Insertable, Fechadas, AntesDe;
    UsarFechadas(t, us, u);
    if Buscar(t.entradas, u.pid, u.pagina) >= 0 {
      nueva := AciertoLru(t, cola, us, u);
    } else {
      nueva := FalloLru(t, cola, us, u);
      InsertarTam(t, Entrada(u), u.ahora);
    }
  }

  /** Over any run from an empty LRU TLB a page is cached if and only if it is one of the latest `tam` looked up. */
  lemma EnCacheLruSii(ts: seq<Cache>, us: seq<Uso>, i: nat, pid: nat, pagina: nat)
    requires LruDesdeVacia(ts, us) && i < |ts|
    ensures Buscar(ts[i].entradas, pid, pagina) >= 0 <==> (pid, pagina) in LasUltimas(Recientes(us[..i]), ts[0].tam)
  {
    var cola := CorridaLru(ts, us, i);
    BuscarEnColaLru(cola, ts[i].entradas, pid, pagina);
  }

  /** Whoever is replaced was last used before everyone who stays. */
  lemma VictimaLru(ts: seq<Cache>, us: seq<Uso>, i: nat, v: Clave, w: Clave)
    requires LruDesdeVacia(ts, us) && i < |us|
    requires Buscar(ts[i].entradas, v.0, v.1) >= 0 && Buscar(ts[i + 1].entradas, v.0, v.1) < 0
    requires Buscar(ts[i].entradas, w.0, w.1) >= 0 && v != w
    ensures 0 <= UltimoUso(us[..i], v) < UltimoUso(us[..i], w)
  {
    hide *;
    EmpiezaVacia(ts, us);
    UsosPaso(ts, us, i + 1);
    var s, u, tam := Recientes(us[..i]), us[i], ts[0].tam;
    EnCacheLruSii(ts, us, i, v.0, v.1);
    EnCacheLruSii(ts, us, i, w.0, w.1);
    EnCacheLruSii(ts, us, i + 1, v.0, v.1);
    assert us[..i + 1] == us[..i] + [u];
    RecientesMas(us[..i], u);
    RecientesSii(us[..i]);
    UltimaEnSalir(s, (u.pid, u.pagina), tam, v, w, us[..i]);
  }

  lemma PrimeraSale(b: seq<Clave>, c: Clave, tam: nat, v: Clave)
    requires tam > 0 && v in b && v !in (if c in b then SinClaveDe(b, c) else if |b| < tam then b else b[1..]) + [c]
    ensures v == b[0]
  {
    SinClaveTiene(b, c);
  }

  lemma UltimaEnSalir(s: seq<Clave>, c: Clave, tam: nat, v: Clave, w: Clave, us: seq<Uso>)
    requires PorUltimoUso(s, us) && tam > 0 && v != w && forall x :: x in s ==> UltimoUso(us, x) >= 0
    requires v in LasUltimas(s, tam) && w in LasUltimas(s, tam)
    requires v !in LasUltimas(SinClaveDe(s, c) + [c], tam)
    ensures 0 <= UltimoUso(us, v) < UltimoUso(us, w)
  {
    hide *;
    OrdenDistintas(s, us);
    UltimasPaso(s, c, tam);
    CuantasUltimas(s, tam);
    PrimeraSale(LasUltimas(s, tam), c, tam, v);
    DespuesDe(s, us, tam, w);
  }

  lemma OrdenDistintas(s: seq<Clave>, us: seq<Uso>)
    requires PorUltimoUso(s, us)
    ensures Distintas(s)
  {
  }

  lemma CuantasUltimas(s: seq<Clave>, n: nat)
    ensures |LasUltimas(s, n)| <= n && forall x :: x in LasUltimas(s, n) ==> x in s
  {
  }

  lemma DespuesDe(s: seq<Clave>, us: seq<Uso>, n: nat, w: Clave)
    requires PorUltimoUso(s, us) && w in LasUltimas(s, n) && w != LasUltimas(s, n)[0]
    ensures UltimoUso(us, LasUltimas(s, n)[0]) < UltimoUso(us, w)
  {
    var b := LasUltimas(s, n);
    var j :| 0 <= j < |b| && b[j] == w;
    assert s[|s| - |b|] == b[0] && s[|s| - |b| + j] == w;
  }
}
