/** Replacement over the runs of CPU and memory module in which the TLB is not flushed. */
module TlbCorridas {
  import opened Comunes
  import opened Tlb
  import opened Paginacion
  import opened Acceso
  import opened Traduccion
  import opened TlbFifo
  import opened TlbLru

  /** No process shrinks to nothing: the TLB is never flushed. */
  ghost predicate SinVaciar(ps: seq<Paso>) {
    forall k :: 0 <= k < |ps| ==> !(ps[k].Redimensiona? && ps[k].cantBytes == 0)
  }

  function UsoDe(s: Sistema, p: Paso): Uso
    requires p.Traduce? && s.m.tamPagina > 0 && Traducible(s.t, s.m.tablas, p.pid, Unidad(p.a, s.m.tamPagina), p.ahora)
  {
    Uso(p.pid, Unidad(p.a, s.m.tamPagina), Traducir(s.t, s.m.tablas, p.pid, p.a, s.m.tamPagina, p.ahora).1, p.ahora)
  }

  /** The lookups of the first `i` steps. */
  ghost function Vistos(ss: seq<Sistema>, ps: seq<Paso>, i: nat): seq<Uso>
    requires Corrida(ss, ps) && i <= |ps|
  {
    if i == 0 then []
    else Vistos(ss, ps, i - 1) + if ps[i - 1].Traduce? then [UsoDe(ss[i - 1], ps[i - 1])] else []
  }

  lemma UsarEsTraducir(s: Sistema, p: Paso)
    requires Habilitado(s, p) && !(p.Redimensiona? && p.cantBytes == 0)
    ensures p.Traduce? ==> s.m.tamPagina > 0 && Traducible(s.t, s.m.tablas, p.pid, Unidad(p.a, s.m.tamPagina), p.ahora)
    ensures p.Traduce? ==> Posible(s.t, UsoDe(s, p)) && Sigue(s, p).t == Usar(s.t, UsoDe(s, p))
    ensures !p.Traduce? ==> Sigue(s, p).t == s.t
  {
    hide Posicion, Unidad, Buscar, Insertar, Tocar, Insertable, Resize, Crear, Eliminar;
  }

  lemma UsosMas(ts: seq<Cache>, us: seq<Uso>, t: Cache, u: Uso)
    requires Usos(ts, us) && Posible(ts[|ts| - 1], u) && t == Usar(ts[|ts| - 1], u)
    ensures Usos(ts + [t], us + [u])
  {
    hide Posible, Usar;
  }

  /** What the TLB goes through in a run without flushes are its lookups. */
  lemma {:induction false} CorridaUsa(ss: seq<Sistema>, ps: seq<Paso>, i: nat) returns (ts: seq<Cache>)
    requires Corrida(ss, ps) && SinVaciar(ps) && i <= |ps|
    ensures |ts| == |Vistos(ss, ps, i)| + 1 && Usos(ts, Vistos(ss, ps, i)) && ts[0] == ss[0].t && ts[|ts| - 1] == ss[i].t
  {
    hide Posible, Usar, Sigue, UsoDe, Habilitado, Usos;
    if i == 0 {
      ts := [ss[0].t];
      UnSoloUso(ss[0].t);
    } else {
      ts := CorridaUsa(ss, ps, i - 1);
      UsarEsTraducir(ss[i - 1], ps[i - 1]);
      if ps[i - 1].Traduce? {
        UsosMas(ts, Vistos(ss, ps, i - 1), ss[i].t, UsoDe(ss[i - 1], ps[i - 1]));
        ts := ts + [ss[i].t];
      } else {
        assert Vistos(ss, ps, i) == Vistos(ss, ps, i - 1);
      }
    }
  }

  lemma UnSoloUso(t: Cache)
    ensures Usos([t], [])
  {
  }

  /** In every run of the system from an empty FIFO TLB, without flushes, the TLB is the bounded queue of the pages looked up. */
  lemma SistemaFifo(ss: seq<Sistema>, ps: seq<Paso>, i: nat)
    requires Corrida(ss, ps) && SinVaciar(ps) && i <= |ps|
    requires var t := ss[0].t; t.algoritmo == Fifo && t.tam > 0 && t.entradas == [] && t.ultimoIndex == 0
    ensures Cola(ss[i].t) == Encolados([], Vistos(ss, ps, i), ss[0].t.tam)
  {
    hide Usos, Vistos, Corrida, Encolados;
    var ts := CorridaUsa(ss, ps, i);
    var us := Vistos(ss, ps, i);
    CorridaFifo(ts, us, |us|);
    assert us[..|us|] == us;
  }

  /** In every run of the system from an empty LRU TLB, without flushes and with a clock that advances, a page is
      cached if and only if it is one of the latest `tam` looked up. */
  lemma SistemaLruSii(ss: seq<Sistema>, ps: seq<Paso>, i: nat, pid: nat, pagina: nat)
    requires Corrida(ss, ps) && SinVaciar(ps) && i <= |ps| && RelojAvanza(Vistos(ss, ps, i))
    requires var t := ss[0].t; t.algoritmo == Lru && t.tam > 0 && t.entradas == [] && t.ultimoIndex <= t.tam
    ensures Buscar(ss[i].t.entradas, pid, pagina) >= 0 <==>
            (pid, pagina) in LasUltimas(Recientes(Vistos(ss, ps, i)), ss[0].t.tam)
  {
    hide Usos, Vistos, Corrida, Recientes, LasUltimas, Buscar;
    var ts := CorridaUsa(ss, ps, i);
    var us := Vistos(ss, ps, i);
    EnCacheLruSii(ts, us, |us|, pid, pagina);
    assert us[..|us|] == us;
  }
}
