/** Paged memory as values: the frame bitmap with its free counter, the page tables, and what
    creating, resizing and deleting a process make of them. */
module Paginacion {
  import opened Comunes

  datatype Memoria = Memoria(
    tamPagina: nat, marcos: seq<bool>, marcosLibres: int, tablas: map<nat, seq<nat>>, bytes: seq<byte>)

  // ---------------------------------------------------------------- frames

  /** Clear bits of the frame bitmap. */
  function Libres(marcos: seq<bool>): nat {
    if marcos == [] then 0
    else Libres(marcos[..|marcos| - 1]) + if marcos[|marcos| - 1] then 0 else 1
  }

  lemma {:induction false} LibresAlCambiar(marcos: seq<bool>, i: nat, v: bool)
    requires i < |marcos| && marcos[i] != v
    ensures Libres(marcos[i := v]) == Libres(marcos) + if v then -1 else 1
  {
    var n := |marcos| - 1;
    if i == n {
      assert marcos[i := v][..n] == marcos[..n];
    } else {
      LibresAlCambiar(marcos[..n], i, v);
      assert marcos[i := v][..n] == marcos[..n][i := v];
    }
  }

  lemma {:induction false} HayLibre(marcos: seq<bool>)
    requires Libres(marcos) > 0
    ensures Indice(marcos, false) >= 0
  {
    var n := |marcos| - 1;
    if marcos[n] {
      HayLibre(marcos[..n]);
      assert marcos[Indice(marcos[..n], false)] == false;
    } else {
      assert marcos[n] == false;
    }
  }

  lemma {:induction false} LibresTodos(marcos: seq<bool>)
    requires forall i :: 0 <= i < |marcos| ==> !marcos[i]
    ensures Libres(marcos) == |marcos|
  {
    if marcos != [] {
      LibresTodos(marcos[..|marcos| - 1]);
    }
  }

  // ---------------------------------------------------------------- invariant

  ghost predicate EnTabla(m: Memoria, pid: nat, i: int, f: nat) {
    pid in m.tablas && 0 <= i < |m.tablas[pid]| && m.tablas[pid][i] == f
  }

  ghost predicate Usado(m: Memoria, f: nat) {
    exists pid, i :: EnTabla(m, pid, i, f)
  }

  /** No frame appears twice, in one table or in two. */
  ghost predicate MarcosDistintos(m: Memoria) {
    forall pid, i, q, j, f :: EnTabla(m, pid, i, f) && EnTabla(m, q, j, f) ==> pid == q && i == j
  }

  /** The counter counts the clear bits, and the set bits are exactly the frames in some page table. */
  ghost predicate Inv(m: Memoria) {
    && m.tamPagina > 0 && Posicion(|m.marcos|, m.tamPagina) <= |m.bytes|
    && m.marcosLibres == Libres(m.marcos)
    && (forall pid: nat, i: int, f: nat :: EnTabla(m, pid, i, f) ==> f < |m.marcos|)
    && (forall f: nat :: f < |m.marcos| ==> (m.marcos[f] <==> Usado(m, f)))
    && MarcosDistintos(m)
  }

  // ---------------------------------------------------------------- one page more or less

  /** The process takes the first free frame as its next page. */
  function Ocupar(m: Memoria, pid: nat): Memoria
    requires pid in m.tablas && Indice(m.marcos, false) >= 0
  {
    var f := Indice(m.marcos, false);
    m.(marcos := m.marcos[f := true], marcosLibres := m.marcosLibres - 1, tablas := m.tablas[pid := m.tablas[pid] + [f]])
  }

  /** The process gives back its last page's frame. */
  function Soltar(m: Memoria, pid: nat): Memoria
    requires pid in m.tablas && |m.tablas[pid]| > 0
  {
    var t := m.tablas[pid];
    var f := t[|t| - 1];
    m.(marcos := if f < |m.marcos| then m.marcos[f := false] else m.marcos,
       marcosLibres := m.marcosLibres + 1, tablas := m.tablas[pid := t[..|t| - 1]])
  }

  lemma OcuparTabla(m: Memoria, pid: nat, q: nat, i: int, f: nat)
    requires pid in m.tablas && Indice(m.marcos, false) >= 0
    ensures EnTabla(Ocupar(m, pid), q, i, f) <==>
            EnTabla(m, q, i, f) || (q == pid && i == |m.tablas[pid]| && f == Indice(m.marcos, false))
  {
  }

  lemma OcuparInv(m: Memoria, pid: nat)
    requires Inv(m) && pid in m.tablas && Indice(m.marcos, false) >= 0
    ensures Inv(Ocupar(m, pid))
  {
    hide Posicion, EnTabla, Libres, Indice;
    var r := Ocupar(m, pid);
    var libre := Indice(m.marcos, false);
    LibresAlCambiar(m.marcos, libre, true);
    forall q: nat, i: int, f: nat | EnTabla(r, q, i, f) ensures f < |r.marcos| {
      OcuparTabla(m, pid, q, i, f);
    }
    forall f: nat | f < |r.marcos| ensures r.marcos[f] <==> Usado(r, f) {
      if Usado(r, f) {
        var q, i :| EnTabla(r, q, i, f);
        OcuparTabla(m, pid, q, i, f);
      }
      if f == libre {
        OcuparTabla(m, pid, pid, |m.tablas[pid]|, f);
      } else if Usado(m, f) {
        var q, i :| EnTabla(m, q, i, f);
        OcuparTabla(m, pid, q, i, f);
      }
    }
    forall p, i, q, j, f | EnTabla(r, p, i, f) && EnTabla(r, q, j, f) ensures p == q && i == j {
      OcuparTabla(m, pid, p, i, f);
      OcuparTabla(m, pid, q, j, f);
    }
  }

  lemma SoltarTabla(m: Memoria, pid: nat, q: nat, i: int, f: nat)
    requires pid in m.tablas && |m.tablas[pid]| > 0
    ensures EnTabla(Soltar(m, pid), q, i, f) <==> EnTabla(m, q, i, f) && !(q == pid && i == |m.tablas[pid]| - 1)
  {
  }

  lemma SoltarInv(m: Memoria, pid: nat)
    requires Inv(m) && pid in m.tablas && |m.tablas[pid]| > 0
    ensures Inv(Soltar(m, pid))
  {
    var ultimo := |m.tablas[pid]| - 1;
    var suelto := m.tablas[pid][ultimo];
    assert EnTabla(m, pid, ultimo, suelto);
    hide Posicion, EnTabla, Libres, Indice;
    var r := Soltar(m, pid);
    LibresAlCambiar(m.marcos, suelto, false);
    forall q: nat, i: int, f: nat | EnTabla(r, q, i, f) ensures f < |r.marcos| {
      SoltarTabla(m, pid, q, i, f);
    }
    forall f: nat | f < |r.marcos| ensures r.marcos[f] <==> Usado(r, f) {
      if Usado(r, f) {
        var q, i :| EnTabla(r, q, i, f);
        SoltarTabla(m, pid, q, i, f);
      } else if Usado(m, f) && f != suelto {
        var q, i :| EnTabla(m, q, i, f);
        SoltarTabla(m, pid, q, i, f);
      }
    }
    forall p, i, q, j, f | EnTabla(r, p, i, f) && EnTabla(r, q, j, f) ensures p == q && i == j {
      SoltarTabla(m, pid, p, i, f);
      SoltarTabla(m, pid, q, j, f);
    }
  }

  // ---------------------------------------------------------------- resize

  /** `n` pages more, each on the first frame that is free at that point. */
  function Ampliar(m: Memoria, pid: nat, n: nat): Memoria
    requires pid in m.tablas
    decreases n
  {
    if n == 0 || Indice(m.marcos, false) < 0 then m else Ampliar(Ocupar(m, pid), pid, n - 1)
  }

  /** The last pages are given back one by one until `n` remain. */
  function Reducir(m: Memoria, pid: nat, n: nat): Memoria
    requires pid in m.tablas
    decreases |m.tablas[pid]|
  {
    if |m.tablas[pid]| <= n then m else Reducir(Soltar(m, pid), pid, n)
  }

  /** `resize_proceso`: 1 for out of memory, 0 for success. */
  function Resize(m: Memoria, pid: nat, cantBytes: nat): (Memoria, int)
    requires m.tamPagina > 0 && pid in m.tablas
  {
    var paginas := Techo(cantBytes, m.tamPagina);
    var actuales := |m.tablas[pid]|;
    if m.marcosLibres < paginas - actuales then (m, 1)
    else if actuales < paginas then (Ampliar(m, pid, paginas - actuales), 0)
    else (Reducir(m, pid, paginas), 0)
  }

  /** Nothing but `pid`'s table, the frame bitmap and the counter differs. */
  ghost predicate SoloCambia(m: Memoria, r: Memoria, pid: nat) {
    && r.tamPagina == m.tamPagina && |r.marcos| == |m.marcos| && r.bytes == m.bytes
    && r.tablas.Keys == m.tablas.Keys
    && forall q :: q in m.tablas && q != pid ==> r.tablas[q] == m.tablas[q]
  }

  /** With enough free frames, first fit never fails on the way: the table grows by exactly `n` pages. */
  lemma {:induction false} AmpliarCorrecto(m: Memoria, pid: nat, n: nat)
    requires Inv(m) && pid in m.tablas && n <= m.marcosLibres
    ensures var r := Ampliar(m, pid, n);
            && Inv(r) && SoloCambia(m, r, pid)
            && |r.tablas[pid]| == |m.tablas[pid]| + n && m.tablas[pid] <= r.tablas[pid]
    decreases n
  {
    hide Inv, Libres, Indice, Posicion;
    if n > 0 {
      assert Indice(m.marcos, false) >= 0 by { InvLibres(m); HayLibre(m.marcos); }
      OcuparInv(m, pid);
      AmpliarCorrecto(Ocupar(m, pid), pid, n - 1);
    }
  }

  lemma InvLibres(m: Memoria)
    requires Inv(m)
    ensures m.marcosLibres == Libres(m.marcos)
  {
  }

  lemma {:induction false} ReducirCorrecto(m: Memoria, pid: nat, n: nat)
    requires Inv(m) && pid in m.tablas && n <= |m.tablas[pid]|
    ensures var r := Reducir(m, pid, n);
            && Inv(r) && SoloCambia(m, r, pid) && r.tablas[pid] == m.tablas[pid][..n]
    decreases |m.tablas[pid]|
  {
    hide Inv, Libres, Indice, Posicion;
    if |m.tablas[pid]| > n {
      SoltarInv(m, pid);
      ReducirCorrecto(Soltar(m, pid), pid, n);
      assert m.tablas[pid][..|m.tablas[pid]| - 1][..n] == m.tablas[pid][..n];
    }
  }

  /** Resizing is all or nothing: it fails if and only if there are fewer clear bits than pages to add,
      changing nothing; otherwise the table gets as many pages as the bytes need, keeping the common
      prefix, and no other table and no byte changes. */
  lemma ResizeTodoONada(m: Memoria, pid: nat, cantBytes: nat)
    requires Inv(m) && pid in m.tablas
    ensures var (r, codigo) := Resize(m, pid, cantBytes);
            var paginas := Techo(cantBytes, m.tamPagina);
            var actuales := |m.tablas[pid]|;
            && Inv(r) && SoloCambia(m, r, pid)
            && codigo in {0, 1} && (codigo == 1 <==> Libres(m.marcos) < paginas - actuales)
            && (codigo == 1 ==> r == m)
            && (codigo == 0 ==> |r.tablas[pid]| == paginas && (m.tablas[pid] <= r.tablas[pid] || r.tablas[pid] <= m.tablas[pid]))
  {
    InvLibres(m);
    var paginas := Techo(cantBytes, m.tamPagina);
    var actuales := |m.tablas[pid]|;
    hide Libres, Techo, Ampliar, Reducir, Posicion, MarcosDistintos;
    if m.marcosLibres >= paginas - actuales {
      if actuales < paginas {
        AmpliarCorrecto(m, pid, paginas - actuales);
      } else {
        ReducirCorrecto(m, pid, paginas);
      }
    }
  }

  /** First fit: `r` has given `pid`, after its first `desde` pages, free frames of `m` in increasing order, and left no lower one free. */
  ghost predicate PrimerosLibres(m: Memoria, r: Memoria, pid: nat, desde: nat)
    requires pid in r.tablas
  {
    var t := r.tablas[pid];
    && (forall i :: desde <= i < |t| ==> t[i] < |m.marcos| && !m.marcos[t[i]])
    && (forall i, j :: desde <= i < j < |t| ==> t[i] < t[j])
    && (forall i, g :: desde <= i < |t| && 0 <= g <= t[i] && g < |r.marcos| ==> r.marcos[g])
  }

  lemma {:induction false} AmpliarPrimeros(m: Memoria, pid: nat, n: nat)
    requires pid in m.tablas
    ensures var r := Ampliar(m, pid, n);
            && pid in r.tablas && |r.marcos| == |m.marcos| && m.tablas[pid] <= r.tablas[pid] && PrimerosLibres(m, r, pid, |m.tablas[pid]|)
            && (forall g :: 0 <= g < |m.marcos| && m.marcos[g] ==> r.marcos[g])
    decreases n
  {
    if n > 0 && Indice(m.marcos, false) >= 0 {
      var o := Ocupar(m, pid);
      AmpliarPrimeros(o, pid, n - 1);
      OcuparPrimero(m, pid);
      hide Indice, Ampliar, Ocupar, PrimerosLibres;
      PrimerosMas(m, o, Ampliar(o, pid, n - 1), pid, Indice(m.marcos, false));
    }
  }

  lemma OcuparPrimero(m: Memoria, pid: nat)
    requires pid in m.tablas && Indice(m.marcos, false) >= 0
    ensures var f, o := Indice(m.marcos, false), Ocupar(m, pid);
            && f < |m.marcos| && !m.marcos[f] && (forall g :: 0 <= g < f ==> m.marcos[g])
            && pid in o.tablas && o.tablas[pid] == m.tablas[pid] + [f] && o.marcos == m.marcos[f := true]
  {
    var f := Indice(m.marcos, false);
    assert forall g :: 0 <= g < f ==> m.marcos[..f][g] == m.marcos[g];
  }

  lemma PrimerosMas(m: Memoria, o: Memoria, r: Memoria, pid: nat, f: nat)
    requires pid in m.tablas && pid in o.tablas && pid in r.tablas && f < |m.marcos| && !m.marcos[f] && forall g :: 0 <= g < f ==> m.marcos[g]
    requires o.tablas[pid] == m.tablas[pid] + [f] && o.marcos == m.marcos[f := true] && o.tablas[pid] <= r.tablas[pid]
    requires |r.marcos| == |o.marcos| && PrimerosLibres(o, r, pid, |o.tablas[pid]|) && forall g :: 0 <= g < |o.marcos| && o.marcos[g] ==> r.marcos[g]
    ensures m.tablas[pid] <= r.tablas[pid] && PrimerosLibres(m, r, pid, |m.tablas[pid]|)
    ensures forall g :: 0 <= g < |m.marcos| && m.marcos[g] ==> r.marcos[g]
  {
    var t := r.tablas[pid];
    assert t[|m.tablas[pid]|] == o.tablas[pid][|m.tablas[pid]|] == f;
    assert forall i :: |m.tablas[pid]| < i < |t| ==> !o.marcos[t[i]];
  }

  /** The pages that a resize adds are the lowest free frames, in order. */
  lemma ResizePrimeros(m: Memoria, pid: nat, cantBytes: nat)
    requires Inv(m) && pid in m.tablas
    ensures pid in Resize(m, pid, cantBytes).0.tablas && PrimerosLibres(m, Resize(m, pid, cantBytes).0, pid, |m.tablas[pid]|)
  {
    ResizeTodoONada(m, pid, cantBytes);
    var paginas := Techo(cantBytes, m.tamPagina);
    if |m.tablas[pid]| < paginas {
      AmpliarPrimeros(m, pid, paginas - |m.tablas[pid]|);
    }
    hide Inv, Techo, Ampliar, Reducir, Libres;
  }

  // ---------------------------------------------------------------- create and delete

  /** `crear_proceso` puts an empty table under the pid. */
  function Crear(m: Memoria, pid: nat): Memoria {
    m.(tablas := m.tablas[pid := []])
  }

  /** Creating keeps the invariant if and only if the pid had no pages: frames of a replaced table would be lost. */
  lemma CrearInvSii(m: Memoria, pid: nat)
    requires Inv(m)
    ensures Inv(Crear(m, pid)) <==> pid !in m.tablas || m.tablas[pid] == []
  {
    hide Posicion, Libres;
    var r := Crear(m, pid);
    if pid in m.tablas && m.tablas[pid] != [] {
      var f := m.tablas[pid][0];
      assert EnTabla(m, pid, 0, f);
      forall q, i ensures !EnTabla(r, q, i, f) {
        assert EnTabla(r, q, i, f) ==> EnTabla(m, q, i, f);
      }
      assert r.marcos[f] && !Usado(r, f);
    } else {
      assert forall q, i, f :: EnTabla(r, q, i, f) <==> EnTabla(m, q, i, f);
      forall f: nat | f < |m.marcos| ensures Usado(r, f) <==> Usado(m, f) {
        if Usado(m, f) {
          var q, i :| EnTabla(m, q, i, f);
          assert EnTabla(r, q, i, f);
        }
      }
    }
  }

  /** The bitmap after `liberar_marco` on the first `k` frames of a table. */
  function Liberados(marcos: seq<bool>, t: seq<nat>, k: nat): (r: seq<bool>)
    requires k <= |t|
    ensures |r| == |marcos|
  {
    if k == 0 then marcos
    else
      var previo := Liberados(marcos, t, k - 1);
      if t[k - 1] < |marcos| then previo[t[k - 1] := false] else previo
  }

  /** `eliminar_proceso` on the frames and tables. */
  function Eliminar(m: Memoria, pid: nat): Memoria
    requires pid in m.tablas
  {
    var t := m.tablas[pid];
    m.(marcos := Liberados(m.marcos, t, |t|), marcosLibres := m.marcosLibres + |t|, tablas := m.tablas - {pid})
  }

  lemma {:induction false} LiberadosBits(marcos: seq<bool>, t: seq<nat>, k: nat, f: nat)
    requires k <= |t| && f < |marcos|
    ensures Liberados(marcos, t, k)[f] <==> marcos[f] && f !in t[..k]
  {
    if k > 0 {
      LiberadosBits(marcos, t, k - 1, f);
      assert t[..k] == t[..k - 1] + [t[k - 1]];
    }
  }

  lemma {:induction false} LiberadosLibres(marcos: seq<bool>, t: seq<nat>, k: nat)
    requires k <= |t| && SinRepetidos(t) && forall i :: 0 <= i < |t| ==> t[i] < |marcos| && marcos[t[i]]
    ensures Libres(Liberados(marcos, t, k)) == Libres(marcos) + k
  {
    hide Libres;
    if k > 0 {
      LiberadosLibres(marcos, t, k - 1);
      LiberadosBits(marcos, t, k - 1, t[k - 1]);
      LibresAlCambiar(Liberados(marcos, t, k - 1), t[k - 1], false);
    }
  }

  /** Deleting a process gives back exactly its frames: the other tables and frames are as before, the
      counter still counts the clear bits, and no byte of memory changes. */
  lemma EliminarDevuelve(m: Memoria, pid: nat)
    requires Inv(m) && pid in m.tablas
    ensures var r := Eliminar(m, pid);
            && Inv(r) && r.tablas == m.tablas - {pid} && r.bytes == m.bytes
            && r.marcosLibres == m.marcosLibres + |m.tablas[pid]|
            && |r.marcos| == |m.marcos|
            && forall f :: 0 <= f < |m.marcos| ==> (r.marcos[f] <==> m.marcos[f] && f !in m.tablas[pid])
  {
    var t := m.tablas[pid];
    var r := Eliminar(m, pid);
    TablaDistinta(m, pid);
    LiberadosLibres(m.marcos, t, |t|);
    hide Posicion, Libres, Liberados, SinRepetidos;
    forall f: nat | f < |m.marcos|
      ensures r.marcos[f] <==> m.marcos[f] && f !in t
      ensures r.marcos[f] <==> Usado(r, f)
    {
      LiberadosBits(m.marcos, t, |t|, f);
      assert t[..|t|] == t;
      QuedaUsado(m, pid, f);
    }
    assert forall q, i, f :: EnTabla(r, q, i, f) ==> EnTabla(m, q, i, f);
  }

  lemma TablaDistinta(m: Memoria, pid: nat)
    requires Inv(m) && pid in m.tablas
    ensures SinRepetidos(m.tablas[pid])
    ensures forall i :: 0 <= i < |m.tablas[pid]| ==> m.tablas[pid][i] < |m.marcos| && m.marcos[m.tablas[pid][i]]
  {
    hide Posicion, Libres;
    var t := m.tablas[pid];
    forall i | 0 <= i < |t| ensures t[i] < |m.marcos| && m.marcos[t[i]] {
      assert EnTabla(m, pid, i, t[i]);
    }
    forall i, j | 0 <= i < j < |t| ensures t[i] != t[j] {
      assert EnTabla(m, pid, i, t[i]) && EnTabla(m, pid, j, t[j]);
    }
  }

  lemma QuedaUsado(m: Memoria, pid: nat, f: nat)
    requires Inv(m) && pid in m.tablas && f < |m.marcos|
    ensures Usado(Eliminar(m, pid), f) <==> m.marcos[f] && f !in m.tablas[pid]
  {
    hide Posicion, Libres, Liberados;
    var r := Eliminar(m, pid);
    var t := m.tablas[pid];
    if Usado(r, f) {
      var q, i :| EnTabla(r, q, i, f);
      assert EnTabla(m, q, i, f);
      assert forall j :: 0 <= j < |t| && t[j] == f ==> EnTabla(m, pid, j, f);
    }
    if m.marcos[f] && f !in t {
      var q, i :| EnTabla(m, q, i, f);
      assert EnTabla(r, q, i, f);
    }
  }
}
