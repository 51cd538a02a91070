/** Lists that work as queues: nobody overtakes. */
module Orden {
  import opened Comunes

  /** `p` is in the list and `q` behind it. */
  ghost predicate Antes(s: seq<nat>, p: nat, q: nat) {
    exists i, j :: 0 <= i < j < |s| && s[i] == p && s[j] == q
  }

  function SinEl(s: seq<nat>, x: Option<nat>): seq<nat> {
    match x
    case None => s
    case Some(p) => Quitar(s, p)
  }

  /** `t` comes from `s` as a queue does: some leave from the front, at most `x` from anywhere, and others join at the end. */
  ghost predicate Avanza(s: seq<nat>, t: seq<nat>, x: Option<nat>) {
    exists n, y :: Avance(s, t, x, n, y)
  }

  ghost predicate Avance(s: seq<nat>, t: seq<nat>, x: Option<nat>, n: int, y: seq<nat>) {
    0 <= n <= |s| && t == SinEl(s[n..], x) + y && forall p :: p in y ==> p !in s
  }

  /** Whoever was behind stays behind. */
  lemma OrdenSigue(s: seq<nat>, t: seq<nat>, x: Option<nat>, p: nat, q: nat)
    requires Avanza(s, t, x) && Antes(s, p, q) && x != Some(p) && x != Some(q) && p in t && SinRepetidos(s)
    ensures Antes(t, p, q)
  {
    hide SinEl, Antes;
    var n, y :| Avance(s, t, x, n, y);
    AntesEsta(s, p, q);
    EnLoQueQueda(s[n..], x, p);
    AntesDelCorte(s, n, p, q);
    QuedanEnOrden(s[n..], x, p, q);
    AntesConMas(SinEl(s[n..], x), y, p, q);
  }

  lemma AntesEsta(s: seq<nat>, p: nat, q: nat)
    requires Antes(s, p, q)
    ensures p in s && q in s
  {
  }

  lemma EnLoQueQueda(s: seq<nat>, x: Option<nat>, p: nat)
    ensures p in SinEl(s, x) ==> p in s
  {
  }

  /** What is still there after the front has gone keeps its order. */
  lemma AntesDelCorte(s: seq<nat>, n: nat, p: nat, q: nat)
    requires n <= |s| && SinRepetidos(s) && Antes(s, p, q) && p in s[n..]
    ensures Antes(s[n..], p, q)
  {
    var i, j :| 0 <= i < j < |s| && s[i] == p && s[j] == q;
    var k :| 0 <= k < |s[n..]| && s[n..][k] == p;
    assert s[n + k] == p;
    assert s[n..][i - n] == p && s[n..][j - n] == q;
  }

  lemma AntesConMas(s: seq<nat>, y: seq<nat>, p: nat, q: nat)
    requires Antes(s, p, q)
    ensures Antes(s + y, p, q)
  {
    var i, j :| 0 <= i < j < |s| && s[i] == p && s[j] == q;
    assert (s + y)[i] == p && (s + y)[j] == q;
  }

  lemma QuedanEnOrden(s: seq<nat>, x: Option<nat>, p: nat, q: nat)
    requires Antes(s, p, q) && x != Some(p) && x != Some(q)
    ensures Antes(SinEl(s, x), p, q)
  {
    if x.Some? && Indice(s, x.value) >= 0 {
      var i, j :| 0 <= i < j < |s| && s[i] == p && s[j] == q;
      SinUnoEnOrden(s, Indice(s, x.value), i, j);
    }
  }

  lemma SinUnoEnOrden(s: seq<nat>, k: nat, i: nat, j: nat)
    requires k < |s| && i < j < |s| && s[k] != s[i] && s[k] != s[j]
    ensures Antes(s[..k] + s[k + 1..], s[i], s[j])
  {
    var r := s[..k] + s[k + 1..];
    var a, b := if i < k then i else i - 1, if j < k then j else j - 1;
    assert r[a] == s[i] && r[b] == s[j];
  }

  lemma UnAvance(s: seq<nat>, t: seq<nat>, x: Option<nat>, n: nat, y: seq<nat>)
    requires n <= |s| && t == SinEl(s[n..], x) + y && forall p :: p in y ==> p !in s
    ensures Avanza(s, t, x)
  {
    assert Avance(s, t, x, n, y);
  }

  lemma NuevosDistintos(r: seq<nat>, y: seq<nat>)
    requires SinRepetidos(r + y)
    ensures forall p :: p in y ==> p !in r
  {
    var t := r + y;
    forall i, j | 0 <= i < |r| && 0 <= j < |y| ensures r[i] != y[j] {
      assert t[i] == r[i] && t[|r| + j] == y[j];
    }
  }

  /** Those that join were not there. */
  lemma AvanzaPorExtension(s: seq<nat>, t: seq<nat>, x: Option<nat>)
    requires SinEl(s, x) <= t && SinRepetidos(s) && SinRepetidos(t) && (x.Some? && x.value in s ==> x.value !in t)
    ensures Avanza(s, t, x)
  {
    var r := SinEl(s, x);
    var y := t[|r|..];
    assert t == r + y && s[0..] == s;
    if x.Some? {
      QuitarSinRepetidos(s, x.value);
    }
    NuevosDistintos(r, y);
    assert forall p :: p in y ==> p in t;
    UnAvance(s, t, x, 0, y);
  }

  lemma AvanzaPorDespacho(s: seq<nat>)
    requires s != []
    ensures Avanza(s, s[1..], None)
  {
    assert s[1..] + [] == s[1..];
    UnAvance(s, s[1..], None, 1, []);
  }

  lemma MismaColaAvanza(s: seq<nat>, x: Option<nat>)
    requires x.Some? ==> x.value !in s
    ensures Avanza(s, s, x)
  {
    assert s[0..] == s && SinEl(s, x) == s && s + [] == s;
    UnAvance(s, s, x, 0, []);
  }
}
