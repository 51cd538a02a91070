/** Bytes, buffer copies and small facts about sequences shared by the other modules. */
module Comunes {

  newtype byte = x: int | 0 <= x < 256

  datatype Option<+T> = None | Some(value: T)

  /** `n` zero bytes: what `calloc` and `memset(.., 0, ..)` leave behind. */
  function Ceros(n: nat): (r: seq<byte>)
    ensures |r| == n
  {
    seq(n, _ => 0)
  }

  /** The `n` bytes of `s` that start at `i`; empty when they do not fit. */
  function Tramo<T>(s: seq<T>, i: nat, n: nat): (r: seq<T>)
    ensures i + n <= |s| ==> |r| == n
  {
    if i + n <= |s| then s[i..i + n] else []
  }

  /** `s` from position `i` on; empty when `i` is past its end. */
  function Desde<T>(s: seq<T>, i: nat): seq<T> {
    if i <= |s| then s[i..] else []
  }

  /** `s` with the bytes from `i` on overwritten by `t`. */
  function Pegar<T>(s: seq<T>, i: nat, t: seq<T>): (r: seq<T>)
    requires i + |t| <= |s|
    ensures |r| == |s|
  {
    s[..i] + t + s[i + |t|..]
  }

  lemma PegarEs<T>(s: seq<T>, i: nat, t: seq<T>, r: seq<T>)
    requires i + |t| <= |s| == |r|
    requires forall j :: 0 <= j < |s| ==> r[j] == if i <= j < i + |t| then t[j - i] else s[j]
    ensures r == Pegar(s, i, t)
  {
  }

  lemma PegarNada<T>(s: seq<T>, i: nat, t: seq<T>)
    requires i <= |s| && t == []
    ensures Pegar(s, i, t) == s
  {
  }

  lemma PegarUnoMas<T>(s: seq<T>, i: nat, t: seq<T>)
    requires i + |t| <= |s| && t != []
    ensures Pegar(s, i, t) == Pegar(s, i, t[..|t| - 1])[i + |t| - 1 := t[|t| - 1]]
  {
  }

  /** Pasting outside a stretch leaves that stretch alone. */
  lemma TramoDePegar<T>(s: seq<T>, i: nat, t: seq<T>, j: nat, n: nat)
    requires i + |t| <= |s| && j + n <= |s|
    requires j + n <= i || i + |t| <= j
    ensures Tramo(Pegar(s, i, t), j, n) == Tramo(s, j, n)
  {
    FueraDePegar(s, i, t, j, n);
  }

  lemma FueraDePegar<T>(s: seq<T>, i: nat, t: seq<T>, j: nat, n: nat)
    requires i + |t| <= |s| && j + n <= |s|
    requires j + n <= i || i + |t| <= j
    ensures Pegar(s, i, t)[j..j + n] == s[j..j + n]
  {
    var r := Pegar(s, i, t);
    assert forall k :: 0 <= k < |s| ==> r[k] == if i <= k < i + |t| then t[k - i] else s[k];
    assert r[j..j + n] == s[j..j + n];
  }

  lemma TramoMasCorto<T>(s: seq<T>, i: nat, n: nat, m: nat)
    requires i + n <= |s| && m <= n
    ensures Tramo(s, i, m) == Tramo(s, i, n)[..m]
  {
  }

  lemma TramoDeTramo<T>(s: seq<T>, i: nat, n: nat, j: nat, m: nat)
    requires i + n <= |s| && j + m <= n
    ensures Tramo(s, i + j, m) == Tramo(s, i, n)[j..j + m]
  {
    var t, u := s[i..i + n][j..j + m], s[i + j..i + j + m];
    forall k | 0 <= k < m ensures t[k] == u[k] {
      assert t[k] == s[i..i + n][j + k];
    }
    assert t == u;
  }

  /** Pasting inside a stretch is pasting into the stretch. */
  lemma PegarEnTramo<T>(s: seq<T>, i: nat, n: nat, j: nat, t: seq<T>)
    requires i + n <= |s| && j + |t| <= n
    ensures Tramo(Pegar(s, i + j, t), i, n) == Pegar(Tramo(s, i, n), j, t)
  {
  }

  lemma TramoDePrefijo<T>(s: seq<T>, t: seq<T>, i: nat, n: nat)
    requires i + n <= |s|
    ensures Tramo(s + t, i, n) == Tramo(s, i, n)
  {
  }

  lemma TramoDeSufijo<T>(s: seq<T>, t: seq<T>, n: nat)
    requires n <= |t|
    ensures Tramo(s + t, |s|, n) == t[..n]
  {
  }

  lemma DesdeSufijo<T>(s: seq<T>, t: seq<T>, u: seq<T>)
    ensures Desde(s + (t + u), |s| + |t|) == u
  {
  }

  /** `memcpy` into an array. */
  method Memcpy<T>(destino: array<T>, i: nat, datos: seq<T>)
    requires i + |datos| <= destino.Length
    modifies destino
    ensures destino[..] == Pegar(old(destino[..]), i, datos)
  {
    forall k | 0 <= k < |datos| {
      destino[i + k] := datos[k];
    }
  }

  method Calloc(n: nat) returns (b: array<byte>)
    ensures fresh(b) && b[..] == Ceros(n)
  {
    b := new byte[n](_ => 0);
  }

  ghost predicate SinRepetidos<T(!new)>(s: seq<T>) {
    forall i, j :: 0 <= i < j < |s| ==> s[i] != s[j]
  }

  /** Position of the first occurrence of `x`, or -1. */
  function Indice<T(==)>(s: seq<T>, x: T): (r: int)
    ensures -1 <= r < |s|
    ensures r >= 0 ==> s[r] == x && x !in s[..r]
    ensures r < 0 <==> x !in s
  {
    if s == [] then -1
    else if s[0] == x then 0
    else
      var r := Indice(s[1..], x);
      assert s == [s[0]] + s[1..];
      if r < 0 then -1 else
        assert s[..r + 1] == [s[0]] + s[1..][..r];
        r + 1
  }

  /** `s` without its first occurrence of `x`. */
  function Quitar<T(==)>(s: seq<T>, x: T): seq<T> {
    var i := Indice(s, x);
    if i < 0 then s else s[..i] + s[i + 1..]
  }

  /** In a list without repetitions, removing `x` leaves exactly the other elements. */
  lemma QuitarSinRepetidos<T(!new)>(s: seq<T>, x: T)
    requires SinRepetidos(s)
    ensures SinRepetidos(Quitar(s, x))
    ensures forall y :: y in Quitar(s, x) <==> y in s && y != x
  {
    var i := Indice(s, x);
    if i >= 0 {
      var r := s[..i] + s[i + 1..];
      forall y ensures y in r <==> y in s && y != x {
        if y in s && y != x {
          var k :| 0 <= k < |s| && s[k] == y;
          assert y == if k < i then r[k] else r[k - 1];
        }
      }
    }
  }

  /** `s` without its `i`-th element: what `list_remove` leaves. */
  function Sin<T>(s: seq<T>, i: nat): seq<T>
    requires i < |s|
  {
    s[..i] + s[i + 1..]
  }

  lemma PrimeraVez<T>(s: seq<T>, x: T, i: nat)
    requires i < |s| && s[i] == x && forall j :: 0 <= j < i ==> s[j] != x
    ensures Indice(s, x) == i
  {
  }

  function Uno(b: bool): nat {
    if b then 1 else 0
  }

  /** Occurrences of `x`. */
  function Veces<T(==)>(s: seq<T>, x: T): (n: nat)
    ensures n <= |s|
  {
    if s == [] then 0 else Veces(s[..|s| - 1], x) + Uno(s[|s| - 1] == x)
  }

  lemma {:induction false} VecesConcat<T>(a: seq<T>, b: seq<T>, x: T)
    ensures Veces(a + b, x) == Veces(a, x) + Veces(b, x)
  {
    if b == [] {
      assert a + b == a;
    } else {
      assert (a + b)[..|a + b| - 1] == a + b[..|b| - 1];
      VecesConcat(a, b[..|b| - 1], x);
    }
  }

  lemma VecesUno<T>(y: T, x: T)
    ensures Veces([y], x) == Uno(y == x)
  {
    assert [y][..0] == [];
  }

  lemma VecesUltimo<T>(s: seq<T>, y: T, x: T)
    ensures Veces(s + [y], x) == Veces(s, x) + Uno(y == x)
  {
    VecesConcat(s, [y], x);
    VecesUno(y, x);
  }

  lemma Partida<T>(s: seq<T>, i: nat)
    requires i < |s|
    ensures s == s[..i] + ([s[i]] + s[i + 1..])
  {
  }

  lemma VecesSin<T>(s: seq<T>, i: nat, x: T)
    requires i < |s|
    ensures Veces(s, x) == Veces(Sin(s, i), x) + Uno(s[i] == x)
  {
    hide Veces;
    var a, b := s[..i], s[i + 1..];
    Partida(s, i);
    VecesConcat(a, [s[i]] + b, x);
    VecesConcat([s[i]], b, x);
    VecesConcat(a, b, x);
    VecesUno(s[i], x);
  }

  lemma MulMonotona(a: nat, b: nat, c: nat)
    requires a <= b
    ensures a * c <= b * c
  {
  }

  lemma ProductoDeSuma(a: int, b: int, c: int)
    ensures (a + b) * c == a * c + b * c
  {
  }

  /** First byte of the `k`-th unit (block, page or frame) of `tam` bytes. */
  function Posicion(k: nat, tam: nat): nat {
    k * tam
  }

  lemma PosicionMonotona(a: nat, b: nat, tam: nat)
    requires a <= b
    ensures Posicion(a, tam) <= Posicion(b, tam)
  {
    MulMonotona(a, b, tam);
  }

  lemma PosicionSuma(a: nat, b: nat, tam: nat)
    ensures Posicion(a + b, tam) == Posicion(a, tam) + Posicion(b, tam)
  {
    ProductoDeSuma(a, b, tam);
  }

  /** Which unit of `tam` bytes byte `a` is in. */
  function Unidad(a: nat, tam: nat): nat
    requires tam > 0
  {
    a / tam
  }

  /** Where in its unit byte `a` is. */
  function Sobra(a: nat, tam: nat): (r: nat)
    requires tam > 0
    ensures r < tam
  {
    a % tam
  }

  /** Byte `r` of unit `k`: dividing gives back `k` and `r`. */
  lemma UnidadYSobra(k: nat, tam: nat, r: nat)
    requires r < tam
    ensures Unidad(Posicion(k, tam) + r, tam) == k && Sobra(Posicion(k, tam) + r, tam) == r
  {
    DivisionUnica(Posicion(k, tam) + r, tam, k, r);
  }

  lemma EnSuUnidad(n: nat, tam: nat)
    requires tam > 0
    ensures n == Posicion(Unidad(n, tam), tam) + Sobra(n, tam)
  {
  }

  /** `n` divided by `d`, rounded up: whole units, plus one when some remain. */
  function Techo(n: nat, d: nat): nat
    requires d > 0
  {
    n / d + if n % d != 0 then 1 else 0
  }

  /** It is the ceiling: enough units of `d` for `n`, and one fewer would not do. */
  lemma TechoAlcanza(n: nat, d: nat)
    requires d > 0
    ensures n <= Techo(n, d) * d < n + d
  {
    var q := n / d;
    assert n == q * d + n % d;
    assert (q + 1) * d == q * d + d;
  }

  /** The only `q` and `r` with `n == q * d + r` and `r < d` are the quotient and the remainder. */
  lemma DivisionUnica(n: nat, d: nat, q: nat, r: nat)
    requires r < d && n == q * d + r
    ensures n / d == q && n % d == r
  {
    var p, s := n / d, n % d;
    assert n == p * d + s;
    if p < q {
      MulMonotona(p + 1, q, d);
    } else if q < p {
      MulMonotona(q + 1, p, d);
    }
  }

  lemma TamContenido<T>(a: set<T>, b: set<T>)
    requires forall x :: x in a ==> x in b
    ensures |a| <= |b|
  {
    assert a <= b;
    var resto := b - a;
    assert b == a + resto;
  }

  lemma UnionDisjunta<T>(a: set<T>, b: set<T>) returns (s: set<T>)
    requires forall x :: x in a ==> x !in b
    ensures |s| == |a| + |b|
    ensures forall x :: x in s <==> x in a || x in b
  {
    assert a * b == {};
    s := a + b;
  }

  lemma {:induction false} Intervalo(a: int, b: int) returns (s: set<int>)
    requires a <= b
    ensures |s| == b - a
    ensures forall i :: i in s <==> a <= i < b
    decreases b - a
  {
    if a == b {
      s := {};
    } else {
      var t := Intervalo(a, b - 1);
      s := t + {b - 1};
    }
  }
}
