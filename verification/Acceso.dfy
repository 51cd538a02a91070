/** Reading and writing paged memory: which physical bytes the chunk loops visit, when those are the
    logical bytes asked for, and what memory then means for every process. */
module Acceso {
  import opened Comunes
  import opened Paginacion

  /** Where an access starts: page `pagina` of the table, `corrimiento` bytes into it. */
  datatype Camino = Camino(tabla: seq<nat>, tam: nat, pagina: nat, corrimiento: nat)

  function Marco(t: seq<nat>, i: nat): nat {
    if i < |t| then t[i] else 0
  }

  /** Physical address of byte `j` of an access: every chunk of a whole page starts at the same offset
      inside the next frame of the table. */
  function Dir(c: Camino, j: nat): nat
    requires c.tam > 0
  {
    Posicion(Marco(c.tabla, c.pagina + Unidad(j, c.tam)), c.tam) + c.corrimiento + Sobra(j, c.tam)
  }

  /** Physical address of logical byte `a`. */
  function DirLogica(t: seq<nat>, tam: nat, a: nat): nat
    requires tam > 0
  {
    Posicion(Marco(t, Unidad(a, tam)), tam) + Sobra(a, tam)
  }

  /** The start of a `n`-byte access at physical address `dir`: the page whose frame holds it. */
  function CaminoDe(m: Memoria, pid: nat, dir: nat): Camino
    requires m.tamPagina > 0 && pid in m.tablas && Indice(m.tablas[pid], Unidad(dir, m.tamPagina)) >= 0
  {
    Camino(m.tablas[pid], m.tamPagina, Indice(m.tablas[pid], Unidad(dir, m.tamPagina)), Sobra(dir, m.tamPagina))
  }

  /** No chunk reads the page table past its end. */
  ghost predicate PaginasDentro(c: Camino, n: nat) {
    c.corrimiento < c.tam && c.pagina < |c.tabla| && c.pagina + Techo(n, c.tam) <= |c.tabla|
  }

  /** No chunk reads the page table or the memory past its end. */
  ghost predicate Dentro(c: Camino, n: nat, largo: nat) {
    PaginasDentro(c, n) && forall j: nat :: j < n ==> Dir(c, j) < largo
  }

  /** What the program demands of an access: a page of the process at `dir`, and every chunk inside. An
      access of no bytes touches nothing. */
  ghost predicate Accesible(m: Memoria, pid: nat, dir: nat, n: nat) {
    && m.tamPagina > 0 && pid in m.tablas
    && (n > 0 ==> Indice(m.tablas[pid], Unidad(dir, m.tamPagina)) >= 0 && Dentro(CaminoDe(m, pid, dir), n, |m.bytes|))
  }

  /** `obtener_datos_de_memoria`, byte by byte. */
  function Leidos(bytes: seq<byte>, c: Camino, n: nat): (r: seq<byte>)
    requires Dentro(c, n, |bytes|)
    ensures |r| == n && forall j: nat :: j < n ==> r[j] == bytes[Dir(c, j)]
  {
    seq(n, j requires 0 <= j < n => bytes[Dir(c, j)])
  }

  /** `agregar_datos_a_memoria`, byte by byte, for the first `n` bytes of `datos`. */
  function Escritos(bytes: seq<byte>, c: Camino, datos: seq<byte>, n: nat): (r: seq<byte>)
    requires n <= |datos| && Dentro(c, |datos|, |bytes|)
    ensures |r| == |bytes|
  {
    if n == 0 then bytes else Escritos(bytes, c, datos, n - 1)[Dir(c, n - 1) := datos[n - 1]]
  }

  function Leer(m: Memoria, pid: nat, dir: nat, n: nat): seq<byte>
    requires Accesible(m, pid, dir, n)
  {
    if n == 0 then [] else Leidos(m.bytes, CaminoDe(m, pid, dir), n)
  }

  function Escribir(m: Memoria, pid: nat, dir: nat, datos: seq<byte>): Memoria
    requires Accesible(m, pid, dir, |datos|)
  {
    if datos == [] then m else m.(bytes := Escritos(m.bytes, CaminoDe(m, pid, dir), datos, |datos|))
  }

  /** `copy_string`: everything is read before anything is written. */
  function CopiarString(m: Memoria, pid: nat, di: nat, si: nat, n: nat): Memoria
    requires Accesible(m, pid, si, n) && Accesible(m, pid, di, n)
  {
    Escribir(m, pid, di, Leer(m, pid, si, n))
  }

  // ---------------------------------------------------------------- write, then read

  /** Frames are distinct, so no two bytes of an access share an address, at any starting offset. */
  lemma DirInyectiva(c: Camino, n: nat, largo: nat, i: nat, j: nat)
    requires Dentro(c, n, largo) && SinRepetidos(c.tabla) && i < n && j < n
    ensures Dir(c, i) == Dir(c, j) <==> i == j
  {
    if Dir(c, i) == Dir(c, j) {
      PaginaDentro(c, n, i);
      PaginaDentro(c, n, j);
      var p, q, x, y := c.pagina + Unidad(i, c.tam), c.pagina + Unidad(j, c.tam), Sobra(i, c.tam), Sobra(j, c.tam);
      assert Posicion(c.tabla[p], c.tam) + x == Posicion(c.tabla[q], c.tam) + y;
      hide *;
      MismaPosicion(c.tabla[p], x, c.tabla[q], y, c.tam);
      assert p == q by { NoSeRepite(c.tabla, p, q); }
      MismoCociente(i, j, c.tam);
    }
  }

  lemma NoSeRepite<T(!new)>(s: seq<T>, i: nat, j: nat)
    requires SinRepetidos(s) && i < |s| && j < |s| && s[i] == s[j]
    ensures i == j
  {
  }

  lemma MismoCociente(a: nat, b: nat, tam: nat)
    requires tam > 0 && Unidad(a, tam) == Unidad(b, tam) && Sobra(a, tam) == Sobra(b, tam)
    ensures a == b
  {
    EnSuUnidad(a, tam);
    EnSuUnidad(b, tam);
  }

  lemma MismaPosicion(f: nat, x: nat, g: nat, y: nat, tam: nat)
    requires x < tam && y < tam && Posicion(f, tam) + x == Posicion(g, tam) + y
    ensures f == g && x == y
  {
    UnidadYSobra(f, tam, x);
    UnidadYSobra(g, tam, y);
  }

  lemma PaginaDentro(c: Camino, n: nat, j: nat)
    requires PaginasDentro(c, n) && j < n
    ensures c.pagina + Unidad(j, c.tam) < |c.tabla|
  {
    CocienteMenor(j, n, c.tam);
  }

  lemma CocienteMenor(j: nat, n: nat, tam: nat)
    requires tam > 0 && j < n
    ensures Unidad(j, tam) < Techo(n, tam)
  {
    TechoAlcanza(n, tam);
    if Techo(n, tam) <= Unidad(j, tam) {
      MulMonotona(Techo(n, tam), Unidad(j, tam), tam);
    }
  }

  ghost predicate EscritoEn(antes: seq<byte>, c: Camino, datos: seq<byte>, despues: seq<byte>) {
    && c.tam > 0 && |antes| == |despues|
    && (forall j: nat :: j < |datos| ==> Dir(c, j) < |despues| && despues[Dir(c, j)] == datos[j])
    && (forall x :: 0 <= x < |antes| && (forall j: nat :: j < |datos| ==> Dir(c, j) != x) ==> despues[x] == antes[x])
  }

  /** A write puts byte `j` at `Dir(c, j)` and leaves every other address alone. */
  lemma {:induction false} EscritosEn(bytes: seq<byte>, c: Camino, datos: seq<byte>, n: nat)
    requires n <= |datos| && Dentro(c, |datos|, |bytes|) && SinRepetidos(c.tabla)
    ensures EscritoEn(bytes, c, datos[..n], Escritos(bytes, c, datos, n))
  {
    if n > 0 {
      EscritosEn(bytes, c, datos, n - 1);
      forall j: nat | j < n - 1 ensures Dir(c, j) != Dir(c, n - 1) {
        if Dir(c, j) == Dir(c, n - 1) {
          DirInyectiva(c, |datos|, |bytes|, j, n - 1);
        }
      }
    }
  }

  /** Reading back what was written, at any offset and across any pages, gives it back. */
  lemma LeerLoEscrito(m: Memoria, pid: nat, dir: nat, datos: seq<byte>)
    requires Inv(m) && Accesible(m, pid, dir, |datos|)
    ensures var r := Escribir(m, pid, dir, datos);
            Accesible(r, pid, dir, |datos|) && Leer(r, pid, dir, |datos|) == datos
  {
    if datos != [] {
      TablaDistinta(m, pid);
      EscritosEn(m.bytes, CaminoDe(m, pid, dir), datos, |datos|);
      assert datos[..|datos|] == datos;
    }
  }

  /** A copy at any two offsets: byte `j` of the destination is byte `j` of the source as it was before, and every other address
      is left alone. */
  lemma CopiarStringEn(m: Memoria, pid: nat, di: nat, si: nat, n: nat)
    requires Inv(m) && Accesible(m, pid, si, n) && Accesible(m, pid, di, n)
    ensures var r, datos := CopiarString(m, pid, di, si, n), Leer(m, pid, si, n);
            && r == m.(bytes := r.bytes) && |datos| == n
            && (n == 0 ==> r == m)
            && (n > 0 ==> EscritoEn(m.bytes, CaminoDe(m, pid, di), datos, r.bytes) &&
                          forall j: nat :: j < n ==> Dir(CaminoDe(m, pid, si), j) < |m.bytes| && datos[j] == m.bytes[Dir(CaminoDe(m, pid, si), j)])
  {
    if n > 0 {
      var datos := Leer(m, pid, si, n);
      TablaDistinta(m, pid);
      EscritosEn(m.bytes, CaminoDe(m, pid, di), datos, n);
      assert datos[..n] == datos;
      hide Inv, EscritoEn, Dir, Escritos;
    }
  }

  // ---------------------------------------------------------------- logical addresses

  ghost predicate EsLogica(c: Camino, j: nat)
    requires c.tam > 0
  {
    var a := Posicion(c.pagina, c.tam) + c.corrimiento + j;
    Unidad(a, c.tam) < |c.tabla| && Dir(c, j) == DirLogica(c.tabla, c.tam, a)
  }

  /** Every page that the logical range goes on into lies on the frame right after the previous page's. */
  ghost predicate Consecutivos(c: Camino, n: nat) {
    forall q: nat :: c.pagina <= q && Posicion(q + 1, c.tam) < Posicion(c.pagina, c.tam) + c.corrimiento + n ==>
      Seguidos(c.tabla, q)
  }

  ghost predicate Seguidos(t: seq<nat>, q: nat) {
    q + 1 < |t| && t[q + 1] == t[q] + 1
  }

  lemma PaginaLogica(p: nat, o: nat, j: nat, tam: nat)
    requires o < tam
    ensures var s := o + Sobra(j, tam);
            var a := Posicion(p, tam) + o + j;
            && Unidad(a, tam) == p + Unidad(j, tam) + (if s < tam then 0 else 1)
            && Sobra(a, tam) == (if s < tam then s else s - tam)
  {
    var s, k := o + Sobra(j, tam), p + Unidad(j, tam);
    EnSuUnidad(j, tam);
    PosicionSuma(p, Unidad(j, tam), tam);
    if s < tam {
      UnidadYSobra(k, tam, s);
    } else {
      PosicionSuma(k, 1, tam);
      UnidadYSobra(k + 1, tam, s - tam);
    }
  }

  /** A byte reached before its chunk leaves the frame is the logical one; past it, exactly when the next page follows. */
  lemma EsLogicaSii(c: Camino, n: nat, j: nat)
    requires PaginasDentro(c, n) && j < n
    ensures EsLogica(c, j) <==> c.corrimiento + Sobra(j, c.tam) < c.tam || Seguidos(c.tabla, c.pagina + Unidad(j, c.tam))
  {
    var q := c.pagina + Unidad(j, c.tam);
    PaginaLogica(c.pagina, c.corrimiento, j, c.tam);
    PaginaDentro(c, n, j);
    if c.corrimiento + Sobra(j, c.tam) >= c.tam && q + 1 < |c.tabla| {
      PosicionSuma(c.tabla[q], 1, c.tam);
      UnidadYSobra(c.tabla[q] + 1, c.tam, 0);
      UnidadYSobra(c.tabla[q + 1], c.tam, 0);
    }
  }

  /** The chunk loops visit exactly the logical bytes asked for if and only if the access starts at a page
      boundary or every page it goes on into lies on the physically next frame. */
  lemma AccesoLogicoSii(c: Camino, n: nat)
    requires PaginasDentro(c, n)
    ensures (forall j: nat :: j < n ==> EsLogica(c, j)) <==> c.corrimiento == 0 || Consecutivos(c, n)
  {
    hide Posicion, Unidad, Sobra, Techo, EsLogica, Dir, Seguidos;
    if c.corrimiento == 0 || Consecutivos(c, n) {
      forall j: nat | j < n ensures EsLogica(c, j) {
        EsLogicaSii(c, n, j);
        CruceDeByte(c, j);
        if c.corrimiento + Sobra(j, c.tam) >= c.tam && c.corrimiento != 0 {
          assert Seguidos(c.tabla, c.pagina + Unidad(j, c.tam));
        }
      }
    }
    if (forall j: nat :: j < n ==> EsLogica(c, j)) && c.corrimiento != 0 {
      forall q: nat | c.pagina <= q && Posicion(q + 1, c.tam) < Posicion(c.pagina, c.tam) + c.corrimiento + n
        ensures Seguidos(c.tabla, q)
      {
        var j := ByteDelCruce(c, q);
        EsLogicaSii(c, n, j);
      }
    }
  }

  lemma CruceDeByte(c: Camino, j: nat)
    requires c.corrimiento < c.tam
    ensures c.corrimiento + Sobra(j, c.tam) >= c.tam ==>
              Posicion(c.pagina + Unidad(j, c.tam) + 1, c.tam) <= Posicion(c.pagina, c.tam) + c.corrimiento + j
  {
    EnSuUnidad(j, c.tam);
    PosicionSuma(c.pagina, Unidad(j, c.tam), c.tam);
    PosicionSuma(c.pagina + Unidad(j, c.tam), 1, c.tam);
  }

  /** The first byte of the access that falls past page `q`. */
  lemma ByteDelCruce(c: Camino, q: nat) returns (j: nat)
    requires 0 < c.corrimiento < c.tam && c.pagina <= q
    ensures Unidad(j, c.tam) == q - c.pagina && c.corrimiento + Sobra(j, c.tam) == c.tam
    ensures Posicion(q + 1, c.tam) == Posicion(c.pagina, c.tam) + c.corrimiento + j
  {
    j := Posicion(q - c.pagina, c.tam) + c.tam - c.corrimiento;
    UnidadYSobra(q - c.pagina, c.tam, c.tam - c.corrimiento);
    PosicionSuma(c.pagina, q - c.pagina, c.tam);
    PosicionSuma(q, 1, c.tam);
  }

  /** An access that is not aligned and goes on past page `q` reaches the first byte of the physically next
      frame, whoever owns it. */
  lemma PisaMarcoSiguiente(c: Camino, n: nat, q: nat) returns (j: nat)
    requires PaginasDentro(c, n) && 0 < c.corrimiento && c.pagina <= q
    requires Posicion(q + 1, c.tam) < Posicion(c.pagina, c.tam) + c.corrimiento + n
    ensures j < n && q < |c.tabla| && Dir(c, j) == Posicion(c.tabla[q] + 1, c.tam)
  {
    j := ByteDelCruce(c, q);
    PaginaDentro(c, n, j);
    PosicionSuma(c.tabla[q], 1, c.tam);
  }
}
