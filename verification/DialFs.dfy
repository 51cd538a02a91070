/** DialFS as values: the disk state, what each operation makes of it, and the map of
    file contents it stands for. */
module DialFs {
  import opened Comunes

  datatype Archivo = Archivo(bloqueInicial: nat, tamArchivo: nat)

  datatype Disco = Disco(tamBloque: nat, bitmap: seq<bool>, bloques: seq<byte>, archivos: map<string, Archivo>)

  // ---------------------------------------------------------------- sizes and extents

  /** Blocks needed for `tam` bytes. */
  function CantidadDeBloques(tam: nat, tamBloque: nat): nat
    requires tamBloque > 0
  {
    Techo(tam, tamBloque)
  }

  /** The block count is the ceiling: enough blocks, and one fewer would not do. */
  lemma CantidadEsTecho(tam: nat, tamBloque: nat)
    requires tamBloque > 0
    ensures tam <= Posicion(CantidadDeBloques(tam, tamBloque), tamBloque) < tam + tamBloque
  {
    TechoAlcanza(tam, tamBloque);
  }

  /** Blocks a file owns: creating a file reserves one even though its size is 0. */
  function Extension(tam: nat, tamBloque: nat): (r: nat)
    requires tamBloque > 0
    ensures r >= 1
  {
    var c := CantidadDeBloques(tam, tamBloque);
    if c == 0 then 1 else c
  }

  /** Zero blocks are needed exactly for the empty file. */
  lemma SinBloquesSiiVacio(tam: nat, tamBloque: nat)
    requires tamBloque > 0
    ensures CantidadDeBloques(tam, tamBloque) == 0 <==> tam == 0
  {
    CantidadEsTecho(tam, tamBloque);
  }

  lemma CabeEnExtension(tam: nat, tamBloque: nat)
    requires tamBloque > 0
    ensures tam <= Posicion(Extension(tam, tamBloque), tamBloque)
  {
    CantidadEsTecho(tam, tamBloque);
  }

  ghost predicate EnExtension(d: Disco, n: string, i: int)
    requires d.tamBloque > 0
  {
    n in d.archivos && d.archivos[n].bloqueInicial <= i < d.archivos[n].bloqueInicial + Extension(d.archivos[n].tamArchivo, d.tamBloque)
  }

  ghost predicate Ocupado(d: Disco, i: int)
    requires d.tamBloque > 0
  {
    exists n :: EnExtension(d, n, i)
  }

  function Fin(d: Disco, n: string): nat
    requires d.tamBloque > 0 && n in d.archivos
  {
    d.archivos[n].bloqueInicial + Extension(d.archivos[n].tamArchivo, d.tamBloque)
  }

  // ---------------------------------------------------------------- invariants

  ghost predicate Forma(d: Disco) {
    d.tamBloque > 0 && |d.bloques| == Posicion(|d.bitmap|, d.tamBloque)
  }

  ghost predicate Disjuntos(d: Disco)
    requires d.tamBloque > 0
  {
    forall n, m :: n in d.archivos && m in d.archivos && n != m ==>
      Fin(d, n) <= d.archivos[m].bloqueInicial || Fin(d, m) <= d.archivos[n].bloqueInicial
  }

  /** Every extent lies on the disk, is marked in the bitmap, and overlaps no other. */
  ghost predicate Inv(d: Disco) {
    && Forma(d)
    && (forall n :: n in d.archivos ==> Fin(d, n) <= |d.bitmap|)
    && (forall n, i :: EnExtension(d, n, i) ==> 0 <= i < |d.bitmap| && d.bitmap[i])
    && Disjuntos(d)
  }

  /** No leaked block: a bit is set only when some file owns the block. */
  ghost predicate SinPerdidas(d: Disco)
    requires d.tamBloque > 0
  {
    forall i :: 0 <= i < |d.bitmap| && d.bitmap[i] ==> Ocupado(d, i)
  }

  ghost predicate Exacto(d: Disco) {
    Inv(d) && SinPerdidas(d)
  }

  // ---------------------------------------------------------------- the map of contents

  function Datos(d: Disco, a: Archivo): seq<byte> {
    Tramo(d.bloques, Posicion(a.bloqueInicial, d.tamBloque), a.tamArchivo)
  }

  function Contenidos(d: Disco): (m: map<string, seq<byte>>)
    ensures m.Keys == d.archivos.Keys
  {
    map n | n in d.archivos :: Datos(d, d.archivos[n])
  }

  /** Under the invariant every file's bytes lie inside the byte array, in its own blocks. */
  lemma DatosEnRango(d: Disco, n: string)
    requires Inv(d) && n in d.archivos
    ensures Posicion(d.archivos[n].bloqueInicial, d.tamBloque) + d.archivos[n].tamArchivo <= Posicion(Fin(d, n), d.tamBloque) <= |d.bloques|
    ensures |Contenidos(d)[n]| == d.archivos[n].tamArchivo
  {
    var a := d.archivos[n];
    var ext := Extension(a.tamArchivo, d.tamBloque);
    CabeEnExtension(a.tamArchivo, d.tamBloque);
    PosicionSuma(a.bloqueInicial, ext, d.tamBloque);
    PosicionMonotona(a.bloqueInicial + ext, |d.bitmap|, d.tamBloque);
  }

  /** No file's bytes run past the end of the byte array. */
  ghost predicate DatosCompletos(d: Disco) {
    d.tamBloque > 0 && forall n :: n in d.archivos ==> |Datos(d, d.archivos[n])| == d.archivos[n].tamArchivo
  }

  lemma InvDatosCompletos(d: Disco)
    requires Inv(d)
    ensures DatosCompletos(d)
  {
    forall n | n in d.archivos ensures |Datos(d, d.archivos[n])| == d.archivos[n].tamArchivo {
      DatosEnRango(d, n);
    }
  }

  // ---------------------------------------------------------------- bitmap

  function BloqueLibre(bitmap: seq<bool>): (r: int)
    ensures -1 <= r < |bitmap|
    ensures r >= 0 ==> !bitmap[r] && forall j :: 0 <= j < r ==> bitmap[j]
    ensures r < 0 ==> forall j :: 0 <= j < |bitmap| ==> bitmap[j]
  {
    Indice(bitmap, false)
  }

  /** The test `estan_contiguos`: none of the `n` bits from `desde` on is set. */
  predicate EstanContiguos(bitmap: seq<bool>, desde: nat, n: nat) {
    forall i :: desde <= i < desde + n && i < |bitmap| ==> !bitmap[i]
  }

  function Marcar(bitmap: seq<bool>, desde: int, hasta: int, valor: bool): (r: seq<bool>)
    ensures |r| == |bitmap|
  {
    seq(|bitmap|, i requires 0 <= i < |bitmap| => if desde <= i < hasta then valor else bitmap[i])
  }

  // ---------------------------------------------------------------- compaction

  /** `claves` is some order of the dictionary's keys. */
  ghost predicate EsOrden(d: Disco, claves: seq<string>) {
    SinRepetidos(claves) && forall n :: n in claves <==> n in d.archivos
  }

  ghost predicate Registrados(d: Disco, orden: seq<string>) {
    forall n :: n in orden ==> n in d.archivos
  }

  /** Block where the `k`-th relocated file starts; for `k == |orden|`, the first block after all. */
  function Inicio(d: Disco, orden: seq<string>, k: nat): nat
    requires d.tamBloque > 0 && Registrados(d, orden) && k <= |orden|
  {
    if k == 0 then 0 else Inicio(d, orden, k - 1) + Extension(d.archivos[orden[k - 1]].tamArchivo, d.tamBloque)
  }

  /** One relocated file: its bytes, then zeros up to the end of its last block. */
  function Relleno(d: Disco, a: Archivo): seq<byte>
    requires d.tamBloque > 0
  {
    CabeEnExtension(a.tamArchivo, d.tamBloque);
    Datos(d, a) + Ceros(Posicion(Extension(a.tamArchivo, d.tamBloque), d.tamBloque) - a.tamArchivo)
  }

  function Compactados(d: Disco, orden: seq<string>, k: nat): seq<byte>
    requires d.tamBloque > 0 && Registrados(d, orden) && k <= |orden|
  {
    if k == 0 then [] else Compactados(d, orden, k - 1) + Relleno(d, d.archivos[orden[k - 1]])
  }

  function Reubicados(d: Disco, orden: seq<string>, k: nat): (m: map<string, Archivo>)
    requires d.tamBloque > 0 && Registrados(d, orden) && k <= |orden|
    ensures m.Keys == d.archivos.Keys
  {
    if k == 0 then d.archivos
    else Reubicados(d, orden, k - 1)[orden[k - 1] := Archivo(Inicio(d, orden, k - 1), d.archivos[orden[k - 1]].tamArchivo)]
  }

  /** There is room for all the files when each owns its extent and `nombre` gets `n` blocks. */
  predicate HayLugar(d: Disco, nombre: string, claves: seq<string>, n: nat)
    requires d.tamBloque > 0
  {
    var otros := Quitar(claves, nombre);
    (forall m :: m in otros ==> m in d.archivos) && Inicio(d, otros, |otros|) + n <= |d.bitmap|
  }

  /** `otros` packed from block 0 in that order, then `nombre`; the bytes beyond are left as they were. */
  function Empaquetar(d: Disco, nombre: string, otros: seq<string>): (c: Disco)
    requires d.tamBloque > 0 && Registrados(d, otros) && nombre in d.archivos
    ensures c.tamBloque == d.tamBloque && |c.bitmap| == |d.bitmap| && c.archivos.Keys == d.archivos.Keys
  {
    var a := d.archivos[nombre];
    var fin := Inicio(d, otros, |otros|);
    var usados := fin + CantidadDeBloques(a.tamArchivo, d.tamBloque);
    Disco(d.tamBloque,
          seq(|d.bitmap|, i => i < usados),
          Compactados(d, otros, |otros|) + (Datos(d, a) + Desde(d.bloques, Posicion(fin, d.tamBloque) + a.tamArchivo)),
          Reubicados(d, otros, |otros|)[nombre := Archivo(fin, a.tamArchivo)])
  }

  /** `compactar(nombre)` when the dictionary lists its keys as `claves`. */
  function Compactar(d: Disco, nombre: string, claves: seq<string>): Disco
    requires d.tamBloque > 0 && EsOrden(d, claves) && nombre in d.archivos
  {
    QuitarSinRepetidos(claves, nombre);
    Empaquetar(d, nombre, Quitar(claves, nombre))
  }

  /** `otros` lists every file but `nombre`, each once. */
  ghost predicate SonOtros(d: Disco, nombre: string, otros: seq<string>) {
    nombre in d.archivos && SinRepetidos(otros) && forall n :: n in otros <==> n in d.archivos && n != nombre
  }

  ghost predicate EnPrimeros(d: Disco, orden: seq<string>, k: nat, i: int)
    requires d.tamBloque > 0 && k <= |orden|
  {
    exists j :: 0 <= j < k && EnExtension(d, orden[j], i)
  }

  /** Distinct files own disjoint blocks, so the first `k` files own as many blocks as they need. */
  lemma {:induction false} BloquesDe(d: Disco, orden: seq<string>, k: nat) returns (s: set<int>)
    requires d.tamBloque > 0 && Disjuntos(d) && Registrados(d, orden) && SinRepetidos(orden) && k <= |orden|
    ensures |s| == Inicio(d, orden, k)
    ensures forall i :: i in s ==> EnPrimeros(d, orden, k, i)
  {
    if k == 0 {
      s := {};
    } else {
      var previos := BloquesDe(d, orden, k - 1);
      var n := orden[k - 1];
      var propios := Intervalo(d.archivos[n].bloqueInicial, Fin(d, n));
      forall i | i in previos ensures i !in propios {
        NoEnPropios(d, orden, k, i);
      }
      s := UnionDisjunta(previos, propios);
      forall i | i in s ensures EnPrimeros(d, orden, k, i) {
        assert i in propios ==> EnExtension(d, orden[k - 1], i);
      }
    }
  }

  lemma NoEnPropios(d: Disco, orden: seq<string>, k: nat, i: int)
    requires d.tamBloque > 0 && Disjuntos(d) && Registrados(d, orden) && SinRepetidos(orden) && 0 < k <= |orden|
    requires EnPrimeros(d, orden, k - 1, i)
    ensures !EnExtension(d, orden[k - 1], i)
  {
    var j :| 0 <= j < k - 1 && EnExtension(d, orden[j], i);
    assert orden[j] != orden[k - 1];
  }

  /** Counting argument: the files on the disk own no more blocks than the disk has. */
  lemma OrdenEntra(d: Disco, orden: seq<string>)
    requires Inv(d) && Registrados(d, orden) && SinRepetidos(orden)
    ensures Inicio(d, orden, |orden|) <= |d.bitmap|
  {
    var bloques := BloquesDe(d, orden, |orden|);
    var disco := Intervalo(0, |d.bitmap|);
    forall i | i in bloques ensures i in disco {
      var j :| 0 <= j < |orden| && EnExtension(d, orden[j], i);
    }
    TamContenido(bloques, disco);
  }

  /** Packed from block 0, the other files and `nombre` always fit again on the disk. */
  lemma CompactadosEntran(d: Disco, nombre: string, otros: seq<string>)
    requires Inv(d) && SonOtros(d, nombre, otros)
    ensures Inicio(d, otros, |otros|) + Extension(d.archivos[nombre].tamArchivo, d.tamBloque) <= |d.bitmap|
    ensures Posicion(Inicio(d, otros, |otros|), d.tamBloque) + d.archivos[nombre].tamArchivo <= |d.bloques|
  {
    hide Posicion, EnExtension, Disjuntos, Extension;
    var fin := Inicio(d, otros, |otros|);
    var ext := Extension(d.archivos[nombre].tamArchivo, d.tamBloque);
    assert fin + ext <= |d.bitmap| by {
      var todos := otros + [nombre];
      InicioDePrefijo(d, otros, todos, |otros|);
      OrdenEntra(d, todos);
    }
    PosicionMonotona(fin + ext, |d.bitmap|, d.tamBloque);
    PosicionSuma(fin, ext, d.tamBloque);
    CabeEnExtension(d.archivos[nombre].tamArchivo, d.tamBloque);
  }

  lemma {:induction false} InicioDePrefijo(d: Disco, a: seq<string>, b: seq<string>, k: nat)
    requires d.tamBloque > 0 && Registrados(d, a) && Registrados(d, b) && k <= |a| <= |b| && a == b[..|a|]
    ensures Inicio(d, a, k) == Inicio(d, b, k)
  {
    if k > 0 {
      InicioDePrefijo(d, a, b, k - 1);
    }
  }

  // ---------------------------------------------------------------- what compaction does

  /** Blocks of the relocated files are consecutive: each starts where the previous one ends. */
  lemma {:induction false} InicioCrece(d: Disco, orden: seq<string>, j: nat, k: nat)
    requires d.tamBloque > 0 && Registrados(d, orden) && j < k <= |orden|
    ensures Inicio(d, orden, j) + Extension(d.archivos[orden[j]].tamArchivo, d.tamBloque) <= Inicio(d, orden, k)
  {
    if j < k - 1 {
      InicioCrece(d, orden, j, k - 1);
    }
  }

  /** Every block below the packed area's end belongs to exactly one of the relocated files. */
  lemma {:induction false} InicioSinHuecos(d: Disco, orden: seq<string>, k: nat, i: nat) returns (j: nat)
    requires d.tamBloque > 0 && Registrados(d, orden) && k <= |orden| && i < Inicio(d, orden, k)
    ensures j < k && Inicio(d, orden, j) <= i < Inicio(d, orden, j) + Extension(d.archivos[orden[j]].tamArchivo, d.tamBloque)
  {
    if i < Inicio(d, orden, k - 1) {
      j := InicioSinHuecos(d, orden, k - 1, i);
    } else {
      j := k - 1;
    }
  }

  lemma RellenoTam(d: Disco, n: string)
    requires DatosCompletos(d) && n in d.archivos
    ensures |Relleno(d, d.archivos[n])| == Posicion(Extension(d.archivos[n].tamArchivo, d.tamBloque), d.tamBloque)
    ensures Datos(d, d.archivos[n]) <= Relleno(d, d.archivos[n])
  {
    CabeEnExtension(d.archivos[n].tamArchivo, d.tamBloque);
  }

  lemma {:induction false} CompactadosTam(d: Disco, orden: seq<string>, k: nat)
    requires DatosCompletos(d) && Registrados(d, orden) && k <= |orden|
    ensures |Compactados(d, orden, k)| == Posicion(Inicio(d, orden, k), d.tamBloque)
  {
    if k > 0 {
      CompactadosTam(d, orden, k - 1);
      RellenoTam(d, orden[k - 1]);
      PosicionSuma(Inicio(d, orden, k - 1), Extension(d.archivos[orden[k - 1]].tamArchivo, d.tamBloque), d.tamBloque);
    }
  }

  /** The `j`-th relocated file's bytes sit at its new place, whatever is packed after it. */
  lemma {:induction false} CompactadosDatos(d: Disco, orden: seq<string>, j: nat, k: nat)
    requires DatosCompletos(d) && Registrados(d, orden) && j < k <= |orden|
    ensures var a := d.archivos[orden[j]];
            && Posicion(Inicio(d, orden, j), d.tamBloque) + a.tamArchivo <= |Compactados(d, orden, k)|
            && Tramo(Compactados(d, orden, k), Posicion(Inicio(d, orden, j), d.tamBloque), a.tamArchivo) == Datos(d, a)
  {
    hide Tramo, Extension, Posicion;
    var previo := Compactados(d, orden, k - 1);
    var ultimo := Relleno(d, d.archivos[orden[k - 1]]);
    if j < k - 1 {
      CompactadosDatos(d, orden, j, k - 1);
      TramoDePrefijo(previo, ultimo, Posicion(Inicio(d, orden, j), d.tamBloque), d.archivos[orden[j]].tamArchivo);
    } else {
      CompactadosTam(d, orden, j);
      RellenoTam(d, orden[j]);
      TramoDeSufijo(previo, ultimo, d.archivos[orden[j]].tamArchivo);
    }
  }

  lemma {:induction false} ReubicadosEn(d: Disco, orden: seq<string>, k: nat, n: string)
    requires d.tamBloque > 0 && Registrados(d, orden) && SinRepetidos(orden) && k <= |orden|
    ensures n !in orden[..k] && n in d.archivos ==> Reubicados(d, orden, k)[n] == d.archivos[n]
    ensures forall j :: 0 <= j < k && n == orden[j] ==>
      Reubicados(d, orden, k)[n] == Archivo(Inicio(d, orden, j), d.archivos[n].tamArchivo)
  {
    if k > 0 {
      ReubicadosEn(d, orden, k - 1, n);
      assert orden[..k] == orden[..k - 1] + [orden[k - 1]];
    }
  }

  /** Where each file lies after packing: the others in order, `nombre` right after them. */
  lemma DondeQueda(d: Disco, nombre: string, otros: seq<string>, n: string) returns (j: nat)
    requires d.tamBloque > 0 && SonOtros(d, nombre, otros) && n in d.archivos
    ensures j <= |otros| && (j < |otros| ==> otros[j] == n) && (j == |otros| <==> n == nombre)
    ensures Empaquetar(d, nombre, otros).archivos[n] == Archivo(Inicio(d, otros, j), d.archivos[n].tamArchivo)
  {
    j := |otros|;
    if n != nombre {
      j :| 0 <= j < |otros| && otros[j] == n;
      ReubicadosEn(d, otros, |otros|, n);
    }
  }

  /** Packing copies the `j`-th file's bytes to its new place. */
  lemma CopiaDeOtro(d: Disco, otros: seq<string>, resto: seq<byte>, j: nat)
    requires DatosCompletos(d) && Registrados(d, otros) && j < |otros|
    ensures Tramo(Compactados(d, otros, |otros|) + resto, Posicion(Inicio(d, otros, j), d.tamBloque), d.archivos[otros[j]].tamArchivo)
            == Datos(d, d.archivos[otros[j]])
  {
    hide Tramo, Compactados, Inicio, Datos, Posicion;
    CompactadosDatos(d, otros, j, |otros|);
    TramoDePrefijo(Compactados(d, otros, |otros|), resto, Posicion(Inicio(d, otros, j), d.tamBloque), d.archivos[otros[j]].tamArchivo);
  }

  /** Packing puts the saved buffer right after the other files. */
  lemma CopiaDelBuffer(d: Disco, nombre: string, otros: seq<string>, cola: seq<byte>)
    requires DatosCompletos(d) && Registrados(d, otros) && nombre in d.archivos
    ensures Tramo(Compactados(d, otros, |otros|) + (Datos(d, d.archivos[nombre]) + cola), Posicion(Inicio(d, otros, |otros|), d.tamBloque), d.archivos[nombre].tamArchivo)
            == Datos(d, d.archivos[nombre])
  {
    hide Tramo, Posicion;
    var propios := Datos(d, d.archivos[nombre]);
    CompactadosTam(d, otros, |otros|);
    TramoDeSufijo(Compactados(d, otros, |otros|), propios + cola, |propios|);
    assert (propios + cola)[..|propios|] == propios;
  }

  lemma EmpaquetarConserva(d: Disco, nombre: string, otros: seq<string>, n: string)
    requires DatosCompletos(d) && SonOtros(d, nombre, otros) && n in d.archivos
    ensures var c := Empaquetar(d, nombre, otros);
            c.archivos[n].tamArchivo == d.archivos[n].tamArchivo && Datos(c, c.archivos[n]) == Datos(d, d.archivos[n])
  {
    hide Tramo, Posicion;
    var j := DondeQueda(d, nombre, otros, n);
    var cola := Desde(d.bloques, Posicion(Inicio(d, otros, |otros|), d.tamBloque) + d.archivos[nombre].tamArchivo);
    if n == nombre {
      CopiaDelBuffer(d, nombre, otros, cola);
    } else {
      CopiaDeOtro(d, otros, Datos(d, d.archivos[nombre]) + cola, j);
    }
  }

  lemma EmpaquetarForma(d: Disco, nombre: string, otros: seq<string>)
    requires Inv(d) && SonOtros(d, nombre, otros)
    ensures Forma(Empaquetar(d, nombre, otros))
  {
    hide Disjuntos, Posicion;
    InvDatosCompletos(d);
    CompactadosEntran(d, nombre, otros);
    CompactadosTam(d, otros, |otros|);
  }

  /** Compaction preserves contents: every file, the one being grown included, keeps its size and
      bytes, and the byte array keeps its length. */
  lemma CompactarConserva(d: Disco, nombre: string, claves: seq<string>)
    requires Inv(d) && EsOrden(d, claves) && nombre in d.archivos
    ensures Contenidos(Compactar(d, nombre, claves)) == Contenidos(d)
    ensures Forma(Compactar(d, nombre, claves))
    ensures DatosCompletos(Compactar(d, nombre, claves))
  {
    hide Empaquetar, Tramo, Datos, Posicion;
    QuitarSinRepetidos(claves, nombre);
    var otros := Quitar(claves, nombre);
    InvDatosCompletos(d);
    EmpaquetarForma(d, nombre, otros);
    var c := Empaquetar(d, nombre, otros);
    forall n | n in d.archivos
      ensures c.archivos[n].tamArchivo == d.archivos[n].tamArchivo && Datos(c, c.archivos[n]) == Datos(d, d.archivos[n])
    {
      EmpaquetarConserva(d, nombre, otros, n);
    }
  }

  /** The extents of two files never meet after packing, and stay on the disk. */
  lemma EmpaquetarDisjuntos(d: Disco, nombre: string, otros: seq<string>)
    requires Inv(d) && SonOtros(d, nombre, otros)
    ensures Disjuntos(Empaquetar(d, nombre, otros))
    ensures forall n :: n in d.archivos ==> Fin(Empaquetar(d, nombre, otros), n) <= |d.bitmap|
  {
    hide Empaquetar, Extension, Posicion;
    var c := Empaquetar(d, nombre, otros);
    forall n | n in d.archivos ensures Fin(c, n) <= |d.bitmap| {
      var j := DondeQueda(d, nombre, otros, n);
      CompactadosEntran(d, nombre, otros);
      if n != nombre { InicioCrece(d, otros, j, |otros|); }
    }
    forall n, m | n in d.archivos && m in d.archivos && n != m
      ensures Fin(c, n) <= c.archivos[m].bloqueInicial || Fin(c, m) <= c.archivos[n].bloqueInicial
    {
      var j := DondeQueda(d, nombre, otros, n);
      var k := DondeQueda(d, nombre, otros, m);
      if j < k { InicioCrece(d, otros, j, k); } else { InicioCrece(d, otros, k, j); }
    }
  }

  /** The packed area has no holes: the blocks below its end are exactly those of the other files. */
  lemma EmpaquetarSinHuecos(d: Disco, nombre: string, otros: seq<string>, i: int)
    requires d.tamBloque > 0 && SonOtros(d, nombre, otros)
    ensures var c := Empaquetar(d, nombre, otros);
            (0 <= i < Inicio(d, otros, |otros|)) <==> exists n :: n != nombre && EnExtension(c, n, i)
  {
    hide Empaquetar, Extension, Posicion;
    var c := Empaquetar(d, nombre, otros);
    if 0 <= i < Inicio(d, otros, |otros|) {
      var j := InicioSinHuecos(d, otros, |otros|, i);
      var k := DondeQueda(d, nombre, otros, otros[j]);
      assert j == k;
      assert EnExtension(c, otros[j], i);
    }
    if n :| n != nombre && EnExtension(c, n, i) {
      var j := DondeQueda(d, nombre, otros, n);
      InicioCrece(d, otros, j, |otros|);
    }
  }

  lemma BitsEmpaquetados(d: Disco, nombre: string, otros: seq<string>, i: int)
    requires d.tamBloque > 0 && SonOtros(d, nombre, otros) && 0 <= i < |d.bitmap|
    ensures Empaquetar(d, nombre, otros).bitmap[i]
            <==> i < Inicio(d, otros, |otros|) + CantidadDeBloques(d.archivos[nombre].tamArchivo, d.tamBloque)
  {
  }

  lemma EmpaquetarExacto(d: Disco, nombre: string, otros: seq<string>)
    requires Inv(d) && SonOtros(d, nombre, otros) && d.archivos[nombre].tamArchivo > 0
    ensures Exacto(Empaquetar(d, nombre, otros))
  {
    hide Empaquetar, CantidadDeBloques, Inicio, Disjuntos, Posicion;
    var c := Empaquetar(d, nombre, otros);
    EmpaquetarForma(d, nombre, otros);
    EmpaquetarDisjuntos(d, nombre, otros);
    var j := DondeQueda(d, nombre, otros, nombre);
    SinBloquesSiiVacio(d.archivos[nombre].tamArchivo, d.tamBloque);
    forall n, i | EnExtension(c, n, i) ensures 0 <= i < |c.bitmap| && c.bitmap[i] {
      EmpaquetarSinHuecos(d, nombre, otros, i);
      BitsEmpaquetados(d, nombre, otros, i);
    }
    forall i | 0 <= i < |c.bitmap| && c.bitmap[i] ensures Ocupado(c, i) {
      EmpaquetarSinHuecos(d, nombre, otros, i);
      BitsEmpaquetados(d, nombre, otros, i);
      assert i >= Inicio(d, otros, |otros|) ==> EnExtension(c, nombre, i);
    }
  }

  lemma EmpaquetarVacio(d: Disco, nombre: string, otros: seq<string>)
    requires Inv(d) && SonOtros(d, nombre, otros) && d.archivos[nombre].tamArchivo == 0
    ensures !Inv(Empaquetar(d, nombre, otros))
  {
    hide Empaquetar, Inicio, Disjuntos, Posicion;
    var c := Empaquetar(d, nombre, otros);
    var j := DondeQueda(d, nombre, otros, nombre);
    var fin := Inicio(d, otros, |otros|);
    CompactadosEntran(d, nombre, otros);
    BitsEmpaquetados(d, nombre, otros, fin);
    assert EnExtension(c, nombre, fin) && !c.bitmap[fin];
  }

  /** Compacting leaves the bitmap right if and only if the file being grown is not empty: an empty
      file's reserved block is not counted, so its bit is cleared. */
  lemma CompactarExactoSii(d: Disco, nombre: string, claves: seq<string>)
    requires Inv(d) && EsOrden(d, claves) && nombre in d.archivos
    ensures Exacto(Compactar(d, nombre, claves)) <==> d.archivos[nombre].tamArchivo > 0
    ensures Inv(Compactar(d, nombre, claves)) <==> d.archivos[nombre].tamArchivo > 0
  {
    hide Empaquetar, SinPerdidas, Disjuntos, EnExtension, Posicion;
    QuitarSinRepetidos(claves, nombre);
    var otros := Quitar(claves, nombre);
    assert d.tamBloque > 0 && SonOtros(d, nombre, otros);
    if d.archivos[nombre].tamArchivo > 0 {
      EmpaquetarExacto(d, nombre, otros);
    } else {
      EmpaquetarVacio(d, nombre, otros);
    }
  }

  // ---------------------------------------------------------------- idempotence

  lemma {:induction false} InicioIgual(d: Disco, c: Disco, orden: seq<string>, k: nat)
    requires d.tamBloque == c.tamBloque > 0 && Registrados(d, orden) && Registrados(c, orden) && k <= |orden|
    requires forall n :: n in orden ==> d.archivos[n].tamArchivo == c.archivos[n].tamArchivo
    ensures Inicio(d, orden, k) == Inicio(c, orden, k)
  {
    if k > 0 {
      InicioIgual(d, c, orden, k - 1);
    }
  }

  lemma {:induction false} CompactadosIgual(d: Disco, c: Disco, orden: seq<string>, k: nat)
    requires d.tamBloque == c.tamBloque > 0 && Registrados(d, orden) && Registrados(c, orden) && k <= |orden|
    requires forall n :: n in orden ==>
      d.archivos[n].tamArchivo == c.archivos[n].tamArchivo && Datos(d, d.archivos[n]) == Datos(c, c.archivos[n])
    ensures Compactados(d, orden, k) == Compactados(c, orden, k)
  {
    hide Datos, Posicion;
    if k > 0 {
      CompactadosIgual(d, c, orden, k - 1);
    }
  }

  lemma DosVecesArchivos(d: Disco, c: Disco, nombre: string, otros: seq<string>)
    requires d.tamBloque > 0 && SonOtros(d, nombre, otros) && c == Empaquetar(d, nombre, otros)
    ensures Inicio(c, otros, |otros|) == Inicio(d, otros, |otros|)
    ensures Empaquetar(c, nombre, otros).archivos == c.archivos
  {
    hide Empaquetar, Inicio, Posicion;
    forall n | n in d.archivos ensures c.archivos[n].tamArchivo == d.archivos[n].tamArchivo {
      var j := DondeQueda(d, nombre, otros, n);
    }
    InicioIgual(d, c, otros, |otros|);
    var e := Empaquetar(c, nombre, otros);
    forall n | n in d.archivos ensures e.archivos[n] == c.archivos[n] {
      var j := DondeQueda(d, nombre, otros, n);
      var k := DondeQueda(c, nombre, otros, n);
      InicioIgual(d, c, otros, j);
    }
  }

  lemma DosVecesBloques(d: Disco, c: Disco, nombre: string, otros: seq<string>)
    requires DatosCompletos(d) && SonOtros(d, nombre, otros) && c == Empaquetar(d, nombre, otros)
    requires Inicio(c, otros, |otros|) == Inicio(d, otros, |otros|)
    ensures Empaquetar(c, nombre, otros).bloques == c.bloques
  {
    hide Datos, Compactados, Reubicados, Inicio, CantidadDeBloques, Indice, Posicion;
    forall n | n in d.archivos
      ensures c.archivos[n].tamArchivo == d.archivos[n].tamArchivo && Datos(c, c.archivos[n]) == Datos(d, d.archivos[n])
    {
      EmpaquetarConserva(d, nombre, otros, n);
    }
    CompactadosIgual(d, c, otros, |otros|);
    CompactadosTam(d, otros, |otros|);
    DesdeSufijo(Compactados(d, otros, |otros|), Datos(d, d.archivos[nombre]),
                Desde(d.bloques, Posicion(Inicio(d, otros, |otros|), d.tamBloque) + d.archivos[nombre].tamArchivo));
  }

  /** Packing again in the same order moves nothing. */
  lemma EmpaquetarDosVeces(d: Disco, nombre: string, otros: seq<string>)
    requires DatosCompletos(d) && SonOtros(d, nombre, otros)
    ensures var c := Empaquetar(d, nombre, otros); Empaquetar(c, nombre, otros) == c
  {
    hide Datos, Compactados, Reubicados, Inicio, CantidadDeBloques, Posicion;
    var c := Empaquetar(d, nombre, otros);
    DosVecesArchivos(d, c, nombre, otros);
    DosVecesBloques(d, c, nombre, otros);
  }

  /** Compaction is idempotent: a second one with the same key order changes neither bytes, records nor bitmap. */
  lemma CompactarIdempotente(d: Disco, nombre: string, claves: seq<string>)
    requires Inv(d) && EsOrden(d, claves) && nombre in d.archivos
    ensures var c := Compactar(d, nombre, claves);
            EsOrden(c, claves) && Compactar(c, nombre, claves) == c
  {
    hide Empaquetar, Disjuntos, Posicion;
    QuitarSinRepetidos(claves, nombre);
    InvDatosCompletos(d);
    EmpaquetarDosVeces(d, nombre, Quitar(claves, nombre));
  }
}
