/** The file operations of DialFS on values, when each keeps the bitmap right, and runs of them. */
module DialFsOps {
  import opened Comunes
  import opened DialFs

  // ---------------------------------------------------------------- operations

  /** `crearArchivo` takes the first free block for a file of size 0, replacing any file of that name. */
  function Crear(d: Disco, nombre: string): Disco
    requires BloqueLibre(d.bitmap) >= 0
  {
    var i := BloqueLibre(d.bitmap);
    d.(bitmap := Marcar(d.bitmap, i, i + 1, true), archivos := d.archivos[nombre := Archivo(i, 0)])
  }

  /** `eliminarArchivo` clears as many bits as the size needs and forgets the record. */
  function Eliminar(d: Disco, nombre: string): Disco
    requires d.tamBloque > 0
  {
    if nombre !in d.archivos then d
    else
      var a := d.archivos[nombre];
      d.(bitmap := Marcar(d.bitmap, a.bloqueInicial, a.bloqueInicial + CantidadDeBloques(a.tamArchivo, d.tamBloque), false),
         archivos := d.archivos - {nombre})
  }

  predicate Crece(d: Disco, nombre: string, tam: nat)
    requires d.tamBloque > 0
  {
    nombre in d.archivos && CantidadDeBloques(tam, d.tamBloque) > CantidadDeBloques(d.archivos[nombre].tamArchivo, d.tamBloque)
  }

  predicate Achica(d: Disco, nombre: string, tam: nat)
    requires d.tamBloque > 0
  {
    nombre in d.archivos && CantidadDeBloques(tam, d.tamBloque) < CantidadDeBloques(d.archivos[nombre].tamArchivo, d.tamBloque)
  }

  /** The file gets the blocks from its current count up to what `tam` needs. */
  function Asignar(d: Disco, nombre: string, tam: nat): Disco
    requires d.tamBloque > 0 && nombre in d.archivos
  {
    var a := d.archivos[nombre];
    d.(bitmap := Marcar(d.bitmap, a.bloqueInicial + CantidadDeBloques(a.tamArchivo, d.tamBloque),
                        a.bloqueInicial + CantidadDeBloques(tam, d.tamBloque), true),
       archivos := d.archivos[nombre := a.(tamArchivo := tam)])
  }

  /** The shrinking loop clears one block too high: it keeps the first block to release and
      clears the first block after the file. */
  function Liberar(d: Disco, nombre: string, tam: nat): Disco
    requires d.tamBloque > 0 && nombre in d.archivos
  {
    var a := d.archivos[nombre];
    d.(bitmap := Marcar(d.bitmap, a.bloqueInicial + CantidadDeBloques(tam, d.tamBloque) + 1,
                        a.bloqueInicial + CantidadDeBloques(a.tamArchivo, d.tamBloque) + 1, false),
       archivos := d.archivos[nombre := a.(tamArchivo := tam)])
  }

  /** `truncarArchivo`, with the dictionary's key order for the compaction it may need. */
  function Truncar(d: Disco, nombre: string, tam: nat, claves: seq<string>): Disco
    requires d.tamBloque > 0 && EsOrden(d, claves)
  {
    if Crece(d, nombre, tam) then
      var contiguos := EstanContiguos(d.bitmap, d.archivos[nombre].bloqueInicial, CantidadDeBloques(tam, d.tamBloque));
      Asignar(if contiguos then d else Compactar(d, nombre, claves), nombre, tam)
    else if Achica(d, nombre, tam) then Liberar(d, nombre, tam)
    else d
  }

  /** The copy of `io_fs_write`: `datos` over the bytes from `pos` on of the file. */
  function Escribir(d: Disco, nombre: string, pos: nat, datos: seq<byte>): Disco
    requires nombre in d.archivos
    requires Posicion(d.archivos[nombre].bloqueInicial, d.tamBloque) + pos + |datos| <= |d.bloques|
  {
    d.(bloques := Pegar(d.bloques, Posicion(d.archivos[nombre].bloqueInicial, d.tamBloque) + pos, datos))
  }

  /** The copy of `io_fs_read`. */
  function Leer(d: Disco, nombre: string, pos: nat, tam: nat): seq<byte>
    requires nombre in d.archivos
  {
    Tramo(d.bloques, Posicion(d.archivos[nombre].bloqueInicial, d.tamBloque) + pos, tam)
  }

  // ---------------------------------------------------------------- create and delete

  lemma LibreNoEsDeNadie(d: Disco, i: int)
    requires Inv(d) && 0 <= i < |d.bitmap| && !d.bitmap[i]
    ensures !Ocupado(d, i)
    ensures forall n :: n in d.archivos ==> Fin(d, n) <= i || i + 1 <= d.archivos[n].bloqueInicial
  {
    hide Extension, Disjuntos, Posicion;
    forall n | n in d.archivos ensures Fin(d, n) <= i || i + 1 <= d.archivos[n].bloqueInicial {
      assert !EnExtension(d, n, i);
    }
  }

  /** Creating keeps the invariant. */
  lemma CrearInv(d: Disco, nombre: string)
    requires Inv(d) && BloqueLibre(d.bitmap) >= 0
    ensures Inv(Crear(d, nombre))
  {
    hide CantidadDeBloques, Posicion;
    var r := Crear(d, nombre);
    var i := BloqueLibre(d.bitmap);
    LibreNoEsDeNadie(d, i);
    SinBloquesSiiVacio(0, d.tamBloque);
    forall n, k | EnExtension(r, n, k) ensures 0 <= k < |r.bitmap| && r.bitmap[k] {
      assert n != nombre ==> EnExtension(d, n, k);
    }
  }

  /** Creating makes an empty file of that name and changes no other file. */
  lemma CrearContenidos(d: Disco, nombre: string)
    requires BloqueLibre(d.bitmap) >= 0
    ensures Contenidos(Crear(d, nombre)) == Contenidos(d)[nombre := []]
  {
  }

  /** The bitmap stays exact when creating if and only if the name was not in use: otherwise the
      blocks of the replaced file are leaked. */
  lemma CrearExactoSii(d: Disco, nombre: string)
    requires Exacto(d) && BloqueLibre(d.bitmap) >= 0
    ensures Exacto(Crear(d, nombre)) <==> nombre !in d.archivos
  {
    hide CantidadDeBloques, Disjuntos, Posicion;
    CrearInv(d, nombre);
    var r := Crear(d, nombre);
    var libre := BloqueLibre(d.bitmap);
    SinBloquesSiiVacio(0, d.tamBloque);
    if nombre in d.archivos {
      var i := d.archivos[nombre].bloqueInicial;
      assert EnExtension(d, nombre, i);
      forall n ensures !EnExtension(r, n, i) {
        if n != nombre && EnExtension(r, n, i) {
          assert EnExtension(d, n, i);
          UnDuenio(d, n, nombre, i);
        }
      }
      assert r.bitmap[i];
    } else {
      forall k | 0 <= k < |r.bitmap| && r.bitmap[k] ensures Ocupado(r, k) {
        if k == libre {
          assert EnExtension(r, nombre, k);
        } else {
          var n :| EnExtension(d, n, k);
          assert EnExtension(r, n, k);
        }
      }
    }
  }

  lemma UnDuenio(d: Disco, n: string, m: string, i: int)
    requires d.tamBloque > 0 && Disjuntos(d) && EnExtension(d, n, i) && EnExtension(d, m, i)
    ensures n == m
  {
  }

  lemma EliminarBit(d: Disco, nombre: string, n: string, k: int)
    requires Inv(d) && EnExtension(Eliminar(d, nombre), n, k)
    ensures 0 <= k < |d.bitmap| && Eliminar(d, nombre).bitmap[k]
  {
    hide CantidadDeBloques, Disjuntos, Posicion;
    assert EnExtension(d, n, k);
    if nombre in d.archivos && EnExtension(d, nombre, k) {
      UnDuenio(d, n, nombre, k);
    }
  }

  /** Fewer or shorter extents at the same places are still disjoint. */
  lemma DisjuntosAlRecortar(d: Disco, r: Disco)
    requires r.tamBloque == d.tamBloque > 0 && Disjuntos(d)
    requires forall n :: n in r.archivos ==>
      n in d.archivos && r.archivos[n].bloqueInicial == d.archivos[n].bloqueInicial && Fin(r, n) <= Fin(d, n)
    ensures Disjuntos(r)
  {
    hide Extension, Posicion;
  }

  /** Deleting keeps the invariant. */
  lemma EliminarInv(d: Disco, nombre: string)
    requires Inv(d)
    ensures Inv(Eliminar(d, nombre))
  {
    hide CantidadDeBloques, Disjuntos, Posicion;
    var r := Eliminar(d, nombre);
    DisjuntosAlRecortar(d, r);
    forall n, k | EnExtension(r, n, k) ensures 0 <= k < |r.bitmap| && r.bitmap[k] {
      EliminarBit(d, nombre, n, k);
    }
  }

  /** Deleting removes that file alone. */
  lemma EliminarContenidos(d: Disco, nombre: string)
    requires d.tamBloque > 0
    ensures Contenidos(Eliminar(d, nombre)) == Contenidos(d) - {nombre}
  {
    hide CantidadDeBloques, Posicion;
  }

  /** The bitmap stays exact when deleting if and only if the file is not an empty one: the block
      reserved at creation is never given back. */
  lemma EliminarExactoSii(d: Disco, nombre: string)
    requires Exacto(d)
    ensures Exacto(Eliminar(d, nombre)) <==> (nombre in d.archivos ==> d.archivos[nombre].tamArchivo > 0)
  {
    hide CantidadDeBloques, Disjuntos, Posicion;
    EliminarInv(d, nombre);
    var r := Eliminar(d, nombre);
    if nombre in d.archivos {
      var a := d.archivos[nombre];
      SinBloquesSiiVacio(a.tamArchivo, d.tamBloque);
      if a.tamArchivo == 0 {
        var i := a.bloqueInicial;
        assert EnExtension(d, nombre, i);
        forall n ensures !EnExtension(r, n, i) {
          if EnExtension(r, n, i) {
            assert EnExtension(d, n, i);
            UnDuenio(d, n, nombre, i);
          }
        }
        assert r.bitmap[i];
      } else {
        forall k | 0 <= k < |r.bitmap| && r.bitmap[k] ensures Ocupado(r, k) {
          var n :| EnExtension(d, n, k);
          assert EnExtension(r, n, k);
        }
      }
    }
  }

  // ---------------------------------------------------------------- truncate

  /** Growing always compacts: the contiguity test starts at the file's own first block, which is in use. */
  lemma NuncaContiguos(d: Disco, nombre: string, n: nat)
    requires Inv(d) && nombre in d.archivos && n > 0
    ensures !EstanContiguos(d.bitmap, d.archivos[nombre].bloqueInicial, n)
  {
    assert EnExtension(d, nombre, d.archivos[nombre].bloqueInicial);
  }

  lemma ExtensionAmpliada(d: Disco, nombre: string, tam: nat)
    requires d.tamBloque > 0 && Crece(d, nombre, tam)
    ensures Extension(tam, d.tamBloque) == CantidadDeBloques(tam, d.tamBloque) >= 1
  {
  }

  /** The disk after growing `nombre` to `tam`, the other files being `otros` in dictionary order. */
  function Ampliado(d: Disco, nombre: string, otros: seq<string>, tam: nat): (r: Disco)
    requires d.tamBloque > 0 && SonOtros(d, nombre, otros)
  {
    Asignar(Empaquetar(d, nombre, otros), nombre, tam)
  }

  /** After growing, exactly the first blocks of the disk are marked. */
  lemma BitsAmpliados(d: Disco, nombre: string, otros: seq<string>, tam: nat, i: int)
    requires d.tamBloque > 0 && SonOtros(d, nombre, otros) && Crece(d, nombre, tam) && 0 <= i < |d.bitmap|
    ensures Ampliado(d, nombre, otros, tam).bitmap[i] <==> i < Inicio(d, otros, |otros|) + CantidadDeBloques(tam, d.tamBloque)
    ensures Ampliado(d, nombre, otros, tam).archivos[nombre] == Archivo(Inicio(d, otros, |otros|), tam)
  {
    hide Empaquetar, Inicio, CantidadDeBloques, Posicion;
    var j := DondeQueda(d, nombre, otros, nombre);
    BitsEmpaquetados(d, nombre, otros, i);
  }

  /** After growing, the file owns the blocks right after the packed others, whose extents are unchanged. */
  lemma AmpliadoExtensiones(d: Disco, nombre: string, otros: seq<string>, tam: nat, n: string, i: int)
    requires Inv(d) && SonOtros(d, nombre, otros) && Crece(d, nombre, tam)
    ensures EnExtension(Ampliado(d, nombre, otros, tam), n, i) <==>
            if n == nombre then Inicio(d, otros, |otros|) <= i < Inicio(d, otros, |otros|) + CantidadDeBloques(tam, d.tamBloque)
            else EnExtension(Empaquetar(d, nombre, otros), n, i)
  {
    hide Empaquetar, Inicio, CantidadDeBloques, Extension, Posicion;
    ExtensionAmpliada(d, nombre, tam);
    var j := DondeQueda(d, nombre, otros, nombre);
  }

  lemma AmpliadoDisjuntos(d: Disco, nombre: string, otros: seq<string>, tam: nat)
    requires Inv(d) && SonOtros(d, nombre, otros) && Crece(d, nombre, tam)
    requires Inicio(d, otros, |otros|) + CantidadDeBloques(tam, d.tamBloque) <= |d.bitmap|
    ensures Disjuntos(Ampliado(d, nombre, otros, tam))
    ensures forall n :: n in d.archivos ==> Fin(Ampliado(d, nombre, otros, tam), n) <= |d.bitmap|
  {
    hide Empaquetar, Inicio, CantidadDeBloques, Extension, Posicion, EnExtension;
    var c := Empaquetar(d, nombre, otros);
    EmpaquetarDisjuntos(d, nombre, otros);
    ExtensionAmpliada(d, nombre, tam);
    var j := DondeQueda(d, nombre, otros, nombre);
    forall n | n in d.archivos && n != nombre ensures Fin(c, n) <= Inicio(d, otros, |otros|) {
      var k := DondeQueda(d, nombre, otros, n);
      InicioCrece(d, otros, k, |otros|);
    }
    AlargarElUltimo(c, Asignar(c, nombre, tam), nombre);
  }

  /** Lengthening the file that lies after all the others keeps extents disjoint. */
  lemma AlargarElUltimo(c: Disco, r: Disco, nombre: string)
    requires r.tamBloque == c.tamBloque > 0 && nombre in c.archivos && Disjuntos(c)
    requires forall n :: n in c.archivos && n != nombre ==> Fin(c, n) <= c.archivos[nombre].bloqueInicial
    requires nombre in r.archivos && r.archivos == c.archivos[nombre := r.archivos[nombre]]
    requires r.archivos[nombre].bloqueInicial == c.archivos[nombre].bloqueInicial
    ensures Disjuntos(r)
    ensures forall n :: n in c.archivos && n != nombre ==> Fin(r, n) == Fin(c, n)
  {
    hide Extension;
  }

  lemma AmpliadoExacto(d: Disco, nombre: string, otros: seq<string>, tam: nat)
    requires Inv(d) && SonOtros(d, nombre, otros) && Crece(d, nombre, tam)
    requires Inicio(d, otros, |otros|) + CantidadDeBloques(tam, d.tamBloque) <= |d.bitmap|
    ensures Exacto(Ampliado(d, nombre, otros, tam))
  {
    hide Empaquetar, Inicio, CantidadDeBloques, Extension, EnExtension, Disjuntos, Posicion;
    var c := Empaquetar(d, nombre, otros);
    var r := Ampliado(d, nombre, otros, tam);
    EmpaquetarForma(d, nombre, otros);
    AmpliadoDisjuntos(d, nombre, otros, tam);
    forall n, i | EnExtension(r, n, i) ensures 0 <= i < |r.bitmap| && r.bitmap[i] {
      AmpliadoExtensiones(d, nombre, otros, tam, n, i);
      EmpaquetarSinHuecos(d, nombre, otros, i);
      BitsAmpliados(d, nombre, otros, tam, i);
    }
    forall i | 0 <= i < |r.bitmap| && r.bitmap[i] ensures Ocupado(r, i) {
      BitsAmpliados(d, nombre, otros, tam, i);
      EmpaquetarSinHuecos(d, nombre, otros, i);
      if i < Inicio(d, otros, |otros|) {
        var n :| n != nombre && EnExtension(c, n, i);
        AmpliadoExtensiones(d, nombre, otros, tam, n, i);
      } else {
        AmpliadoExtensiones(d, nombre, otros, tam, nombre, i);
      }
    }
  }

  /** Growing keeps the old bytes as the file's first ones and every byte of every other file. */
  lemma AmpliadoContenidos(d: Disco, nombre: string, otros: seq<string>, tam: nat, n: string)
    requires Inv(d) && SonOtros(d, nombre, otros) && Crece(d, nombre, tam) && n in d.archivos
    requires Exacto(Ampliado(d, nombre, otros, tam))
    ensures var r := Ampliado(d, nombre, otros, tam);
            && n in r.archivos
            && (n != nombre ==> Datos(r, r.archivos[n]) == Datos(d, d.archivos[n]))
            && (n == nombre ==> |Datos(r, r.archivos[n])| == tam && Datos(d, d.archivos[n]) <= Datos(r, r.archivos[n]))
  {
    hide Empaquetar, Extension, Disjuntos, EnExtension, Posicion;
    var c := Empaquetar(d, nombre, otros);
    var r := Ampliado(d, nombre, otros, tam);
    InvDatosCompletos(d);
    EmpaquetarConserva(d, nombre, otros, n);
    if n == nombre {
      InvDatosCompletos(r);
      TamCreceConBloques(d.archivos[nombre].tamArchivo, tam, d.tamBloque);
      EmpaquetarForma(d, nombre, otros);
    }
  }

  lemma TamCreceConBloques(t: nat, u: nat, tamBloque: nat)
    requires tamBloque > 0 && CantidadDeBloques(t, tamBloque) < CantidadDeBloques(u, tamBloque)
    ensures t < u
  {
    hide CantidadDeBloques;
    CantidadEsTecho(t, tamBloque);
    CantidadEsTecho(u, tamBloque);
    var a, b := CantidadDeBloques(t, tamBloque), CantidadDeBloques(u, tamBloque);
    PosicionMonotona(a + 1, b, tamBloque);
    PosicionSuma(a, 1, tamBloque);
  }

  /** What growing promises: the bitmap comes out exact whatever had been leaked before, the marked
      blocks are gap-free from block 0, the file has the new size and starts with its old bytes, and
      every other file keeps its contents. */
  lemma TruncarCrece(d: Disco, nombre: string, tam: nat, claves: seq<string>)
    requires Inv(d) && EsOrden(d, claves) && Crece(d, nombre, tam)
    requires HayLugar(d, nombre, claves, CantidadDeBloques(tam, d.tamBloque))
    ensures var r := Truncar(d, nombre, tam, claves);
            && Exacto(r)
            && (forall i, j :: 0 <= i < j < |r.bitmap| && r.bitmap[j] ==> r.bitmap[i])
            && Contenidos(r).Keys == Contenidos(d).Keys
            && (forall n :: n in d.archivos && n != nombre ==> Contenidos(r)[n] == Contenidos(d)[n])
            && |Contenidos(r)[nombre]| == tam && Contenidos(d)[nombre] <= Contenidos(r)[nombre]
  {
    hide CantidadDeBloques, Inicio, Empaquetar, Asignar, Datos, EnExtension, Disjuntos, Posicion;
    NuncaContiguos(d, nombre, CantidadDeBloques(tam, d.tamBloque));
    QuitarSinRepetidos(claves, nombre);
    var otros := Quitar(claves, nombre);
    AmpliadoExacto(d, nombre, otros, tam);
    var r := Ampliado(d, nombre, otros, tam);
    assert r == Truncar(d, nombre, tam, claves);
    assert r.archivos.Keys == d.archivos.Keys by { AsignarForma(Empaquetar(d, nombre, otros), nombre, tam); }
    forall n | n in d.archivos
      ensures n != nombre ==> Contenidos(r)[n] == Contenidos(d)[n]
      ensures n == nombre ==> |Contenidos(r)[n]| == tam && Contenidos(d)[n] <= Contenidos(r)[n]
    {
      AmpliadoContenidos(d, nombre, otros, tam, n);
    }
    forall i, j | 0 <= i < j < |r.bitmap| && r.bitmap[j] ensures r.bitmap[i] {
      AsignarForma(Empaquetar(d, nombre, otros), nombre, tam);
      BitsAmpliados(d, nombre, otros, tam, i);
      BitsAmpliados(d, nombre, otros, tam, j);
    }
  }

  lemma AsignarForma(d: Disco, nombre: string, tam: nat)
    requires d.tamBloque > 0 && nombre in d.archivos
    ensures Asignar(d, nombre, tam).archivos.Keys == d.archivos.Keys
    ensures |Asignar(d, nombre, tam).bitmap| == |d.bitmap|
  {
  }

  lemma ExtensionAlAchicar(d: Disco, nombre: string, tam: nat)
    requires d.tamBloque > 0 && Achica(d, nombre, tam)
    ensures Fin(d, nombre) == d.archivos[nombre].bloqueInicial + CantidadDeBloques(d.archivos[nombre].tamArchivo, d.tamBloque)
    ensures Extension(tam, d.tamBloque) <= CantidadDeBloques(tam, d.tamBloque) + 1
    ensures Extension(tam, d.tamBloque) <= CantidadDeBloques(d.archivos[nombre].tamArchivo, d.tamBloque)
    ensures tam > 0 ==> Extension(tam, d.tamBloque) == CantidadDeBloques(tam, d.tamBloque)
    ensures tam == 0 ==> CantidadDeBloques(tam, d.tamBloque) == 0 && Extension(tam, d.tamBloque) == 1
    ensures tam < d.archivos[nombre].tamArchivo
  {
    SinBloquesSiiVacio(tam, d.tamBloque);
    TamCreceConBloques(tam, d.archivos[nombre].tamArchivo, d.tamBloque);
  }

  lemma LiberarInv(d: Disco, nombre: string, tam: nat)
    requires Inv(d) && Achica(d, nombre, tam) && !Ocupado(d, Fin(d, nombre))
    ensures Inv(Liberar(d, nombre, tam))
  {
    hide CantidadDeBloques, Extension, Disjuntos, Posicion;
    var r := Liberar(d, nombre, tam);
    ExtensionAlAchicar(d, nombre, tam);
    DisjuntosAlRecortar(d, r);
    forall n, k | EnExtension(r, n, k) ensures 0 <= k < |r.bitmap| && r.bitmap[k] {
      LiberarBit(d, nombre, tam, n, k);
    }
  }

  lemma LiberarBit(d: Disco, nombre: string, tam: nat, n: string, k: int)
    requires Inv(d) && Achica(d, nombre, tam) && !Ocupado(d, Fin(d, nombre))
    requires EnExtension(Liberar(d, nombre, tam), n, k)
    ensures 0 <= k < |d.bitmap| && Liberar(d, nombre, tam).bitmap[k]
  {
    hide CantidadDeBloques, Extension, Disjuntos, Posicion;
    ExtensionAlAchicar(d, nombre, tam);
    assert EnExtension(d, n, k);
    if n != nombre && EnExtension(d, nombre, k) {
      UnDuenio(d, n, nombre, k);
    }
  }

  /** Shrinking keeps the invariant if and only if the block right after the file is nobody's:
      that is the block the loop clears by mistake. */
  lemma AchicarInvSii(d: Disco, nombre: string, tam: nat, claves: seq<string>)
    requires Inv(d) && EsOrden(d, claves) && Achica(d, nombre, tam)
    ensures Inv(Truncar(d, nombre, tam, claves)) <==> !Ocupado(d, Fin(d, nombre))
  {
    hide CantidadDeBloques, Extension, Disjuntos, Posicion;
    var r := Liberar(d, nombre, tam);
    var fin := Fin(d, nombre);
    if Ocupado(d, fin) {
      var n :| EnExtension(d, n, fin);
      ExtensionAlAchicar(d, nombre, tam);
      assert EnExtension(r, n, fin) && !r.bitmap[fin];
    } else {
      LiberarInv(d, nombre, tam);
    }
  }

  /** Shrinking keeps the bitmap exact if and only if the new size is 0 and the block right after the
      file is nobody's. Any other size leaks the first block given up. */
  lemma AchicarExactoSii(d: Disco, nombre: string, tam: nat, claves: seq<string>)
    requires Exacto(d) && EsOrden(d, claves) && Achica(d, nombre, tam)
    ensures Exacto(Truncar(d, nombre, tam, claves)) <==> tam == 0 && !Ocupado(d, Fin(d, nombre))
  {
    hide CantidadDeBloques, Extension, Disjuntos, Posicion;
    AchicarInvSii(d, nombre, tam, claves);
    var r := Liberar(d, nombre, tam);
    ExtensionAlAchicar(d, nombre, tam);
    var perdido := d.archivos[nombre].bloqueInicial + CantidadDeBloques(tam, d.tamBloque);
    if tam > 0 {
      assert EnExtension(d, nombre, perdido) && r.bitmap[perdido];
      forall n ensures !EnExtension(r, n, perdido) {
        if n != nombre && EnExtension(r, n, perdido) {
          assert EnExtension(d, n, perdido);
          UnDuenio(d, n, nombre, perdido);
        }
      }
    } else {
      forall k | 0 <= k < |r.bitmap| && r.bitmap[k] ensures Ocupado(r, k) {
        var n :| EnExtension(d, n, k);
        assert EnExtension(r, n, k);
      }
    }
  }

  /** Shrinking cuts the file to its first `tam` bytes and changes no other file's contents. */
  lemma AchicarContenidos(d: Disco, nombre: string, tam: nat, claves: seq<string>)
    requires Inv(d) && EsOrden(d, claves) && Achica(d, nombre, tam)
    ensures tam < d.archivos[nombre].tamArchivo == |Contenidos(d)[nombre]|
    ensures Contenidos(Truncar(d, nombre, tam, claves)) == Contenidos(d)[nombre := Contenidos(d)[nombre][..tam]]
  {
    hide CantidadDeBloques, Disjuntos, EnExtension, Posicion;
    TamCreceConBloques(tam, d.archivos[nombre].tamArchivo, d.tamBloque);
    DatosEnRango(d, nombre);
    var a := d.archivos[nombre];
    TramoMasCorto(d.bloques, Posicion(a.bloqueInicial, d.tamBloque), a.tamArchivo, tam);
    var r := Liberar(d, nombre, tam);
    forall n | n in d.archivos
      ensures Contenidos(r)[n] == if n == nombre then Contenidos(d)[nombre][..tam] else Contenidos(d)[n]
    {
      hide Tramo, Posicion;
    }
  }

  // ---------------------------------------------------------------- read and write

  /** A read inside the file returns those bytes of its contents. */
  lemma LeerContenido(d: Disco, nombre: string, pos: nat, tam: nat)
    requires Inv(d) && nombre in d.archivos && pos + tam <= d.archivos[nombre].tamArchivo
    ensures pos + tam <= |Contenidos(d)[nombre]|
    ensures Leer(d, nombre, pos, tam) == Contenidos(d)[nombre][pos..pos + tam]
  {
    DatosEnRango(d, nombre);
    TramoDeTramo(d.bloques, Posicion(d.archivos[nombre].bloqueInicial, d.tamBloque), d.archivos[nombre].tamArchivo, pos, tam);
  }

  /** A write inside a file's own blocks reaches no other file's bytes, even past the file's size. */
  lemma EscribirAjeno(d: Disco, nombre: string, pos: nat, datos: seq<byte>, n: string)
    requires Inv(d) && nombre in d.archivos && n in d.archivos && n != nombre
    requires pos + |datos| <= Posicion(Extension(d.archivos[nombre].tamArchivo, d.tamBloque), d.tamBloque)
    ensures Posicion(d.archivos[nombre].bloqueInicial, d.tamBloque) + pos + |datos| <= |d.bloques|
    ensures Contenidos(Escribir(d, nombre, pos, datos))[n] == Contenidos(d)[n]
  {
    hide CantidadDeBloques, Extension, EnExtension, Datos, Tramo, Posicion;
    var a, b := d.archivos[nombre], d.archivos[n];
    var ext := Extension(a.tamArchivo, d.tamBloque);
    PosicionSuma(a.bloqueInicial, ext, d.tamBloque);
    DatosEnRango(d, nombre);
    DatosEnRango(d, n);
    if Fin(d, nombre) <= b.bloqueInicial {
      PosicionMonotona(Fin(d, nombre), b.bloqueInicial, d.tamBloque);
    } else {
      PosicionMonotona(Fin(d, n), a.bloqueInicial, d.tamBloque);
    }
    EscribirFuera(d, nombre, pos, datos, b);
  }

  lemma EscribirFuera(d: Disco, nombre: string, pos: nat, datos: seq<byte>, b: Archivo)
    requires nombre in d.archivos
    requires Posicion(d.archivos[nombre].bloqueInicial, d.tamBloque) + pos + |datos| <= |d.bloques|
    requires Posicion(b.bloqueInicial, d.tamBloque) + b.tamArchivo <= |d.bloques|
    requires var i := Posicion(d.archivos[nombre].bloqueInicial, d.tamBloque) + pos;
             Posicion(b.bloqueInicial, d.tamBloque) + b.tamArchivo <= i || i + |datos| <= Posicion(b.bloqueInicial, d.tamBloque)
    ensures Datos(Escribir(d, nombre, pos, datos), b) == Datos(d, b)
  {
    TramoDePegar(d.bloques, Posicion(d.archivos[nombre].bloqueInicial, d.tamBloque) + pos, datos, Posicion(b.bloqueInicial, d.tamBloque), b.tamArchivo);
  }

  /** A write inside the file replaces exactly those bytes of it, and no other file changes. */
  lemma EscribirContenidos(d: Disco, nombre: string, pos: nat, datos: seq<byte>)
    requires Inv(d) && nombre in d.archivos && pos + |datos| <= d.archivos[nombre].tamArchivo
    ensures Posicion(d.archivos[nombre].bloqueInicial, d.tamBloque) + pos + |datos| <= |d.bloques|
    ensures d.archivos[nombre].tamArchivo == |Contenidos(d)[nombre]|
    ensures Inv(Escribir(d, nombre, pos, datos))
    ensures Contenidos(Escribir(d, nombre, pos, datos)) == Contenidos(d)[nombre := Pegar(Contenidos(d)[nombre], pos, datos)]
  {
    hide CantidadDeBloques, Extension, Disjuntos, Datos, Tramo, Posicion;
    DatosEnRango(d, nombre);
    CabeEnExtension(d.archivos[nombre].tamArchivo, d.tamBloque);
    var r := Escribir(d, nombre, pos, datos);
    EscribirInv(d, r);
    forall n | n in d.archivos
      ensures Contenidos(r)[n] == if n == nombre then Pegar(Contenidos(d)[nombre], pos, datos) else Contenidos(d)[n]
    {
      if n == nombre {
        EscribirPropio(d, nombre, pos, datos);
      } else {
        EscribirAjeno(d, nombre, pos, datos, n);
      }
    }
  }

  lemma EscribirInv(d: Disco, r: Disco)
    requires Inv(d) && |r.bloques| == |d.bloques| && r == d.(bloques := r.bloques)
    ensures Inv(r)
  {
    forall n, i | EnExtension(r, n, i) ensures 0 <= i < |r.bitmap| && r.bitmap[i] {
      assert EnExtension(d, n, i);
    }
  }

  lemma EscribirPropio(d: Disco, nombre: string, pos: nat, datos: seq<byte>)
    requires nombre in d.archivos && pos + |datos| <= d.archivos[nombre].tamArchivo
    requires Posicion(d.archivos[nombre].bloqueInicial, d.tamBloque) + d.archivos[nombre].tamArchivo <= |d.bloques|
    ensures |Datos(d, d.archivos[nombre])| == d.archivos[nombre].tamArchivo
    ensures Datos(Escribir(d, nombre, pos, datos), d.archivos[nombre]) == Pegar(Datos(d, d.archivos[nombre]), pos, datos)
  {
    PegarEnTramo(d.bloques, Posicion(d.archivos[nombre].bloqueInicial, d.tamBloque), d.archivos[nombre].tamArchivo, pos, datos);
  }
}
