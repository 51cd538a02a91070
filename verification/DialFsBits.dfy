/** Which blocks each file operation marks and clears, and where files lie afterwards. */
module DialFsBits {
  import opened Comunes
  import opened DialFs
  import opened DialFsOps

  /** A created file is on the first free block, the only one that becomes marked. */
  lemma CrearBits(d: Disco, nombre: string)
    requires BloqueLibre(d.bitmap) >= 0
    ensures var r := Crear(d, nombre);
            && nombre in r.archivos
            && var i := r.archivos[nombre].bloqueInicial;
               && r.archivos == d.archivos[nombre := Archivo(i, 0)] && r.bloques == d.bloques
               && i < |d.bitmap| && !d.bitmap[i] && (forall j :: 0 <= j < i ==> d.bitmap[j])
               && |r.bitmap| == |d.bitmap| && forall j :: 0 <= j < |d.bitmap| ==> (r.bitmap[j] <==> d.bitmap[j] || j == i)
  {
  }

  /** A deletion clears exactly the blocks of the file, and none when it is empty. */
  lemma EliminarBits(d: Disco, nombre: string)
    requires d.tamBloque > 0 && nombre in d.archivos
    ensures var r := Eliminar(d, nombre);
            && r.archivos == d.archivos - {nombre} && r.bloques == d.bloques && |r.bitmap| == |d.bitmap|
            && forall j :: 0 <= j < |d.bitmap| ==>
                 (r.bitmap[j] <==> d.bitmap[j] && !(d.archivos[nombre].tamArchivo > 0 && EnExtension(d, nombre, j)))
  {
    SinBloquesSiiVacio(d.archivos[nombre].tamArchivo, d.tamBloque);
    hide CantidadDeBloques;
  }

  /** The first block that a shrink clears: to nothing, the first one after the file; to another size, the one after that. */
  function DesdeLiberado(r: Disco, nombre: string, tam: nat): nat
    requires r.tamBloque > 0 && nombre in r.archivos
  {
    if tam > 0 then Fin(r, nombre) + 1 else Fin(r, nombre)
  }

  /** A shrink leaves the file where it was with its new size, clears the blocks from there to the one right after the old end, this one
      included, and no other. */
  lemma AchicarBits(d: Disco, nombre: string, tam: nat, claves: seq<string>)
    requires d.tamBloque > 0 && EsOrden(d, claves) && Achica(d, nombre, tam)
    ensures var r := Truncar(d, nombre, tam, claves);
            && r.archivos == d.archivos[nombre := Archivo(d.archivos[nombre].bloqueInicial, tam)]
            && r.tamBloque == d.tamBloque && r.bloques == d.bloques && |r.bitmap| == |d.bitmap|
            && Fin(r, nombre) < Fin(d, nombre) + Uno(tam == 0)
            && forall i :: 0 <= i < |d.bitmap| ==> (r.bitmap[i] <==> d.bitmap[i] && !(DesdeLiberado(r, nombre, tam) <= i <= Fin(d, nombre)))
  {
    ExtensionAlAchicar(d, nombre, tam);
    hide CantidadDeBloques, Extension;
  }

  /** On an exact disk, shrinking to other than nothing with nobody right after the file loses exactly one block: the first one
      after its new end. */
  lemma AchicarPierdeUno(d: Disco, nombre: string, tam: nat, claves: seq<string>)
    requires Exacto(d) && EsOrden(d, claves) && Achica(d, nombre, tam) && tam > 0 && !Ocupado(d, Fin(d, nombre))
    ensures var r := Truncar(d, nombre, tam, claves);
            forall i :: 0 <= i < |r.bitmap| ==> (r.bitmap[i] && !Ocupado(r, i) <==> i == Fin(r, nombre))
  {
    var r := Truncar(d, nombre, tam, claves);
    AchicarBits(d, nombre, tam, claves);
    ExtensionAlAchicar(d, nombre, tam);
    EsSuyo(d, nombre, Fin(r, nombre));
    hide CantidadDeBloques, Extension, Exacto, Ocupado, EnExtension, Truncar;
    forall i | 0 <= i < |r.bitmap| ensures r.bitmap[i] && !Ocupado(r, i) <==> i == Fin(r, nombre) {
      ExactoBit(d, i);
      Duenios(d, r, nombre, i);
    }
  }

  lemma EsSuyo(d: Disco, nombre: string, i: int)
    requires d.tamBloque > 0 && nombre in d.archivos && d.archivos[nombre].bloqueInicial <= i < Fin(d, nombre)
    ensures Ocupado(d, i)
  {
    assert EnExtension(d, nombre, i);
  }

  lemma ExactoBit(d: Disco, i: int)
    requires Exacto(d) && 0 <= i < |d.bitmap|
    ensures Inv(d) && (d.bitmap[i] <==> Ocupado(d, i))
  {
    hide Extension, Disjuntos;
  }

  /** Whoever owned a block still does, unless it is one that the file has given up. */
  lemma Duenios(d: Disco, r: Disco, nombre: string, i: int)
    requires Inv(d) && nombre in d.archivos && r.tamBloque == d.tamBloque && r.archivos.Keys == d.archivos.Keys
    requires forall n :: n in d.archivos && n != nombre ==> r.archivos[n] == d.archivos[n]
    requires r.archivos[nombre].bloqueInicial == d.archivos[nombre].bloqueInicial && Fin(r, nombre) <= Fin(d, nombre)
    ensures Ocupado(r, i) <==> Ocupado(d, i) && !(Fin(r, nombre) <= i < Fin(d, nombre))
  {
    hide Extension;
    assert forall n :: EnExtension(r, n, i) <==> EnExtension(d, n, i) && !(n == nombre && i >= Fin(r, nombre));
    if Fin(r, nombre) <= i < Fin(d, nombre) {
      assert EnExtension(d, nombre, i);
      forall n ensures !EnExtension(r, n, i) {
        if EnExtension(r, n, i) {
          UnDuenio(d, n, nombre, i);
        }
      }
    }
  }

  /** After a shrink the only owned block that may be unmarked is the one right after the old end, and it is so exactly when it
      was somebody's. */
  lemma AchicarDesmarcaUno(d: Disco, nombre: string, tam: nat, claves: seq<string>)
    requires Inv(d) && EsOrden(d, claves) && Achica(d, nombre, tam)
    ensures var r := Truncar(d, nombre, tam, claves);
            forall i :: 0 <= i < |r.bitmap| ==> (Ocupado(r, i) && !r.bitmap[i] <==> i == Fin(d, nombre) && Ocupado(d, i))
  {
    var r := Truncar(d, nombre, tam, claves);
    AchicarBits(d, nombre, tam, claves);
    ExtensionAlAchicar(d, nombre, tam);
    hide CantidadDeBloques, Extension, Disjuntos, Truncar;
    forall i | 0 <= i < |r.bitmap| ensures Ocupado(r, i) && !r.bitmap[i] <==> i == Fin(d, nombre) && Ocupado(d, i) {
      Duenios(d, r, nombre, i);
      if Ocupado(d, i) {
        var n :| EnExtension(d, n, i);
        assert d.bitmap[i];
      }
    }
  }

  /** A compaction leaves the files one after another from block 0 in the order of the dictionary, the one being grown last. */
  lemma CompactarLugares(d: Disco, nombre: string, claves: seq<string>)
    requires d.tamBloque > 0 && EsOrden(d, claves) && nombre in d.archivos
    ensures Lugares(Compactar(d, nombre, claves), nombre, Quitar(claves, nombre))
  {
    QuitarSinRepetidos(claves, nombre);
    hide Quitar;
    EmpaquetarLugares(d, nombre, Quitar(claves, nombre));
  }

  ghost predicate Lugares(c: Disco, nombre: string, otros: seq<string>) {
    && c.tamBloque > 0 && nombre in c.archivos && Registrados(c, otros)
    && (forall j :: 0 <= j < |otros| ==> c.archivos[otros[j]].bloqueInicial == if j == 0 then 0 else Fin(c, otros[j - 1]))
    && c.archivos[nombre].bloqueInicial == if otros == [] then 0 else Fin(c, otros[|otros| - 1])
  }

  lemma EmpaquetarLugares(d: Disco, nombre: string, otros: seq<string>)
    requires d.tamBloque > 0 && SonOtros(d, nombre, otros)
    ensures Lugares(Empaquetar(d, nombre, otros), nombre, otros)
  {
    hide Extension, Empaquetar, Inicio, Fin, SinRepetidos;
    var c := Empaquetar(d, nombre, otros);
    forall j | 0 <= j < |otros|
      ensures otros[j] in c.archivos && c.archivos[otros[j]].bloqueInicial == Inicio(d, otros, j) && Fin(c, otros[j]) == Inicio(d, otros, j + 1)
    {
      UnLugar(d, nombre, otros, j);
    }
    var k := DondeQueda(d, nombre, otros, nombre);
    DesdeCero(d, otros);
  }

  lemma DesdeCero(d: Disco, otros: seq<string>)
    requires d.tamBloque > 0 && Registrados(d, otros)
    ensures Inicio(d, otros, 0) == 0
  {
  }

  lemma UnLugar(d: Disco, nombre: string, otros: seq<string>, j: nat)
    requires d.tamBloque > 0 && SonOtros(d, nombre, otros) && j < |otros|
    ensures otros[j] in d.archivos
    ensures var c := Empaquetar(d, nombre, otros);
            c.archivos[otros[j]].bloqueInicial == Inicio(d, otros, j) && Fin(c, otros[j]) == Inicio(d, otros, j + 1)
  {
    var k := DondeQueda(d, nombre, otros, otros[j]);
    assert k == j;
    UnInicioMas(d, otros, j);
    hide Extension, Empaquetar, Inicio;
  }

  lemma UnInicioMas(d: Disco, otros: seq<string>, j: nat)
    requires d.tamBloque > 0 && Registrados(d, otros) && j < |otros|
    ensures Inicio(d, otros, j + 1) == Inicio(d, otros, j) + Extension(d.archivos[otros[j]].tamArchivo, d.tamBloque)
  {
    hide Extension;
  }
}
