/** A disk with an exact bitmap and the calls that spoil it. */
module DialFsFallas {
  import opened Comunes
  import opened DialFs
  import opened DialFsOps

  /** Seven blocks of 4 bytes: "a" on blocks 0 and 1, "b" right after it, the empty "c", "d" on blocks 4 and 5, and a free one. */
  function Ejemplo(): Disco {
    Disco(4, [true, true, true, true, true, true, false], Ceros(28),
          map["a" := Archivo(0, 8), "b" := Archivo(2, 3), "c" := Archivo(3, 0), "d" := Archivo(4, 8)])
  }

  function Claves(): seq<string> {
    ["a", "b", "c", "d"]
  }

  lemma CuentasDeBloques()
    ensures Extension(8, 4) == CantidadDeBloques(8, 4) == 2 && Extension(3, 4) == CantidadDeBloques(3, 4) == 1
    ensures Extension(4, 4) == CantidadDeBloques(4, 4) == 1 && CantidadDeBloques(0, 4) == 0 && Extension(0, 4) == 1
  {
  }

  predicate EsDeEjemplo(n: string, i: int) {
    (n == "a" && 0 <= i < 2) || (n == "b" && i == 2) || (n == "c" && i == 3) || (n == "d" && 4 <= i < 6)
  }

  lemma EjemploExtension(n: string, i: int)
    ensures EnExtension(Ejemplo(), n, i) <==> EsDeEjemplo(n, i)
  {
    CuentasDeBloques();
    hide CantidadDeBloques, Extension;
  }

  lemma EjemploDisjuntos()
    ensures Disjuntos(Ejemplo()) && forall n :: n in Ejemplo().archivos ==> Fin(Ejemplo(), n) <= 6
  {
    CuentasDeBloques();
    hide CantidadDeBloques, Extension;
  }

  lemma EjemploForma()
    ensures Forma(Ejemplo()) && |Ejemplo().bitmap| == 7 && forall i :: 0 <= i < 7 ==> (Ejemplo().bitmap[i] <==> i < 6)
  {
    assert Posicion(7, 4) == 28;
  }

  lemma EjemploOrden()
    ensures EsOrden(Ejemplo(), Claves())
  {
  }

  lemma EjemploExacto()
    ensures Exacto(Ejemplo())
  {
    EjemploDisjuntos();
    EjemploForma();
    hide Ejemplo, Disjuntos, EnExtension, Fin, Forma;
    var d := Ejemplo();
    forall n, i ensures EnExtension(d, n, i) <==> EsDeEjemplo(n, i) {
      EjemploExtension(n, i);
    }
    forall i | 0 <= i < |d.bitmap| && d.bitmap[i] ensures Ocupado(d, i) {
      assert EsDeEjemplo(if i < 2 then "a" else if i == 2 then "b" else if i == 3 then "c" else "d", i);
    }
  }

  lemma NoInv(d: Disco, n: string, i: int)
    requires d.tamBloque > 0 && EnExtension(d, n, i) && 0 <= i < |d.bitmap| && !d.bitmap[i]
    ensures !Inv(d)
  {
  }

  /** Shrinking "a" to 4 bytes frees the block of "b". */
  lemma AchicarPisa()
    ensures Exacto(Ejemplo()) && EsOrden(Ejemplo(), Claves()) && Achica(Ejemplo(), "a", 4)
    ensures var r := Truncar(Ejemplo(), "a", 4, Claves());
            !Inv(r) && EnExtension(r, "b", 2) && BloqueLibre(r.bitmap) == 2
  {
    EjemploExacto();
    EjemploOrden();
    CuentasDeBloques();
    hide CantidadDeBloques, Extension, Exacto, EsOrden, Inv;
    var r := Liberar(Ejemplo(), "a", 4);
    assert r.bitmap == [true, true, false, true, true, true, false];
    assert EnExtension(r, "b", 2);
    NoInv(r, "b", 2);
  }

  /** The next file created then gets the block of "b". */
  lemma CrearSobreOtro()
    ensures var r := Truncar(Ejemplo(), "a", 4, Claves());
            && EsOrden(Ejemplo(), Claves()) && BloqueLibre(r.bitmap) >= 0
            && EnExtension(Crear(r, "e"), "e", 2) && EnExtension(Crear(r, "e"), "b", 2)
  {
    AchicarPisa();
    CuentasDeBloques();
    hide CantidadDeBloques, Extension, Exacto, EsOrden, Inv, Marcar;
  }

  /** Shrinking "d" to 4 bytes harms nobody, and leaves a block marked that nobody owns. */
  lemma AchicarPierde()
    ensures Exacto(Ejemplo()) && EsOrden(Ejemplo(), Claves()) && Achica(Ejemplo(), "d", 4)
    ensures var r := Truncar(Ejemplo(), "d", 4, Claves()); Inv(r) && !Exacto(r)
  {
    EjemploExacto();
    EjemploOrden();
    CuentasDeBloques();
    hide CantidadDeBloques, Extension, Exacto, EsOrden, Inv, EnExtension, Truncar;
    var d := Ejemplo();
    forall n ensures !EnExtension(d, n, Fin(d, "d")) {
      EjemploExtension(n, Fin(d, "d"));
    }
    assert Inv(d) by {
      ExactoInv(d);
    }
    AchicarInvSii(d, "d", 4, Claves());
    AchicarExactoSii(d, "d", 4, Claves());
  }

  lemma ExactoInv(d: Disco)
    requires Exacto(d)
    ensures Inv(d)
  {
  }

  /** Deleting the empty "c" leaves its block marked; creating "a" again leaves the two blocks it had marked. */
  lemma EliminarYCrearPierden()
    ensures Exacto(Ejemplo()) && BloqueLibre(Ejemplo().bitmap) >= 0
    ensures Inv(Eliminar(Ejemplo(), "c")) && !Exacto(Eliminar(Ejemplo(), "c"))
    ensures Inv(Crear(Ejemplo(), "a")) && !Exacto(Crear(Ejemplo(), "a"))
  {
    EjemploExacto();
    EjemploForma();
    var d := Ejemplo();
    assert d.archivos["c"] == Archivo(3, 0) && "a" in d.archivos && !d.bitmap[6];
    hide Ejemplo, Exacto, Inv, Eliminar, Crear;
    ExactoInv(d);
    EliminarExactoSii(d, "c");
    EliminarInv(d, "c");
    CrearExactoSii(d, "a");
    CrearInv(d, "a");
  }
}
