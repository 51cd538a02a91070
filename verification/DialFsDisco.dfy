/** The I/O module's file system as the object its code updates in place. */
module DialFsDisco {
  import opened Comunes
  import opened DialFs
  import opened DialFsOps

  lemma EntraHasta(d: Disco, nombre: string, otros: seq<string>, k: nat)
    requires Inv(d) && SonOtros(d, nombre, otros) && k <= |otros|
    ensures Posicion(Inicio(d, otros, k), d.tamBloque) <= |d.bloques|
  {
    hide Extension, Disjuntos, Inicio, Posicion;
    CompactadosEntran(d, nombre, otros);
    InicioHasta(d, otros, k);
    PosicionMonotona(Inicio(d, otros, k), Inicio(d, otros, |otros|), d.tamBloque);
  }

  /** One round of the relocation loop: what copying the `i`-th file makes of the zeroed buffer. */
  lemma CopiarUno(d: Disco, otros: seq<string>, i: nat)
    requires DatosCompletos(d) && Registrados(d, otros) && i < |otros|
    requires Posicion(Inicio(d, otros, i + 1), d.tamBloque) <= |d.bloques|
    ensures |Compactados(d, otros, i)| == Posicion(Inicio(d, otros, i), d.tamBloque)
    ensures var a := d.archivos[otros[i]];
            var previo, nuevo := Compactados(d, otros, i), Compactados(d, otros, i + 1);
            && |previo| + a.tamArchivo <= |nuevo| <= |d.bloques|
            && Pegar(previo + Ceros(|d.bloques| - |previo|), |previo|, Datos(d, a)) == nuevo + Ceros(|d.bloques| - |nuevo|)
  {
    hide Extension, Inicio, Datos, Relleno, Posicion;
    CompactadosTam(d, otros, i);
    CompactadosTam(d, otros, i + 1);
    CopiarRelleno(d, Compactados(d, otros, i), otros[i]);
  }

  /** The buffer of the relocation loop once `i` files have been copied into it. */
  ghost function Copiado(d: Disco, otros: seq<string>, i: nat): seq<byte>
    requires d.tamBloque > 0 && Registrados(d, otros) && i <= |otros|
  {
    var c := Compactados(d, otros, i);
    if |c| <= |d.bloques| then c + Ceros(|d.bloques| - |c|) else []
  }

  lemma Ronda(d: Disco, nombre: string, otros: seq<string>, i: nat)
    requires Inv(d) && SonOtros(d, nombre, otros) && i < |otros|
    ensures Reubicados(d, otros, i)[otros[i]] == d.archivos[otros[i]]
    ensures |Compactados(d, otros, i)| == Posicion(Inicio(d, otros, i), d.tamBloque)
    ensures 0 <= Posicion(d.archivos[otros[i]].bloqueInicial, d.tamBloque)
    ensures Posicion(d.archivos[otros[i]].bloqueInicial, d.tamBloque) + d.archivos[otros[i]].tamArchivo <= |d.bloques|
    ensures |Datos(d, d.archivos[otros[i]])| == d.archivos[otros[i]].tamArchivo
    ensures |Compactados(d, otros, i)| + d.archivos[otros[i]].tamArchivo <= |d.bloques| == |Copiado(d, otros, i)|
    ensures Pegar(Copiado(d, otros, i), |Compactados(d, otros, i)|, Datos(d, d.archivos[otros[i]])) == Copiado(d, otros, i + 1)
  {
    hide Extension, Inicio, Compactados, Reubicados, Disjuntos, EnExtension, Datos, Posicion;
    EntraHasta(d, nombre, otros, i + 1);
    InvDatosCompletos(d);
    CopiarUno(d, otros, i);
    DatosEnRango(d, otros[i]);
    ReubicadosEn(d, otros, i, otros[i]);
  }

  /** Where the relocation loop stands after `i` files: next block, records and buffer. */
  ghost predicate Vuelta(d: Disco, otros: seq<string>, i: nat, bloqueActual: nat, archivos: map<string, Archivo>, buffer: seq<byte>) {
    && d.tamBloque > 0 && Registrados(d, otros) && i <= |otros|
    && bloqueActual == Inicio(d, otros, i)
    && archivos == Reubicados(d, otros, i)
    && buffer == Copiado(d, otros, i)
  }

  /** The file's bytes lie on the disk and fit in the buffer from block `bloqueActual` on. */
  predicate Copiable(d: Disco, a: Archivo, bloqueActual: nat, largo: nat) {
    && Posicion(a.bloqueInicial, d.tamBloque) + a.tamArchivo <= |d.bloques|
    && |Datos(d, a)| == a.tamArchivo
    && Posicion(bloqueActual, d.tamBloque) + a.tamArchivo <= largo
  }

  lemma VueltaInicial(d: Disco, otros: seq<string>)
    requires d.tamBloque > 0 && Registrados(d, otros)
    ensures Vuelta(d, otros, 0, 0, d.archivos, Ceros(|d.bloques|))
  {
    NingunArchivo(d, otros);
  }

  /** One round takes the loop from `i` files to `i + 1`. */
  lemma OtraVuelta(d: Disco, nombre: string, otros: seq<string>, i: nat, bloqueActual: nat, archivos: map<string, Archivo>, buffer: seq<byte>)
    requires Inv(d) && SonOtros(d, nombre, otros) && i < |otros| && Vuelta(d, otros, i, bloqueActual, archivos, buffer)
    ensures otros[i] in archivos && |buffer| == |d.bloques|
    ensures var a := archivos[otros[i]];
            && Copiable(d, a, bloqueActual, |buffer|)
            && Vuelta(d, otros, i + 1, bloqueActual + Extension(a.tamArchivo, d.tamBloque),
                      archivos[otros[i] := Archivo(bloqueActual, a.tamArchivo)],
                      Pegar(buffer, Posicion(bloqueActual, d.tamBloque), Datos(d, a)))
  {
    hide Extension, Compactados, Reubicados, Disjuntos, Inicio, EnExtension, Copiado, Posicion, Datos;
    Ronda(d, nombre, otros, i);
    UnArchivoMas(d, otros, i);
  }

  lemma OtrosDe(d: Disco, nombre: string, claves: seq<string>)
    requires EsOrden(d, claves) && nombre in d.archivos
    ensures Registrados(d, Quitar(claves, nombre)) && SonOtros(d, nombre, Quitar(claves, nombre))
  {
    QuitarSinRepetidos(claves, nombre);
  }

  lemma AntesDeCompactar(d: Disco, nombre: string, otros: seq<string>)
    requires Inv(d) && SonOtros(d, nombre, otros)
    ensures d.tamBloque > 0 && nombre in d.archivos
    ensures var a := d.archivos[nombre];
            var i := Posicion(a.bloqueInicial, d.tamBloque);
            i + a.tamArchivo <= |d.bloques| && Datos(d, a) == d.bloques[i..i + a.tamArchivo]
  {
    DatosEnRango(d, nombre);
  }

  /** What is left to do after the relocation loop to have the packed disk. */
  lemma DespuesDeReubicar(d: Disco, nombre: string, otros: seq<string>, bloqueActual: nat, archivos: map<string, Archivo>, buffer: seq<byte>)
    requires Inv(d) && SonOtros(d, nombre, otros) && Vuelta(d, otros, |otros|, bloqueActual, archivos, buffer)
    ensures var a := d.archivos[nombre];
            var p := Posicion(bloqueActual, d.tamBloque);
            && p <= |buffer| && p + a.tamArchivo <= |d.bloques|
            && forall bitmap: seq<bool> ::
              |bitmap| == |d.bitmap|
              && (forall i :: 0 <= i < |bitmap| ==> (bitmap[i] <==> i < bloqueActual + CantidadDeBloques(a.tamArchivo, d.tamBloque)))
              ==> Empaquetar(d, nombre, otros)
                  == Disco(d.tamBloque, bitmap, buffer[..p] + (Datos(d, a) + Desde(d.bloques, p + a.tamArchivo)),
                           archivos[nombre := Archivo(bloqueActual, a.tamArchivo)])
  {
    hide CantidadDeBloques, Inicio, Compactados, Reubicados, Datos, Copiado, Desde, Posicion;
    TodosCopiados(d, nombre, otros);
  }

  /** How the specification functions of the relocation grow with one more file. */
  lemma UnArchivoMas(d: Disco, otros: seq<string>, i: nat)
    requires d.tamBloque > 0 && Registrados(d, otros) && i < |otros|
    ensures Inicio(d, otros, i + 1) == Inicio(d, otros, i) + Extension(d.archivos[otros[i]].tamArchivo, d.tamBloque)
    ensures Reubicados(d, otros, i + 1) == Reubicados(d, otros, i)[otros[i] := Archivo(Inicio(d, otros, i), d.archivos[otros[i]].tamArchivo)]
  {
  }

  lemma NingunArchivo(d: Disco, otros: seq<string>)
    requires d.tamBloque > 0 && Registrados(d, otros)
    ensures Inicio(d, otros, 0) == 0 && Reubicados(d, otros, 0) == d.archivos && Copiado(d, otros, 0) == Ceros(|d.bloques|)
  {
  }

  lemma TodosCopiados(d: Disco, nombre: string, otros: seq<string>)
    requires Inv(d) && SonOtros(d, nombre, otros)
    ensures Posicion(Inicio(d, otros, |otros|), d.tamBloque) + d.archivos[nombre].tamArchivo <= |d.bloques| == |Copiado(d, otros, |otros|)|
    ensures Copiado(d, otros, |otros|)[..Posicion(Inicio(d, otros, |otros|), d.tamBloque)] == Compactados(d, otros, |otros|)
  {
    hide Extension, Inicio, Compactados, Disjuntos, EnExtension, Datos, Posicion, Reubicados;
    InvDatosCompletos(d);
    CompactadosTam(d, otros, |otros|);
    CompactadosEntran(d, nombre, otros);
  }

  lemma PasoDeBloqueActual(tam: nat, tamBloque: nat)
    requires tamBloque > 0
    ensures Extension(tam, tamBloque) == tam / tamBloque + if tam % tamBloque != 0 || tam == 0 then 1 else 0
  {
    SinBloquesSiiVacio(tam, tamBloque);
  }

  lemma CopiarRelleno(d: Disco, previo: seq<byte>, n: string)
    requires DatosCompletos(d) && n in d.archivos
    requires |previo + Relleno(d, d.archivos[n])| <= |d.bloques|
    ensures var a := d.archivos[n];
            var nuevo := previo + Relleno(d, a);
            && |previo| + a.tamArchivo <= |nuevo|
            && Pegar(previo + Ceros(|d.bloques| - |previo|), |previo|, Datos(d, a)) == nuevo + Ceros(|d.bloques| - |nuevo|)
  {
    hide Extension, Datos, Posicion;
    var a := d.archivos[n];
    RellenoTam(d, n);
    PegarEnCeros(previo, Datos(d, a), |d.bloques|, |previo + Relleno(d, a)|);
  }

  lemma {:induction false} InicioHasta(d: Disco, orden: seq<string>, k: nat)
    requires d.tamBloque > 0 && Registrados(d, orden) && k <= |orden|
    ensures Inicio(d, orden, k) <= Inicio(d, orden, |orden|)
    decreases |orden| - k
  {
    if k < |orden| {
      InicioHasta(d, orden, k + 1);
    }
  }

  lemma DosCopias(u: seq<byte>, s: seq<byte>, t: seq<byte>)
    requires |s| + |t| <= |u|
    ensures Pegar(Pegar(u, 0, s), |s|, t) == s + (t + Desde(u, |s| + |t|))
  {
  }

  lemma PegarEnCeros(s: seq<byte>, t: seq<byte>, largo: nat, hasta: nat)
    requires |s| + |t| <= hasta <= largo
    ensures Pegar(s + Ceros(largo - |s|), |s|, t) == s + (t + Ceros(hasta - |s| - |t|)) + Ceros(largo - hasta)
  {
  }

  class DialFS {
    const tamBloque: nat
    const bitmap: array<bool>
    const bloques: array<byte>
    var archivos: map<string, Archivo>

    ghost function Estado(): Disco
      reads this, bitmap, bloques
    {
      Disco(tamBloque, bitmap[..], bloques[..], archivos)
    }

    ghost predicate Valido()
      reads this, bitmap, bloques
    {
      Inv(Estado())
    }

    /** A fresh disk: `cantBloques` must be a multiple of 8, since the bitmap holds whole bytes. */
    constructor (tamBloque: nat, cantBloques: nat)
      requires tamBloque > 0 && cantBloques % 8 == 0
      ensures this.tamBloque == tamBloque && bitmap.Length == cantBloques && archivos == map[]
      ensures Exacto(Estado()) && fresh(bitmap) && fresh(bloques)
    {
      this.tamBloque := tamBloque;
      bitmap := new bool[cantBloques](i => false);
      bloques := new byte[Posicion(cantBloques, tamBloque)](i => 0);
      archivos := map[];
    }

    method PrimerBloqueLibre() returns (r: int)
      ensures r == BloqueLibre(bitmap[..])
    {
      for i := 0 to bitmap.Length
        invariant forall j :: 0 <= j < i ==> bitmap[j]
      {
        if !bitmap[i] {
          return i;
        }
      }
      return -1;
    }

    method AsignarBloque() returns (r: nat)
      requires BloqueLibre(bitmap[..]) >= 0
      modifies bitmap
      ensures r == old(BloqueLibre(bitmap[..]))
      ensures bitmap[..] == Marcar(old(bitmap[..]), r, r + 1, true)
    {
      r := PrimerBloqueLibre();
      bitmap[r] := true;
    }

    /** Sets or clears the bits `[desde, hasta)`; a bit beyond the bitmap is not part of this model. */
    method Bits(desde: nat, hasta: nat, valor: bool)
      modifies bitmap
      ensures bitmap[..] == Marcar(old(bitmap[..]), desde, hasta, valor)
    {
      var i := desde;
      while i < hasta
        invariant desde <= i
        invariant i <= hasta || i == desde
        invariant forall k :: 0 <= k < bitmap.Length ==> bitmap[k] == if desde <= k < i then valor else old(bitmap[k])
      {
        if i < bitmap.Length {
          bitmap[i] := valor;
        }
        i := i + 1;
      }
    }

    method Contiguos(desde: nat, n: nat) returns (r: bool)
      requires desde + n <= bitmap.Length || (n > 0 && desde < bitmap.Length && bitmap[desde])
      ensures r == EstanContiguos(bitmap[..], desde, n)
    {
      for i := 0 to n
        invariant EstanContiguos(bitmap[..], desde, i)
      {
        if bitmap[desde + i] {
          return false;
        }
      }
      return true;
    }

    method CrearArchivo(nombre: string)
      requires Valido() && BloqueLibre(bitmap[..]) >= 0
      modifies this, bitmap
      ensures Estado() == Crear(old(Estado()), nombre) && Valido()
    {
      CrearInv(Estado(), nombre);
      var bloque := AsignarBloque();
      archivos := archivos[nombre := Archivo(bloque, 0)];
    }

    method EliminarArchivo(nombre: string)
      requires Valido()
      modifies this, bitmap
      ensures Estado() == Eliminar(old(Estado()), nombre) && Valido()
    {
      EliminarInv(Estado(), nombre);
      if nombre !in archivos {
        return;
      }
      var a := archivos[nombre];
      Bits(a.bloqueInicial, a.bloqueInicial + CantidadDeBloques(a.tamArchivo, tamBloque), false);
      archivos := archivos - {nombre};
    }

    method LeerArchivo(nombre: string, pos: nat, tam: nat) returns (r: seq<byte>)
      requires nombre in archivos && Posicion(archivos[nombre].bloqueInicial, tamBloque) + pos + tam <= bloques.Length
      ensures r == Leer(Estado(), nombre, pos, tam)
      ensures Inv(Estado()) && pos + tam <= archivos[nombre].tamArchivo ==>
                pos + tam <= |Contenidos(Estado())[nombre]| && r == Contenidos(Estado())[nombre][pos..pos + tam]
    {
      if Inv(Estado()) && pos + tam <= archivos[nombre].tamArchivo {
        LeerContenido(Estado(), nombre, pos, tam);
      }
      var comienzo := Posicion(archivos[nombre].bloqueInicial, tamBloque);
      r := bloques[comienzo + pos..comienzo + pos + tam];
    }

    method EscribirArchivo(nombre: string, pos: nat, datos: seq<byte>)
      requires nombre in archivos && Posicion(archivos[nombre].bloqueInicial, tamBloque) + pos + |datos| <= bloques.Length
      modifies bloques
      ensures Estado() == Escribir(old(Estado()), nombre, pos, datos)
    {
      Memcpy(bloques, Posicion(archivos[nombre].bloqueInicial, tamBloque) + pos, datos);
    }
  
    /** One round of the relocation loop: copies the file's bytes to the block `bloqueActual` of the
        buffer, moves its record there, and returns the next block. */
    method Reubicar(ghost d: Disco, disco: seq<byte>, compactados: array<byte>, bloqueActual: nat, nombre: string) returns (siguiente: nat)
      requires d.tamBloque == tamBloque > 0 && d.bloques == disco && nombre in archivos
      requires Copiable(d, archivos[nombre], bloqueActual, compactados.Length)
      modifies this`archivos, compactados
      ensures siguiente == bloqueActual + Extension(old(archivos)[nombre].tamArchivo, d.tamBloque)
      ensures archivos == old(archivos)[nombre := Archivo(bloqueActual, old(archivos)[nombre].tamArchivo)]
      ensures compactados[..] == Pegar(old(compactados[..]), Posicion(bloqueActual, d.tamBloque), Datos(d, old(archivos)[nombre]))
    {
      hide Extension, CantidadDeBloques, Posicion;
      var a := archivos[nombre];
      PasoDeBloqueActual(a.tamArchivo, tamBloque);
      var inicio := Posicion(a.bloqueInicial, tamBloque);
      Memcpy(compactados, Posicion(bloqueActual, tamBloque), disco[inicio..inicio + a.tamArchivo]);
      archivos := archivos[nombre := Archivo(bloqueActual, a.tamArchivo)];
      siguiente := bloqueActual + a.tamArchivo / tamBloque;
      if a.tamArchivo % tamBloque != 0 || a.tamArchivo == 0 {
        siguiente := siguiente + 1;
      }
    }

    /** The relocation loop of `compactar`: copies `otros` one after another into a zeroed buffer and
        moves their records. */
    method ReubicarOtros(ghost d: Disco, nombre: string, otros: seq<string>) returns (bloqueActual: nat, compactados: array<byte>)
      requires d.tamBloque == tamBloque > 0 && d.bloques == bloques[..] && d.archivos == archivos
      requires Inv(d) && Registrados(d, otros) && SonOtros(d, nombre, otros)
      modifies this`archivos
      ensures fresh(compactados) && Vuelta(d, otros, |otros|, bloqueActual, archivos, compactados[..])
    {
      hide *;
      VueltaInicial(d, otros);
      compactados := Calloc(bloques.Length);
      var disco := bloques[..];
      bloqueActual := 0;
      for i := 0 to |otros|
        invariant fresh(compactados) && Vuelta(d, otros, i, bloqueActual, archivos, compactados[..])
      {
        OtraVuelta(d, nombre, otros, i, bloqueActual, archivos, compactados[..]);
        bloqueActual := Reubicar(d, disco, compactados, bloqueActual, otros[i]);
      }
    }

    /** The first `n` bytes of the buffer go over the start of the disk, and the saved bytes of the
        file being grown right after them. */
    method Volcar(compactados: array<byte>, n: nat, buffer: seq<byte>)
      requires n <= compactados.Length && n + |buffer| <= bloques.Length && compactados != bloques
      modifies bloques
      ensures bloques[..] == compactados[..n] + (buffer + Desde(old(bloques[..]), n + |buffer|))
    {
      hide Pegar, Desde;
      var copiados := compactados[..n];
      DosCopias(bloques[..], copiados, buffer);
      Memcpy(bloques, 0, copiados);
      Memcpy(bloques, n, buffer);
    }

    method MarcarUsados(usados: nat)
      modifies bitmap
      ensures forall i :: 0 <= i < bitmap.Length ==> (bitmap[i] <==> i < usados)
    {
      Bits(0, usados, true);
      Bits(usados, bitmap.Length, false);
    }

    /** `compactar`, for whatever order the dictionary lists its keys in. */
    method CompactarDisco(nombre: string, claves: seq<string>)
      requires Valido() && EsOrden(Estado(), claves) && nombre in archivos
      modifies this, bitmap, bloques
      ensures Estado() == Compactar(old(Estado()), nombre, claves)
    {
      ghost var d := Estado();
      OtrosDe(d, nombre, claves);
      Compacta(d, nombre, Quitar(claves, nombre));
      assert Estado() == Empaquetar(d, nombre, Quitar(claves, nombre));
    }

    method Compacta(ghost d: Disco, nombre: string, otros: seq<string>)
      requires d == Estado() && Inv(d) && Registrados(d, otros) && SonOtros(d, nombre, otros)
      modifies this, bitmap, bloques
      ensures Registrados(d, otros) && nombre in d.archivos && Estado() == Empaquetar(d, nombre, otros)
    {
      hide Inv, Registrados, SonOtros, Empaquetar, CantidadDeBloques, Posicion, Vuelta, Datos, Desde;
      AntesDeCompactar(d, nombre, otros);
      var aAmpliar := archivos[nombre];
      var inicio := Posicion(aAmpliar.bloqueInicial, tamBloque);
      var buffer := bloques[inicio..inicio + aAmpliar.tamArchivo];
      var bloqueActual, compactados := ReubicarOtros(d, nombre, otros);
      DespuesDeReubicar(d, nombre, otros, bloqueActual, archivos, compactados[..]);
      Volcar(compactados, Posicion(bloqueActual, tamBloque), buffer);
      archivos := archivos[nombre := Archivo(bloqueActual, aAmpliar.tamArchivo)];
      MarcarUsados(bloqueActual + CantidadDeBloques(aAmpliar.tamArchivo, tamBloque));
    }

    /** The growing branch of `truncarArchivo`, once the blocks after the file are free. */
    method AsignarBloques(nombre: string, tam: nat)
      requires tamBloque > 0 && nombre in archivos
      modifies this`archivos, bitmap
      ensures Estado() == Asignar(old(Estado()), nombre, tam)
    {
      hide CantidadDeBloques, Marcar, Posicion;
      var a := archivos[nombre];
      Bits(a.bloqueInicial + CantidadDeBloques(a.tamArchivo, tamBloque), a.bloqueInicial + CantidadDeBloques(tam, tamBloque), true);
      archivos := archivos[nombre := a.(tamArchivo := tam)];
    }

    /** The shrinking branch of `truncarArchivo`, with the indices its loop really visits. */
    method LiberarBloques(nombre: string, tam: nat)
      requires tamBloque > 0 && nombre in archivos
      modifies this`archivos, bitmap
      ensures Estado() == Liberar(old(Estado()), nombre, tam)
    {
      hide CantidadDeBloques, Marcar, Posicion;
      var a := archivos[nombre];
      Bits(a.bloqueInicial + CantidadDeBloques(tam, tamBloque) + 1, a.bloqueInicial + CantidadDeBloques(a.tamArchivo, tamBloque) + 1, false);
      archivos := archivos[nombre := a.(tamArchivo := tam)];
    }

    /** `truncarArchivo`: grows, compacting when its contiguity test fails, or shrinks; a size that
        needs as many blocks as the file already has changes nothing. */
    method TruncarArchivo(nombre: string, tam: nat, claves: seq<string>)
      requires Valido() && EsOrden(Estado(), claves)
      requires Crece(Estado(), nombre, tam) ==> HayLugar(Estado(), nombre, claves, CantidadDeBloques(tam, tamBloque))
      modifies this, bitmap, bloques
      ensures Estado() == Truncar(old(Estado()), nombre, tam, claves)
    {
      ghost var d := Estado();
      assert d.tamBloque > 0;
      hide CantidadDeBloques, Disjuntos, Compactar, HayLugar, Marcar, Asignar, Liberar, Posicion;
      if nombre !in archivos {
        return;
      }
      var bloquesNecesarios := CantidadDeBloques(tam, tamBloque);
      var bloquesEnUso := CantidadDeBloques(archivos[nombre].tamArchivo, tamBloque);
      assert EnExtension(d, nombre, archivos[nombre].bloqueInicial);
      var hayContiguos := Contiguos(archivos[nombre].bloqueInicial, bloquesNecesarios);
      if bloquesNecesarios > bloquesEnUso {
        if !hayContiguos {
          CompactarDisco(nombre, claves);
          ConservaRegistro(d, nombre, claves);
        }
        AsignarBloques(nombre, tam);
      } else if bloquesNecesarios < bloquesEnUso {
        LiberarBloques(nombre, tam);
      }
    }
  }

  lemma ConservaRegistro(d: Disco, nombre: string, claves: seq<string>)
    requires Inv(d) && EsOrden(d, claves) && nombre in d.archivos
    ensures Compactar(d, nombre, claves).tamBloque == d.tamBloque
    ensures nombre in Compactar(d, nombre, claves).archivos
    ensures Compactar(d, nombre, claves).archivos[nombre].tamArchivo == d.archivos[nombre].tamArchivo
  {
    hide Empaquetar, CantidadDeBloques, Indice, Disjuntos, EnExtension, Posicion;
    QuitarSinRepetidos(claves, nombre);
    EmpaquetarMismoTam(d, nombre, Quitar(claves, nombre));
  }

  lemma EmpaquetarMismoTam(d: Disco, nombre: string, otros: seq<string>)
    requires d.tamBloque > 0 && Registrados(d, otros) && nombre in d.archivos
    ensures Empaquetar(d, nombre, otros).archivos[nombre].tamArchivo == d.archivos[nombre].tamArchivo
  {
  }
}
