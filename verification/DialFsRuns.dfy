/** Runs of file operations: DialFS refines a map from names to bytes. */
module DialFsRuns {
  import opened Comunes
  import opened DialFs
  import opened DialFsOps

  datatype Op =
    | OpCrear(nombre: string)
    | OpEliminar(nombre: string)
    | OpTruncar(nombre: string, tam: nat, claves: seq<string>)
    | OpEscribir(nombre: string, pos: nat, datos: seq<byte>)

  /** When the code may perform the operation: a free block to create, room on the disk to grow, nobody
      right after a file to shrink, and writes inside an existing file. */
  ghost predicate Habilitada(d: Disco, op: Op)
    requires d.tamBloque > 0
  {
    match op
    case OpCrear(n) => BloqueLibre(d.bitmap) >= 0
    case OpEliminar(n) => true
    case OpTruncar(n, tam, claves) =>
      && EsOrden(d, claves)
      && (Crece(d, n, tam) ==> HayLugar(d, n, claves, CantidadDeBloques(tam, d.tamBloque)))
      && (Achica(d, n, tam) ==> !Ocupado(d, Fin(d, n)))
    case OpEscribir(n, pos, datos) =>
      && n in d.archivos && pos + |datos| <= d.archivos[n].tamArchivo
      && Posicion(d.archivos[n].bloqueInicial, d.tamBloque) + pos + |datos| <= |d.bloques|
  }

  function Aplicar(d: Disco, op: Op): Disco
    requires d.tamBloque > 0 && Habilitada(d, op)
  {
    match op
    case OpCrear(n) => Crear(d, n)
    case OpEliminar(n) => Eliminar(d, n)
    case OpTruncar(n, tam, claves) => Truncar(d, n, tam, claves)
    case OpEscribir(n, pos, datos) => Escribir(d, n, pos, datos)
  }

  /** What one operation may do to the map of contents, for blocks of `tb` bytes. */
  ghost predicate PasoAbstracto(tb: nat, m: map<string, seq<byte>>, op: Op, m': map<string, seq<byte>>)
    requires tb > 0
  {
    match op
    case OpCrear(n) => m' == m[n := []]
    case OpEliminar(n) => m' == m - {n}
    case OpTruncar(n, tam, _) =>
      if n !in m || CantidadDeBloques(tam, tb) == CantidadDeBloques(|m[n]|, tb) then m' == m
      else
        && m'.Keys == m.Keys
        && (forall k :: k in m && k != n ==> m'[k] == m[k])
        && |m'[n]| == tam
        && (if tam < |m[n]| then m'[n] == m[n][..tam] else m[n] <= m'[n])
    case OpEscribir(n, pos, datos) =>
      n in m && pos + |datos| <= |m[n]| && m' == m[n := Pegar(m[n], pos, datos)]
  }

  /** Every enabled operation keeps the invariant and is a step of the map. */
  lemma PasoRefina(d: Disco, op: Op)
    requires Inv(d) && Habilitada(d, op)
    ensures Inv(Aplicar(d, op)) && Aplicar(d, op).tamBloque == d.tamBloque
    ensures PasoAbstracto(d.tamBloque, Contenidos(d), op, Contenidos(Aplicar(d, op)))
  {
    assert d.tamBloque > 0;
    hide Inv, Disjuntos, CantidadDeBloques, Contenidos, EnExtension, Marcar, Datos, Posicion;
    match op
    case OpCrear(n) => CrearInv(d, n); CrearContenidos(d, n);
    case OpEliminar(n) => EliminarInv(d, n); EliminarContenidos(d, n);
    case OpTruncar(n, tam, claves) => TruncarRefina(d, n, tam, claves);
    case OpEscribir(n, pos, datos) => EscribirContenidos(d, n, pos, datos);
  }

  lemma TruncarRefina(d: Disco, n: string, tam: nat, claves: seq<string>)
    requires Inv(d) && Habilitada(d, OpTruncar(n, tam, claves))
    ensures Inv(Truncar(d, n, tam, claves)) && Truncar(d, n, tam, claves).tamBloque == d.tamBloque
    ensures PasoAbstracto(d.tamBloque, Contenidos(d), OpTruncar(n, tam, claves), Contenidos(Truncar(d, n, tam, claves)))
  {
    hide Disjuntos, CantidadDeBloques, EnExtension, Marcar, Datos, Empaquetar, HayLugar, Indice, Posicion;
    if n in d.archivos {
      DatosEnRango(d, n);
      if Crece(d, n, tam) {
        TruncarCrece(d, n, tam, claves);
        TamCreceConBloques(d.archivos[n].tamArchivo, tam, d.tamBloque);
      } else if Achica(d, n, tam) {
        AchicarInvSii(d, n, tam, claves);
        AchicarContenidos(d, n, tam, claves);
      }
    }
  }

  /** A run: each state follows from the previous one by an enabled operation. */
  ghost predicate Corrida(estados: seq<Disco>, ops: seq<Op>) {
    && |estados| == |ops| + 1
    && (forall i :: 0 <= i < |estados| ==> estados[i].tamBloque > 0)
    && (forall i :: 0 <= i < |ops| ==> Habilitada(estados[i], ops[i]) && estados[i + 1] == Aplicar(estados[i], ops[i]))
  }

  /** DialFS refines the map: in every run each step is a step of the map, and the extents stay
      disjoint, on the disk and marked. */
  lemma {:induction false} CorridaRefina(estados: seq<Disco>, ops: seq<Op>, i: nat)
    requires Corrida(estados, ops) && Inv(estados[0]) && i <= |ops|
    ensures Inv(estados[i]) && estados[i].tamBloque == estados[0].tamBloque
    ensures i < |ops| ==> PasoAbstracto(estados[0].tamBloque, Contenidos(estados[i]), ops[i], Contenidos(estados[i + 1]))
  {
    hide Inv, PasoAbstracto, Contenidos, Habilitada, Aplicar, Posicion;
    if i > 0 {
      CorridaRefina(estados, ops, i - 1);
      PasoRefina(estados[i - 1], ops[i - 1]);
    }
    if i < |ops| {
      PasoRefina(estados[i], ops[i]);
    }
  }

  // ---------------------------------------------------------------- no block lost

  /** The operations that leave a block marked that nobody owns: creating a name in use, deleting an empty file, and
      shrinking, unless to nothing. */
  predicate Pierde(d: Disco, op: Op)
    requires d.tamBloque > 0
  {
    match op
    case OpCrear(n) => n in d.archivos
    case OpEliminar(n) => n in d.archivos && d.archivos[n].tamArchivo == 0
    case OpTruncar(n, tam, _) => Achica(d, n, tam) && tam > 0
    case OpEscribir(_, _, _) => false
  }

  /** On an exact disk an operation keeps the set bits equal to the blocks of the files if and only if it is none of those. */
  lemma PasoExactoSii(d: Disco, op: Op)
    requires Exacto(d) && Habilitada(d, op)
    ensures Exacto(Aplicar(d, op)) <==> !Pierde(d, op)
  {
    assert Inv(d);
    hide Inv, Exacto, Disjuntos, CantidadDeBloques, EnExtension, Marcar, Posicion;
    match op
    case OpCrear(n) => CrearExactoSii(d, n);
    case OpEliminar(n) => EliminarExactoSii(d, n);
    case OpTruncar(n, tam, claves) => TruncarExactoSii(d, n, tam, claves);
    case OpEscribir(n, pos, datos) => EscribirExacto(d, n, pos, datos);
  }

  lemma TruncarExactoSii(d: Disco, n: string, tam: nat, claves: seq<string>)
    requires Exacto(d) && Habilitada(d, OpTruncar(n, tam, claves))
    ensures Exacto(Truncar(d, n, tam, claves)) <==> !Pierde(d, OpTruncar(n, tam, claves))
  {
    assert Inv(d) && d.tamBloque > 0;
    hide Inv, Exacto, Disjuntos, CantidadDeBloques, EnExtension, Marcar, Empaquetar, HayLugar, Indice, Posicion;
    if n in d.archivos {
      if Crece(d, n, tam) {
        TruncarCrece(d, n, tam, claves);
      } else if Achica(d, n, tam) {
        AchicarExactoSii(d, n, tam, claves);
      }
    }
  }

  lemma EscribirExacto(d: Disco, n: string, pos: nat, datos: seq<byte>)
    requires Exacto(d) && Habilitada(d, OpEscribir(n, pos, datos))
    ensures Exacto(Escribir(d, n, pos, datos))
  {
    assert Inv(d);
    EscribirContenidos(d, n, pos, datos);
    hide Inv, Disjuntos, CantidadDeBloques, Posicion, Contenidos;
    var r := Escribir(d, n, pos, datos);
    assert forall m, i :: EnExtension(r, m, i) <==> EnExtension(d, m, i);
    forall i | 0 <= i < |r.bitmap| && r.bitmap[i] ensures Ocupado(r, i) {
      var m :| EnExtension(d, m, i);
      assert EnExtension(r, m, i);
    }
  }

  /** In every run of creates of fresh names, growths, deletes of non-empty files and writes the set bits are exactly the
      blocks of the files, each with one owner. */
  lemma {:induction false} CorridaExacta(estados: seq<Disco>, ops: seq<Op>, i: nat)
    requires Corrida(estados, ops) && Exacto(estados[0]) && i <= |ops|
    requires forall j :: 0 <= j < i ==> !Pierde(estados[j], ops[j])
    ensures Exacto(estados[i])
  {
    hide Exacto, Habilitada, Aplicar, Pierde;
    if i > 0 {
      CorridaExacta(estados, ops, i - 1);
      PasoExactoSii(estados[i - 1], ops[i - 1]);
    }
  }

  /** And a growth makes them so again, whatever was lost before. */
  lemma CrecerRecupera(estados: seq<Disco>, ops: seq<Op>, i: nat)
    requires Corrida(estados, ops) && Inv(estados[0]) && i < |ops|
    requires ops[i].OpTruncar? && Crece(estados[i], ops[i].nombre, ops[i].tam)
    ensures Exacto(estados[i + 1])
  {
    hide Inv, Exacto, Crece, Posicion;
    CorridaRefina(estados, ops, i);
    TruncarCrece(estados[i], ops[i].nombre, ops[i].tam, ops[i].claves);
  }

  // ---------------------------------------------------------------- what a read returns

  /** The operation leaves the bytes `[pos, pos + n)` of `nombre` alone, as a caller can tell from its arguments. */
  predicate Respeta(op: Op, nombre: string, pos: nat, n: nat) {
    match op
    case OpCrear(m) => m != nombre
    case OpEliminar(m) => m != nombre
    case OpTruncar(m, tam, _) => m == nombre ==> pos + n <= tam
    case OpEscribir(m, p, datos) => m == nombre ==> p + |datos| <= pos || pos + n <= p
  }

  /** A read returns the last bytes written there, however many other operations (compactions
      included) happened in between. */
  lemma {:induction false} LecturaDeLoEscrito(estados: seq<Disco>, ops: seq<Op>, nombre: string, pos: nat, datos: seq<byte>, k: nat)
    requires Corrida(estados, ops) && Inv(estados[0])
    requires 0 < k < |estados| && ops[0] == OpEscribir(nombre, pos, datos)
    requires forall i :: 0 < i < k ==> Respeta(ops[i], nombre, pos, |datos|)
    ensures nombre in estados[k].archivos && Leer(estados[k], nombre, pos, |datos|) == datos
  {
    hide Leer, Inv, Posicion;
    CorridaRefina(estados, ops, k);
    EscritoPersiste(estados, ops, nombre, pos, datos, k);
    LeerContenidoDe(estados[k], nombre, pos, |datos|);
  }

  lemma LeerContenidoDe(d: Disco, nombre: string, pos: nat, tam: nat)
    requires Inv(d) && nombre in d.archivos && pos + tam <= |Contenidos(d)[nombre]|
    ensures Leer(d, nombre, pos, tam) == Contenidos(d)[nombre][pos..pos + tam]
  {
    hide Leer, Datos, Posicion;
    DatosEnRango(d, nombre);
    LeerContenido(d, nombre, pos, tam);
  }

  lemma {:induction false} EscritoPersiste(estados: seq<Disco>, ops: seq<Op>, nombre: string, pos: nat, datos: seq<byte>, k: nat)
    requires Corrida(estados, ops) && Inv(estados[0])
    requires 0 < k < |estados| && ops[0] == OpEscribir(nombre, pos, datos)
    requires forall i :: 0 < i < k ==> Respeta(ops[i], nombre, pos, |datos|)
    ensures nombre in estados[k].archivos && pos + |datos| <= |Contenidos(estados[k])[nombre]|
    ensures Contenidos(estados[k])[nombre][pos..pos + |datos|] == datos
  {
    hide Inv, Contenidos, Habilitada, Aplicar, Posicion;
    CorridaRefina(estados, ops, k - 1);
    if k > 1 {
      EscritoPersiste(estados, ops, nombre, pos, datos, k - 1);
      PasoPersiste(estados[0].tamBloque, Contenidos(estados[k - 1]), ops[k - 1], Contenidos(estados[k]), nombre, pos, datos);
    }
  }

  lemma PasoPersiste(tb: nat, m: map<string, seq<byte>>, op: Op, m': map<string, seq<byte>>, nombre: string, pos: nat, datos: seq<byte>)
    requires tb > 0 && PasoAbstracto(tb, m, op, m') && Respeta(op, nombre, pos, |datos|)
    requires nombre in m && pos + |datos| <= |m[nombre]| && m[nombre][pos..pos + |datos|] == datos
    ensures nombre in m' && pos + |datos| <= |m'[nombre]| && m'[nombre][pos..pos + |datos|] == datos
  {
    hide CantidadDeBloques, Posicion, Pegar;
    if op.OpEscribir? && op.nombre == nombre {
      FueraDePegar(m[nombre], op.pos, op.datos, pos, |datos|);
    }
  }
}
