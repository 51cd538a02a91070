/** The serializers, which grow the buffer of a packet, and the readers, which move a cursor over a stream. */
module CodecPaquete {
  import opened Comunes
  import opened Codec

  class Paquete {
    var stream: seq<byte>

    constructor ()
      ensures stream == []
    {
      stream := [];
    }

    method AgregarVarAPaquete(valor: seq<byte>)
      modifies this
      ensures stream == old(stream) + valor
    {
      stream := stream + valor;
    }

    /** Length and characters with the terminator. */
    method AgregarCadena(t: seq<byte>)
      modifies this
      ensures stream == old(stream) + Cadena(t)
    {
      AgregarVarAPaquete(U32(|t| + 1));
      AgregarVarAPaquete(t + [0]);
    }

    method AgregarOpcional(o: Option<seq<byte>>)
      modifies this
      ensures stream == old(stream) + Opcional(o)
    {
      match o
      case None => AgregarVarAPaquete(U32(0));
      case Some(t) => AgregarCadena(t);
    }

    method SerializarRegistros(r: Registros)
      modifies this
      ensures stream == old(stream) + BytesRegistros(r)
    {
      ghost var antes := stream;
      AgregarVarAPaquete(U8(r.ax));
      AgregarVarAPaquete(U8(r.bx));
      AgregarVarAPaquete(U8(r.cx));
      AgregarVarAPaquete(U8(r.dx));
      assert stream == antes + DeOcho(r);
      ghost var mitad := stream;
      AgregarVarAPaquete(U32(r.eax));
      AgregarVarAPaquete(U32(r.ebx));
      AgregarVarAPaquete(U32(r.ecx));
      AgregarVarAPaquete(U32(r.edx));
      AgregarVarAPaquete(U32(r.si));
      AgregarVarAPaquete(U32(r.di));
      AgregarVarAPaquete(U32(r.pc));
      assert stream == mitad + DeTreintaYDos(r);
    }

    method AgregarDirFisica(f: DirFisica)
      modifies this
      ensures stream == old(stream) + BytesDir(f)
    {
      AgregarVarAPaquete(U32(f.pid));
      AgregarVarAPaquete(U32(f.marco));
      AgregarVarAPaquete(U32(f.desplazamiento));
    }

    method AgregarTomados(ts: seq<seq<byte>>)
      modifies this
      ensures stream == old(stream) + Tomados(ts)
    {
      ghost var antes := stream;
      AgregarVarAPaquete(U32(|ts|));
      for i := 0 to |ts|
        invariant stream == antes + (U32(|ts|) + Cadenas(ts, i))
      {
        AgregarCadena(ts[i]);
      }
    }

    method SerializarPcb(p: Pcb)
      requires EsPcb(p)
      modifies this
      ensures stream == old(stream) + BytesPcb(p)
    {
      hide BytesRegistros, Opcional, Tomados, U32, I64;
      ghost var antes := stream;
      AgregarVarAPaquete(U32(p.pc));
      AgregarVarAPaquete(U32(p.pid));
      AgregarVarAPaquete(I64(p.quantum));
      SerializarRegistros(p.registros);
      ghost var cabeza := U32(p.pc) + (U32(p.pid) + (I64(p.quantum) + BytesRegistros(p.registros)));
      assert stream == antes + cabeza;
      AgregarOpcional(p.esperando);
      AgregarTomados(p.tomados);
      AgregarVarAPaquete(U32(p.estado));
      AgregarVarAPaquete(I64(p.tiempoInicial));
      ghost var cola := Opcional(p.esperando) + (Tomados(p.tomados) + (U32(p.estado) + I64(p.tiempoInicial)));
      assert stream == antes + cabeza + cola;
      Agrupar(U32(p.pc), U32(p.pid), I64(p.quantum), BytesRegistros(p.registros), cola);
    }

    method SerializarContexto(c: Contexto)
      requires EsContexto(c)
      modifies this
      ensures stream == old(stream) + BytesContexto(c)
    {
      hide BytesPcb, Opcional, U32;
      SerializarPcb(c.pcb);
      AgregarVarAPaquete(U32(c.motivo));
      AgregarOpcional(c.recurso);
    }

    /** The writers of the I/O requests, one for each code. */
    method SerializarPeticion(p: Peticion)
      requires EsPeticion(p)
      modifies this
      ensures stream == old(stream) + BytesPeticion(p)
    {
      hide EsPeticion, EsContexto, BytesContexto, BytesResto;
      PeticionConContexto(p);
      ghost var antes := stream;
      SerializarContexto(p.cde);
      SerializarResto(p);
      assert antes + BytesContexto(p.cde) + BytesResto(p) == antes + (BytesContexto(p.cde) + BytesResto(p));
    }

    /** What each writer adds after the context. */
    method SerializarResto(p: Peticion)
      modifies this
      ensures stream == old(stream) + BytesResto(p)
    {
      hide U32, Cadena, BytesDir;
      match p {
        case GenSleep(_, interfaz, unidades) =>
          AgregarCadena(interfaz);
          AgregarVarAPaquete(U32(unidades));
        case StdoutWrite(_, dir, interfaz, tam) =>
          AgregarDirFisica(dir);
          AgregarCadena(interfaz);
          AgregarVarAPaquete(U32(tam));
        case FsCreate(_, interfaz, nombre) =>
          AgregarCadena(interfaz);
          AgregarCadena(nombre);
        case FsDelete(_, interfaz, nombre) =>
          AgregarCadena(interfaz);
          AgregarCadena(nombre);
        case FsTruncate(_, interfaz, nombre, tam) =>
          AgregarCadena(interfaz);
          AgregarCadena(nombre);
          AgregarVarAPaquete(U32(tam));
        case FsWrite(_, interfaz, nombre, tam, dir, posicion) =>
          AgregarArchivoYRango(interfaz, nombre, tam, dir, posicion);
        case FsRead(_, interfaz, nombre, tam, dir, posicion) =>
          AgregarArchivoYRango(interfaz, nombre, tam, dir, posicion);
      }
    }

    method AgregarArchivoYRango(interfaz: seq<byte>, nombre: seq<byte>, tam: nat, dir: DirFisica, posicion: nat)
      modifies this
      ensures stream == old(stream) + (Cadena(interfaz) + (Cadena(nombre) + (U32(tam) + (BytesDir(dir) + U32(posicion)))))
    {
      hide U32, Cadena, BytesDir;
      AgregarCadena(interfaz);
      AgregarCadena(nombre);
      AgregarVarAPaquete(U32(tam));
      AgregarDirFisica(dir);
      AgregarVarAPaquete(U32(posicion));
    }
  }

  lemma Agrupar(a: seq<byte>, b: seq<byte>, c: seq<byte>, d: seq<byte>, e: seq<byte>)
    ensures (a + (b + (c + d))) + e == a + (b + (c + (d + e)))
  {
    assert (c + d) + e == c + (d + e);
    assert (b + (c + d)) + e == b + ((c + d) + e);
  }

  /** A stream and the cursor of its reader. Every read finds what it needs: the requires say that the stream holds it. */
  class Lector {
    const stream: seq<byte>
    var desplazamiento: nat

    constructor (stream: seq<byte>)
      ensures this.stream == stream && desplazamiento == 0
    {
      this.stream, desplazamiento := stream, 0;
    }

    method DeserializarUint8() returns (n: nat)
      requires LeerU8(stream, desplazamiento).Leido?
      modifies this
      ensures LeerU8(stream, old(desplazamiento)) == Leido(Campo(n, desplazamiento))
    {
      n := Numero(stream[desplazamiento..desplazamiento + 1]);
      desplazamiento := desplazamiento + 1;
    }

    method DeserializarUint32() returns (n: nat)
      requires LeerU32(stream, desplazamiento).Leido?
      modifies this
      ensures LeerU32(stream, old(desplazamiento)) == Leido(Campo(n, desplazamiento))
    {
      n := Numero(stream[desplazamiento..desplazamiento + 4]);
      desplazamiento := desplazamiento + 4;
    }

    method DeserializarInt64() returns (x: int)
      requires LeerI64(stream, desplazamiento).Leido?
      modifies this
      ensures LeerI64(stream, old(desplazamiento)) == Leido(Campo(x, desplazamiento))
    {
      var n := Numero(stream[desplazamiento..desplazamiento + 8]);
      x := if n < I64MAX then n else n - 2 * I64MAX;
      desplazamiento := desplazamiento + 8;
    }

    method DeserializarChar(tamanio: nat) returns (t: seq<byte>)
      requires LeerChar(stream, desplazamiento, tamanio).Leido?
      modifies this
      ensures LeerChar(stream, old(desplazamiento), tamanio) == Leido(Campo(t, desplazamiento))
    {
      var b := stream[desplazamiento..desplazamiento + tamanio];
      t := b[..Indice(b, 0)];
      desplazamiento := desplazamiento + tamanio;
    }

    method DeserializarRegistros() returns (r: Registros)
      requires LeerRegistros(stream, desplazamiento).Leido?
      modifies this
      ensures LeerRegistros(stream, old(desplazamiento)) == Leido(Campo(r, desplazamiento))
    {
      hide LeerU8, LeerU32;
      var ax := DeserializarUint8();
      var bx := DeserializarUint8();
      var cx := DeserializarUint8();
      var dx := DeserializarUint8();
      var eax := DeserializarUint32();
      var ebx := DeserializarUint32();
      var ecx := DeserializarUint32();
      var edx := DeserializarUint32();
      var si := DeserializarUint32();
      var di := DeserializarUint32();
      var pc := DeserializarUint32();
      r := Registros(ax, bx, cx, dx, eax, ebx, ecx, edx, si, di, pc);
    }

    method DeserializarCadena() returns (t: seq<byte>)
      requires LeerCadena(stream, desplazamiento).Leido?
      modifies this
      ensures LeerCadena(stream, old(desplazamiento)) == Leido(Campo(t, desplazamiento))
    {
      hide LeerU32, LeerChar;
      var tam := DeserializarUint32();
      t := DeserializarChar(tam);
    }

    method DeserializarOpcional() returns (o: Option<seq<byte>>)
      requires LeerOpcional(stream, desplazamiento).Leido?
      modifies this
      ensures LeerOpcional(stream, old(desplazamiento)) == Leido(Campo(o, desplazamiento))
    {
      hide LeerU32, LeerChar;
      var tam := DeserializarUint32();
      if tam > 0 {
        var t := DeserializarChar(tam);
        o := Some(t);
      } else {
        o := None;
      }
    }

    /** The loop that fills the list of held resources. */
    method DeserializarTomados() returns (ts: seq<seq<byte>>)
      requires LeerTomados(stream, desplazamiento).Leido?
      modifies this
      ensures LeerTomados(stream, old(desplazamiento)) == Leido(Campo(ts, desplazamiento))
    {
      hide LeerU32, LeerCadena;
      var cantidad := DeserializarUint32();
      ghost var desde := desplazamiento;
      ts := [];
      for i := 0 to cantidad
        invariant LeerCadenas(stream, desde, i) == Leido(Campo(ts, desplazamiento))
      {
        Alcanza(stream, desde, i + 1, cantidad);
        var t := DeserializarCadena();
        ts := ts + [t];
      }
    }

    method DeserializarPcb() returns (p: Pcb)
      requires LeerPcb(stream, desplazamiento).Leido?
      modifies this
      ensures LeerPcb(stream, old(desplazamiento)) == Leido(Campo(p, desplazamiento))
    {
      hide LeerU32, LeerI64, LeerRegistros, LeerOpcional, LeerTomados;
      var pc := DeserializarUint32();
      var pid := DeserializarUint32();
      var quantum := DeserializarInt64();
      var registros := DeserializarRegistros();
      var esperando := DeserializarOpcional();
      var tomados := DeserializarTomados();
      var estado := DeserializarUint32();
      var tiempo := DeserializarInt64();
      p := Pcb(pc, pid, quantum, registros, esperando, tomados, estado, tiempo);
    }

    method DeserializarContexto() returns (c: Contexto)
      requires LeerContexto(stream, desplazamiento).Leido?
      modifies this
      ensures LeerContexto(stream, old(desplazamiento)) == Leido(Campo(c, desplazamiento))
    {
      hide LeerPcb, LeerU32, LeerOpcional;
      var pcb := DeserializarPcb();
      var motivo := DeserializarUint32();
      var recurso := DeserializarOpcional();
      c := Contexto(pcb, motivo, recurso);
    }

    method DeserializarDireccionFisica() returns (f: DirFisica)
      requires LeerDir(stream, desplazamiento).Leido?
      modifies this
      ensures LeerDir(stream, old(desplazamiento)) == Leido(Campo(f, desplazamiento))
    {
      hide LeerU32;
      var pid := DeserializarUint32();
      var marco := DeserializarUint32();
      var des := DeserializarUint32();
      f := DirFisica(pid, marco, des);
    }

    method DeserializarArchivo() returns (a: Archivo)
      requires LeerArchivo(stream, desplazamiento).Leido?
      modifies this
      ensures LeerArchivo(stream, old(desplazamiento)) == Leido(Campo(a, desplazamiento))
    {
      hide LeerCadena;
      var interfaz := DeserializarCadena();
      var nombre := DeserializarCadena();
      a := Archivo(interfaz, nombre);
    }

    method DeserializarRango() returns (r: Rango)
      requires LeerRango(stream, desplazamiento).Leido?
      modifies this
      ensures LeerRango(stream, old(desplazamiento)) == Leido(Campo(r, desplazamiento))
    {
      hide LeerU32, LeerDir;
      var tam := DeserializarUint32();
      var dir := DeserializarDireccionFisica();
      var posicion := DeserializarUint32();
      r := Rango(tam, dir, posicion);
    }

    /** The readers of the I/O requests, one for each code. */
    method DeserializarPeticion(codigo: Codigo) returns (p: Peticion)
      requires LeerPeticion(codigo, stream, desplazamiento).Leido?
      modifies this
      ensures LeerPeticion(codigo, stream, old(desplazamiento)) == Leido(Campo(p, desplazamiento))
    {
      hide LeerContexto, LeerU32, LeerDir, LeerCadena, LeerArchivo, LeerRango;
      var c := DeserializarContexto();
      match codigo {
        case CGenSleep =>
          var interfaz := DeserializarCadena();
          var unidades := DeserializarUint32();
          p := GenSleep(c, interfaz, unidades);
        case CStdoutWrite =>
          var dir := DeserializarDireccionFisica();
          var interfaz := DeserializarCadena();
          var tam := DeserializarUint32();
          p := StdoutWrite(c, dir, interfaz, tam);
        case CFsCreate =>
          var a := DeserializarArchivo();
          p := FsCreate(c, a.interfaz, a.nombre);
        case CFsDelete =>
          var a := DeserializarArchivo();
          p := FsDelete(c, a.interfaz, a.nombre);
        case CFsTruncate =>
          var a := DeserializarArchivo();
          var tam := DeserializarUint32();
          p := FsTruncate(c, a.interfaz, a.nombre, tam);
        case CFsWrite =>
          var a := DeserializarArchivo();
          var r := DeserializarRango();
          p := FsWrite(c, a.interfaz, a.nombre, r.tam, r.dir, r.posicion);
        case CFsRead =>
          var a := DeserializarArchivo();
          var r := DeserializarRango();
          p := FsRead(c, a.interfaz, a.nombre, r.tam, r.dir, r.posicion);
      }
    }
  }

  /** When `n` strings can be read, so can the first `m`. */
  lemma {:induction false} Alcanza(s: seq<byte>, d: nat, m: nat, n: nat)
    requires m <= n && LeerCadenas(s, d, n).Leido?
    ensures LeerCadenas(s, d, m).Leido?
    decreases n - m
  {
    hide LeerCadena;
    if m < n {
      Alcanza(s, d, m + 1, n);
    }
  }

  /** A request written by one end and read by the other is the same request, and nothing is left in the stream. */
  method Viaje(p: Peticion) returns (q: Peticion)
    requires EsPeticion(p)
    ensures q == p
  {
    var paquete := new Paquete();
    paquete.SerializarPeticion(p);
    var lector := new Lector(paquete.stream);
    assert paquete.stream == BytesPeticion(p);
    EnMedio([], BytesPeticion(p), []);
    assert [] + BytesPeticion(p) + [] == BytesPeticion(p);
    VueltaPeticion(paquete.stream, 0, p);
    q := lector.DeserializarPeticion(CodigoDe(p));
  }
}
