/** The wire format of the messages that carry a PCB: what the serializers write and what the readers make of any stream. */
module Codec {
  import opened Comunes

  /** What a reader leaves: the value and the cursor after it. */
  datatype Campo<+T> = Campo(valor: T, hasta: nat)

  /** `Falla` stands for reading past the end of the stream, or a string without its terminator. */
  datatype Lectura<+T> = Falla | Leido(campo: Campo<T>)
  {
    predicate IsFailure() { Falla? }
    function PropagateFailure<U>(): Lectura<U>
      requires Falla?
    {
      Falla
    }
    function Extract(): Campo<T>
      requires Leido?
    {
      campo
    }
  }

  /** The stream holds exactly these bytes from position `d` on. */
  ghost predicate En(s: seq<byte>, d: nat, w: seq<byte>) {
    d + |w| <= |s| && s[d..d + |w|] == w
  }

  lemma EnPartes(s: seq<byte>, d: nat, a: seq<byte>, b: seq<byte>)
    requires En(s, d, a + b)
    ensures En(s, d, a) && En(s, d + |a|, b)
  {
    var t := s[d..d + |a + b|];
    assert t[..|a|] == a && t[|a|..] == b;
    assert s[d..d + |a|] == t[..|a|];
    assert s[d + |a|..d + |a| + |b|] == t[|a|..];
  }

  /** A message between any two others. */
  lemma EnMedio(antes: seq<byte>, w: seq<byte>, despues: seq<byte>)
    ensures En(antes + w + despues, |antes|, w)
  {
  }

  // ---------------------------------------------------------------- integers

  /** The `k` low bytes of `n`, the lowest first. */
  function Bytes(n: nat, k: nat): (r: seq<byte>)
    ensures |r| == k
  {
    if k == 0 then [] else [(n % 256) as byte] + Bytes(n / 256, k - 1)
  }

  function Numero(b: seq<byte>): nat {
    if b == [] then 0 else b[0] as nat + 256 * Numero(b[1..])
  }

  function Potencia(k: nat): nat {
    if k == 0 then 1 else 256 * Potencia(k - 1)
  }

  lemma {:induction false} NumeroDeBytes(n: nat, k: nat)
    requires n < Potencia(k)
    ensures Numero(Bytes(n, k)) == n
  {
    if k > 0 {
      NumeroDeBytes(n / 256, k - 1);
      assert Bytes(n, k)[1..] == Bytes(n / 256, k - 1);
    }
  }

  const U32MAX: nat := 0x1_0000_0000
  const I64MAX: int := 0x8000_0000_0000_0000

  lemma Potencias()
    ensures Potencia(1) == 256 && Potencia(4) == U32MAX && Potencia(8) == 2 * I64MAX
  {
    assert Potencia(2) == 65536;
    assert Potencia(4) == U32MAX;
    assert Potencia(6) == 0x1_0000_0000_0000;
  }

  function U8(n: nat): (r: seq<byte>)
    ensures |r| == 1
  {
    Bytes(n, 1)
  }

  function U32(n: nat): (r: seq<byte>)
    ensures |r| == 4
  {
    Bytes(n, 4)
  }

  /** Two's complement. */
  function I64(x: int): (r: seq<byte>)
    requires -I64MAX <= x < I64MAX
    ensures |r| == 8
  {
    Bytes(if x >= 0 then x else x + 2 * I64MAX, 8)
  }

  function LeerNumero(s: seq<byte>, d: nat, k: nat): Lectura<nat> {
    if d + k <= |s| then Leido(Campo(Numero(s[d..d + k]), d + k)) else Falla
  }

  function LeerU8(s: seq<byte>, d: nat): Lectura<nat> {
    LeerNumero(s, d, 1)
  }

  function LeerU32(s: seq<byte>, d: nat): Lectura<nat> {
    LeerNumero(s, d, 4)
  }

  function LeerI64(s: seq<byte>, d: nat): Lectura<int> {
    var n :- LeerNumero(s, d, 8);
    Leido(Campo(if n.valor < I64MAX then n.valor else n.valor - 2 * I64MAX, n.hasta))
  }

  lemma VueltaNumero(s: seq<byte>, d: nat, n: nat, k: nat)
    requires n < Potencia(k) && En(s, d, Bytes(n, k))
    ensures LeerNumero(s, d, k) == Leido(Campo(n, d + k))
  {
    NumeroDeBytes(n, k);
  }

  lemma VueltaU8(s: seq<byte>, d: nat, n: nat)
    requires n < 256 && En(s, d, U8(n))
    ensures LeerU8(s, d) == Leido(Campo(n, d + 1))
  {
    Potencias();
    VueltaNumero(s, d, n, 1);
  }

  lemma VueltaU32(s: seq<byte>, d: nat, n: nat)
    requires n < U32MAX && En(s, d, U32(n))
    ensures LeerU32(s, d) == Leido(Campo(n, d + 4))
  {
    Potencias();
    VueltaNumero(s, d, n, 4);
  }

  lemma VueltaI64(s: seq<byte>, d: nat, x: int)
    requires -I64MAX <= x < I64MAX && En(s, d, I64(x))
    ensures LeerI64(s, d) == Leido(Campo(x, d + 8))
  {
    Potencias();
    VueltaNumero(s, d, if x >= 0 then x else x + 2 * I64MAX, 8);
  }

  // ---------------------------------------------------------------- strings

  /** A C string that fits in its length field. */
  predicate EsCadena(t: seq<byte>) {
    0 !in t && |t| + 1 < U32MAX
  }

  /** The length with the terminator, the characters and the terminator. */
  function Cadena(t: seq<byte>): seq<byte> {
    U32(|t| + 1) + (t + [0])
  }

  /** `deserializar_char`: `n` bytes, and the C string they hold. */
  function LeerChar(s: seq<byte>, d: nat, n: nat): Lectura<seq<byte>> {
    if d + n <= |s| && 0 in s[d..d + n] then Leido(Campo(s[d..d + n][..Indice(s[d..d + n], 0)], d + n)) else Falla
  }

  function LeerCadena(s: seq<byte>, d: nat): Lectura<seq<byte>> {
    var n :- LeerU32(s, d);
    LeerChar(s, n.hasta, n.valor)
  }

  lemma VueltaChar(s: seq<byte>, d: nat, t: seq<byte>)
    requires EsCadena(t) && En(s, d, t + [0])
    ensures LeerChar(s, d, |t| + 1) == Leido(Campo(t, d + |t| + 1))
  {
    var b := s[d..d + |t| + 1];
    assert b == t + [0];
    assert b[|t|] == 0;
    forall j | 0 <= j < |t| ensures b[j] != 0 {
      assert b[j] == t[j] && t[j] in t;
    }
    assert Indice(b, 0) == |t|;
    assert b[..|t|] == t;
  }

  lemma VueltaCadena(s: seq<byte>, d: nat, t: seq<byte>)
    requires EsCadena(t) && En(s, d, Cadena(t))
    ensures LeerCadena(s, d) == Leido(Campo(t, d + |Cadena(t)|))
  {
    EnPartes(s, d, U32(|t| + 1), t + [0]);
    VueltaU32(s, d, |t| + 1);
    VueltaChar(s, d + 4, t);
  }

  predicate EsOpcional(o: Option<seq<byte>>) {
    o.Some? ==> EsCadena(o.value)
  }

  /** A string that may be absent: length 0 is `NULL`. */
  function Opcional(o: Option<seq<byte>>): seq<byte> {
    match o
    case None => U32(0)
    case Some(t) => Cadena(t)
  }

  function LeerOpcional(s: seq<byte>, d: nat): Lectura<Option<seq<byte>>> {
    var n :- LeerU32(s, d);
    if n.valor > 0 then
      var t :- LeerChar(s, n.hasta, n.valor);
      Leido(Campo(Some(t.valor), t.hasta))
    else Leido(Campo(None, n.hasta))
  }

  lemma VueltaOpcional(s: seq<byte>, d: nat, o: Option<seq<byte>>)
    requires EsOpcional(o) && En(s, d, Opcional(o))
    ensures LeerOpcional(s, d) == Leido(Campo(o, d + |Opcional(o)|))
  {
    match o
    case None => VueltaU32(s, d, 0);
    case Some(t) =>
      EnPartes(s, d, U32(|t| + 1), t + [0]);
      VueltaU32(s, d, |t| + 1);
      VueltaChar(s, d + 4, t);
  }

  // ---------------------------------------------------------------- held resources

  predicate SonCadenas(ts: seq<seq<byte>>) {
    |ts| < U32MAX && forall i :: 0 <= i < |ts| ==> EsCadena(ts[i])
  }

  /** The first `n` strings, one after the other. */
  function Cadenas(ts: seq<seq<byte>>, n: nat): seq<byte>
    requires n <= |ts|
  {
    if n == 0 then [] else Cadenas(ts, n - 1) + Cadena(ts[n - 1])
  }

  /** The reader's loop: `n` strings. */
  function LeerCadenas(s: seq<byte>, d: nat, n: nat): Lectura<seq<seq<byte>>> {
    if n == 0 then Leido(Campo([], d))
    else
      var ts :- LeerCadenas(s, d, n - 1);
      var t :- LeerCadena(s, ts.hasta);
      Leido(Campo(ts.valor + [t.valor], t.hasta))
  }

  lemma {:induction false} VueltaCadenas(s: seq<byte>, d: nat, ts: seq<seq<byte>>, n: nat)
    requires SonCadenas(ts) && n <= |ts| && En(s, d, Cadenas(ts, n))
    ensures LeerCadenas(s, d, n) == Leido(Campo(ts[..n], d + |Cadenas(ts, n)|))
  {
    hide LeerCadena, Cadena, EsCadena;
    if n > 0 {
      EnPartes(s, d, Cadenas(ts, n - 1), Cadena(ts[n - 1]));
      VueltaCadenas(s, d, ts, n - 1);
      VueltaCadena(s, d + |Cadenas(ts, n - 1)|, ts[n - 1]);
      assert ts[..n] == ts[..n - 1] + [ts[n - 1]];
    }
  }

  function Tomados(ts: seq<seq<byte>>): seq<byte> {
    U32(|ts|) + Cadenas(ts, |ts|)
  }

  function LeerTomados(s: seq<byte>, d: nat): Lectura<seq<seq<byte>>> {
    var n :- LeerU32(s, d);
    LeerCadenas(s, n.hasta, n.valor)
  }

  lemma VueltaTomados(s: seq<byte>, d: nat, ts: seq<seq<byte>>)
    requires SonCadenas(ts) && En(s, d, Tomados(ts))
    ensures LeerTomados(s, d) == Leido(Campo(ts, d + |Tomados(ts)|))
  {
    hide LeerCadenas, Cadenas;
    EnPartes(s, d, U32(|ts|), Cadenas(ts, |ts|));
    VueltaU32(s, d, |ts|);
    VueltaCadenas(s, d + 4, ts, |ts|);
    assert ts[..|ts|] == ts;
  }

  // ---------------------------------------------------------------- registers and PCB

  datatype Registros = Registros(ax: nat, bx: nat, cx: nat, dx: nat, eax: nat, ebx: nat, ecx: nat, edx: nat, si: nat, di: nat, pc: nat)

  predicate SonRegistros(r: Registros) {
    && r.ax < 256 && r.bx < 256 && r.cx < 256 && r.dx < 256
    && r.eax < U32MAX && r.ebx < U32MAX && r.ecx < U32MAX && r.edx < U32MAX
    && r.si < U32MAX && r.di < U32MAX && r.pc < U32MAX
  }

  function DeOcho(r: Registros): seq<byte> {
    U8(r.ax) + (U8(r.bx) + (U8(r.cx) + U8(r.dx)))
  }

  function DeTreintaYDos(r: Registros): seq<byte> {
    U32(r.eax) + (U32(r.ebx) + (U32(r.ecx) + (U32(r.edx) + (U32(r.si) + (U32(r.di) + U32(r.pc))))))
  }

  function BytesRegistros(r: Registros): seq<byte> {
    DeOcho(r) + DeTreintaYDos(r)
  }

  function LeerRegistros(s: seq<byte>, d: nat): Lectura<Registros> {
    var ax :- LeerU8(s, d);
    var bx :- LeerU8(s, ax.hasta);
    var cx :- LeerU8(s, bx.hasta);
    var dx :- LeerU8(s, cx.hasta);
    var eax :- LeerU32(s, dx.hasta);
    var ebx :- LeerU32(s, eax.hasta);
    var ecx :- LeerU32(s, ebx.hasta);
    var edx :- LeerU32(s, ecx.hasta);
    var si :- LeerU32(s, edx.hasta);
    var di :- LeerU32(s, si.hasta);
    var pc :- LeerU32(s, di.hasta);
    Leido(Campo(Registros(ax.valor, bx.valor, cx.valor, dx.valor, eax.valor, ebx.valor, ecx.valor, edx.valor, si.valor, di.valor, pc.valor), pc.hasta))
  }

  lemma VueltaRegistros(s: seq<byte>, d: nat, r: Registros)
    requires SonRegistros(r) && En(s, d, BytesRegistros(r))
    ensures LeerRegistros(s, d) == Leido(Campo(r, d + |BytesRegistros(r)|))
  {
    hide En, U8, U32, LeerU8, LeerU32;
    EnPartes(s, d, DeOcho(r), DeTreintaYDos(r));
    EnPartes(s, d, U8(r.ax), U8(r.bx) + (U8(r.cx) + U8(r.dx)));
    EnPartes(s, d + 1, U8(r.bx), U8(r.cx) + U8(r.dx));
    EnPartes(s, d + 2, U8(r.cx), U8(r.dx));
    VueltaU8(s, d, r.ax);
    VueltaU8(s, d + 1, r.bx);
    VueltaU8(s, d + 2, r.cx);
    VueltaU8(s, d + 3, r.dx);
    var e := d + 4;
    EnPartes(s, e, U32(r.eax), U32(r.ebx) + (U32(r.ecx) + (U32(r.edx) + (U32(r.si) + (U32(r.di) + U32(r.pc))))));
    EnPartes(s, e + 4, U32(r.ebx), U32(r.ecx) + (U32(r.edx) + (U32(r.si) + (U32(r.di) + U32(r.pc)))));
    EnPartes(s, e + 8, U32(r.ecx), U32(r.edx) + (U32(r.si) + (U32(r.di) + U32(r.pc))));
    EnPartes(s, e + 12, U32(r.edx), U32(r.si) + (U32(r.di) + U32(r.pc)));
    EnPartes(s, e + 16, U32(r.si), U32(r.di) + U32(r.pc));
    EnPartes(s, e + 20, U32(r.di), U32(r.pc));
    VueltaU32(s, e, r.eax);
    VueltaU32(s, e + 4, r.ebx);
    VueltaU32(s, e + 8, r.ecx);
    VueltaU32(s, e + 12, r.edx);
    VueltaU32(s, e + 16, r.si);
    VueltaU32(s, e + 20, r.di);
    VueltaU32(s, e + 24, r.pc);
  }

  /** The serialized fields of a PCB. */
  datatype Pcb = Pcb(
    pc: nat, pid: nat, quantum: int, registros: Registros,
    esperando: Option<seq<byte>>, tomados: seq<seq<byte>>, estado: nat, tiempoInicial: int)

  predicate EsPcb(p: Pcb) {
    && p.pc < U32MAX && p.pid < U32MAX && -I64MAX <= p.quantum < I64MAX && SonRegistros(p.registros)
    && EsOpcional(p.esperando) && SonCadenas(p.tomados) && p.estado < U32MAX && -I64MAX <= p.tiempoInicial < I64MAX
  }

  function BytesPcb(p: Pcb): seq<byte>
    requires EsPcb(p)
  {
    U32(p.pc) + (U32(p.pid) + (I64(p.quantum) + (BytesRegistros(p.registros) +
    (Opcional(p.esperando) + (Tomados(p.tomados) + (U32(p.estado) + I64(p.tiempoInicial)))))))
  }

  function LeerPcb(s: seq<byte>, d: nat): Lectura<Pcb> {
    var pc :- LeerU32(s, d);
    var pid :- LeerU32(s, pc.hasta);
    var quantum :- LeerI64(s, pid.hasta);
    var registros :- LeerRegistros(s, quantum.hasta);
    var esperando :- LeerOpcional(s, registros.hasta);
    var tomados :- LeerTomados(s, esperando.hasta);
    var estado :- LeerU32(s, tomados.hasta);
    var tiempo :- LeerI64(s, estado.hasta);
    Leido(Campo(Pcb(pc.valor, pid.valor, quantum.valor, registros.valor, esperando.valor, tomados.valor, estado.valor, tiempo.valor), tiempo.hasta))
  }

  /** Reading a serialized PCB, wherever it is in a stream, gives every field back and stops at its last byte. */
  lemma VueltaPcb(s: seq<byte>, d: nat, p: Pcb)
    requires EsPcb(p) && En(s, d, BytesPcb(p))
    ensures LeerPcb(s, d) == Leido(Campo(p, d + |BytesPcb(p)|))
  {
    hide En, U32, I64, LeerU32, LeerI64, BytesRegistros, LeerRegistros, Opcional, LeerOpcional, Tomados, LeerTomados,
         SonRegistros, EsOpcional, SonCadenas;
    var g, h := U32(p.estado) + I64(p.tiempoInicial), I64(p.tiempoInicial);
    var f := Tomados(p.tomados) + g;
    var e := Opcional(p.esperando) + f;
    var c := BytesRegistros(p.registros) + e;
    var b := I64(p.quantum) + c;
    var a := U32(p.pid) + b;
    EnPartes(s, d, U32(p.pc), a);
    EnPartes(s, d + 4, U32(p.pid), b);
    EnPartes(s, d + 8, I64(p.quantum), c);
    EnPartes(s, d + 16, BytesRegistros(p.registros), e);
    var d1 := d + 16 + |BytesRegistros(p.registros)|;
    EnPartes(s, d1, Opcional(p.esperando), f);
    var d2 := d1 + |Opcional(p.esperando)|;
    EnPartes(s, d2, Tomados(p.tomados), g);
    var d3 := d2 + |Tomados(p.tomados)|;
    EnPartes(s, d3, U32(p.estado), h);
    VueltaU32(s, d, p.pc);
    VueltaU32(s, d + 4, p.pid);
    VueltaI64(s, d + 8, p.quantum);
    VueltaRegistros(s, d + 16, p.registros);
    VueltaOpcional(s, d1, p.esperando);
    VueltaTomados(s, d2, p.tomados);
    VueltaU32(s, d3, p.estado);
    VueltaI64(s, d3 + 4, p.tiempoInicial);
  }

  // ---------------------------------------------------------------- execution context

  datatype Contexto = Contexto(pcb: Pcb, motivo: nat, recurso: Option<seq<byte>>)

  predicate EsContexto(c: Contexto) {
    EsPcb(c.pcb) && c.motivo < U32MAX && EsOpcional(c.recurso)
  }

  function BytesContexto(c: Contexto): seq<byte>
    requires EsContexto(c)
  {
    BytesPcb(c.pcb) + (U32(c.motivo) + Opcional(c.recurso))
  }

  function LeerContexto(s: seq<byte>, d: nat): Lectura<Contexto> {
    var pcb :- LeerPcb(s, d);
    var motivo :- LeerU32(s, pcb.hasta);
    var recurso :- LeerOpcional(s, motivo.hasta);
    Leido(Campo(Contexto(pcb.valor, motivo.valor, recurso.valor), recurso.hasta))
  }

  lemma VueltaContexto(s: seq<byte>, d: nat, c: Contexto)
    requires EsContexto(c) && En(s, d, BytesContexto(c))
    ensures LeerContexto(s, d) == Leido(Campo(c, d + |BytesContexto(c)|))
  {
    hide En, U32, LeerU32, BytesPcb, LeerPcb, Opcional, LeerOpcional, EsPcb, EsOpcional;
    EnPartes(s, d, BytesPcb(c.pcb), U32(c.motivo) + Opcional(c.recurso));
    var e := d + |BytesPcb(c.pcb)|;
    EnPartes(s, e, U32(c.motivo), Opcional(c.recurso));
    VueltaPcb(s, d, c.pcb);
    VueltaU32(s, e, c.motivo);
    VueltaOpcional(s, e + 4, c.recurso);
  }

  // ---------------------------------------------------------------- physical addresses

  datatype DirFisica = DirFisica(pid: nat, marco: nat, desplazamiento: nat)

  predicate EsDir(f: DirFisica) {
    f.pid < U32MAX && f.marco < U32MAX && f.desplazamiento < U32MAX
  }

  function BytesDir(f: DirFisica): (r: seq<byte>)
    ensures |r| == 12
  {
    U32(f.pid) + (U32(f.marco) + U32(f.desplazamiento))
  }

  function LeerDir(s: seq<byte>, d: nat): Lectura<DirFisica> {
    var pid :- LeerU32(s, d);
    var marco :- LeerU32(s, pid.hasta);
    var desplazamiento :- LeerU32(s, marco.hasta);
    Leido(Campo(DirFisica(pid.valor, marco.valor, desplazamiento.valor), desplazamiento.hasta))
  }

  lemma VueltaDir(s: seq<byte>, d: nat, f: DirFisica)
    requires EsDir(f) && En(s, d, BytesDir(f))
    ensures LeerDir(s, d) == Leido(Campo(f, d + 12))
  {
    hide En, U32, LeerU32;
    EnPartes(s, d, U32(f.pid), U32(f.marco) + U32(f.desplazamiento));
    EnPartes(s, d + 4, U32(f.marco), U32(f.desplazamiento));
    VueltaU32(s, d, f.pid);
    VueltaU32(s, d + 4, f.marco);
    VueltaU32(s, d + 8, f.desplazamiento);
  }

  // ---------------------------------------------------------------- I/O requests

  /** The requests of the CPU to the kernel whose writer and reader agree. */
  datatype Peticion =
    | GenSleep(cde: Contexto, interfaz: seq<byte>, unidades: nat)
    | StdoutWrite(cde: Contexto, dir: DirFisica, interfaz: seq<byte>, tam: nat)
    | FsCreate(cde: Contexto, interfaz: seq<byte>, nombre: seq<byte>)
    | FsDelete(cde: Contexto, interfaz: seq<byte>, nombre: seq<byte>)
    | FsTruncate(cde: Contexto, interfaz: seq<byte>, nombre: seq<byte>, tam: nat)
    | FsWrite(cde: Contexto, interfaz: seq<byte>, nombre: seq<byte>, tam: nat, dir: DirFisica, posicion: nat)
    | FsRead(cde: Contexto, interfaz: seq<byte>, nombre: seq<byte>, tam: nat, dir: DirFisica, posicion: nat)

  predicate EsPeticion(p: Peticion) {
    && EsContexto(p.cde) && EsCadena(p.interfaz)
    && match p
       case GenSleep(_, _, unidades) => unidades < U32MAX
       case StdoutWrite(_, dir, _, tam) => EsDir(dir) && tam < U32MAX
       case FsCreate(_, _, nombre) => EsCadena(nombre)
       case FsDelete(_, _, nombre) => EsCadena(nombre)
       case FsTruncate(_, _, nombre, tam) => EsCadena(nombre) && tam < U32MAX
       case FsWrite(_, _, nombre, tam, dir, posicion) => EsCadena(nombre) && tam < U32MAX && EsDir(dir) && posicion < U32MAX
       case FsRead(_, _, nombre, tam, dir, posicion) => EsCadena(nombre) && tam < U32MAX && EsDir(dir) && posicion < U32MAX
  }

  /** What comes after the execution context. */
  function BytesResto(p: Peticion): seq<byte> {
    match p
    case GenSleep(_, interfaz, unidades) => Cadena(interfaz) + U32(unidades)
    case StdoutWrite(_, dir, interfaz, tam) => BytesDir(dir) + (Cadena(interfaz) + U32(tam))
    case FsCreate(_, interfaz, nombre) => Cadena(interfaz) + Cadena(nombre)
    case FsDelete(_, interfaz, nombre) => Cadena(interfaz) + Cadena(nombre)
    case FsTruncate(_, interfaz, nombre, tam) => Cadena(interfaz) + (Cadena(nombre) + U32(tam))
    case FsWrite(_, interfaz, nombre, tam, dir, posicion) => Cadena(interfaz) + (Cadena(nombre) + (U32(tam) + (BytesDir(dir) + U32(posicion))))
    case FsRead(_, interfaz, nombre, tam, dir, posicion) => Cadena(interfaz) + (Cadena(nombre) + (U32(tam) + (BytesDir(dir) + U32(posicion))))
  }

  function BytesPeticion(p: Peticion): seq<byte>
    requires EsPeticion(p)
  {
    BytesContexto(p.cde) + BytesResto(p)
  }

  datatype Codigo = CGenSleep | CStdoutWrite | CFsCreate | CFsDelete | CFsTruncate | CFsWrite | CFsRead

  /** The operation code that travels before the message. */
  function CodigoDe(p: Peticion): Codigo {
    match p
    case GenSleep(_, _, _) => CGenSleep
    case StdoutWrite(_, _, _, _) => CStdoutWrite
    case FsCreate(_, _, _) => CFsCreate
    case FsDelete(_, _, _) => CFsDelete
    case FsTruncate(_, _, _, _) => CFsTruncate
    case FsWrite(_, _, _, _, _, _) => CFsWrite
    case FsRead(_, _, _, _, _, _) => CFsRead
  }

  datatype Archivo = Archivo(interfaz: seq<byte>, nombre: seq<byte>)

  function LeerArchivo(s: seq<byte>, d: nat): Lectura<Archivo> {
    var interfaz :- LeerCadena(s, d);
    var nombre :- LeerCadena(s, interfaz.hasta);
    Leido(Campo(Archivo(interfaz.valor, nombre.valor), nombre.hasta))
  }

  datatype Rango = Rango(tam: nat, dir: DirFisica, posicion: nat)

  function LeerRango(s: seq<byte>, d: nat): Lectura<Rango> {
    var tam :- LeerU32(s, d);
    var dir :- LeerDir(s, tam.hasta);
    var posicion :- LeerU32(s, dir.hasta);
    Leido(Campo(Rango(tam.valor, dir.valor, posicion.valor), posicion.hasta))
  }

  /** The reader that goes with each operation code. */
  function LeerPeticion(codigo: Codigo, s: seq<byte>, d: nat): Lectura<Peticion> {
    var c :- LeerContexto(s, d);
    LeerResto(codigo, c.valor, s, c.hasta)
  }

  /** What comes after the execution context `c`. */
  function LeerResto(codigo: Codigo, c: Contexto, s: seq<byte>, d: nat): Lectura<Peticion> {
    match codigo
    case CGenSleep =>
      var i :- LeerCadena(s, d);
      var u :- LeerU32(s, i.hasta);
      Leido(Campo(GenSleep(c, i.valor, u.valor), u.hasta))
    case CStdoutWrite =>
      var f :- LeerDir(s, d);
      var i :- LeerCadena(s, f.hasta);
      var t :- LeerU32(s, i.hasta);
      Leido(Campo(StdoutWrite(c, f.valor, i.valor, t.valor), t.hasta))
    case CFsCreate =>
      var a :- LeerArchivo(s, d);
      Leido(Campo(FsCreate(c, a.valor.interfaz, a.valor.nombre), a.hasta))
    case CFsDelete =>
      var a :- LeerArchivo(s, d);
      Leido(Campo(FsDelete(c, a.valor.interfaz, a.valor.nombre), a.hasta))
    case CFsTruncate =>
      var a :- LeerArchivo(s, d);
      var t :- LeerU32(s, a.hasta);
      Leido(Campo(FsTruncate(c, a.valor.interfaz, a.valor.nombre, t.valor), t.hasta))
    case CFsWrite =>
      var a :- LeerArchivo(s, d);
      var r :- LeerRango(s, a.hasta);
      Leido(Campo(FsWrite(c, a.valor.interfaz, a.valor.nombre, r.valor.tam, r.valor.dir, r.valor.posicion), r.hasta))
    case CFsRead =>
      var a :- LeerArchivo(s, d);
      var r :- LeerRango(s, a.hasta);
      Leido(Campo(FsRead(c, a.valor.interfaz, a.valor.nombre, r.valor.tam, r.valor.dir, r.valor.posicion), r.hasta))
  }

  lemma VueltaArchivo(s: seq<byte>, d: nat, interfaz: seq<byte>, nombre: seq<byte>)
    requires EsCadena(interfaz) && EsCadena(nombre) && En(s, d, Cadena(interfaz)) && En(s, d + |Cadena(interfaz)|, Cadena(nombre))
    ensures LeerArchivo(s, d) == Leido(Campo(Archivo(interfaz, nombre), d + |Cadena(interfaz)| + |Cadena(nombre)|))
  {
    hide En, Cadena, LeerCadena, EsCadena;
    VueltaCadena(s, d, interfaz);
    VueltaCadena(s, d + |Cadena(interfaz)|, nombre);
  }

  lemma VueltaRango(s: seq<byte>, d: nat, tam: nat, dir: DirFisica, posicion: nat)
    requires tam < U32MAX && EsDir(dir) && posicion < U32MAX && En(s, d, U32(tam) + (BytesDir(dir) + U32(posicion)))
    ensures LeerRango(s, d) == Leido(Campo(Rango(tam, dir, posicion), d + 20))
  {
    hide En, U32, LeerU32, BytesDir, LeerDir, EsDir;
    EnPartes(s, d, U32(tam), BytesDir(dir) + U32(posicion));
    EnPartes(s, d + 4, BytesDir(dir), U32(posicion));
    VueltaU32(s, d, tam);
    VueltaDir(s, d + 4, dir);
    VueltaU32(s, d + 16, posicion);
  }

  /** Every request, wherever it is in a stream, is read back whole by the reader of its code: the PCB with its held
      resources inside the context inside the request, and the cursor right after its last byte. */
  lemma VueltaPeticion(s: seq<byte>, d: nat, p: Peticion)
    requires EsPeticion(p) && En(s, d, BytesPeticion(p))
    ensures LeerPeticion(CodigoDe(p), s, d) == Leido(Campo(p, d + |BytesPeticion(p)|))
  {
    hide En, BytesContexto, LeerContexto, EsContexto, EsPeticion, BytesResto, LeerResto, CodigoDe;
    PeticionConContexto(p);
    EnPartes(s, d, BytesContexto(p.cde), BytesResto(p));
    VueltaContexto(s, d, p.cde);
    VueltaResto(s, d + |BytesContexto(p.cde)|, p);
  }

  lemma PeticionConContexto(p: Peticion)
    requires EsPeticion(p)
    ensures EsContexto(p.cde)
  {
  }

  lemma VueltaResto(s: seq<byte>, e: nat, p: Peticion)
    requires EsPeticion(p) && En(s, e, BytesResto(p))
    ensures LeerResto(CodigoDe(p), p.cde, s, e) == Leido(Campo(p, e + |BytesResto(p)|))
  {
    hide En, U32, LeerU32, BytesDir, LeerDir, EsDir, Cadena, LeerCadena, EsCadena, EsContexto, LeerArchivo, LeerRango;
    var i := e + |Cadena(p.interfaz)|;
    match p
    case GenSleep(_, interfaz, unidades) =>
      EnPartes(s, e, Cadena(interfaz), U32(unidades));
      VueltaCadena(s, e, interfaz);
      VueltaU32(s, i, unidades);
    case StdoutWrite(_, dir, interfaz, tam) => VueltaStdout(s, e, p);
    case FsCreate(_, interfaz, nombre) =>
      EnPartes(s, e, Cadena(interfaz), Cadena(nombre));
      VueltaArchivo(s, e, interfaz, nombre);
    case FsDelete(_, interfaz, nombre) =>
      EnPartes(s, e, Cadena(interfaz), Cadena(nombre));
      VueltaArchivo(s, e, interfaz, nombre);
    case FsTruncate(_, interfaz, nombre, tam) => VueltaTruncate(s, e, p);
    case FsWrite(_, interfaz, nombre, tam, dir, posicion) =>
      VueltaArchivoYRango(s, e, interfaz, nombre, tam, dir, posicion);
    case FsRead(_, interfaz, nombre, tam, dir, posicion) =>
      VueltaArchivoYRango(s, e, interfaz, nombre, tam, dir, posicion);
  }

  lemma VueltaStdout(s: seq<byte>, e: nat, p: Peticion)
    requires p.StdoutWrite? && EsPeticion(p) && En(s, e, BytesResto(p))
    ensures LeerResto(CStdoutWrite, p.cde, s, e) == Leido(Campo(p, e + |BytesResto(p)|))
  {
    hide En, U32, LeerU32, BytesDir, LeerDir, EsDir, Cadena, LeerCadena, EsCadena, EsContexto;
    EnPartes(s, e, BytesDir(p.dir), Cadena(p.interfaz) + U32(p.tam));
    EnPartes(s, e + 12, Cadena(p.interfaz), U32(p.tam));
    VueltaDir(s, e, p.dir);
    VueltaCadena(s, e + 12, p.interfaz);
    VueltaU32(s, e + 12 + |Cadena(p.interfaz)|, p.tam);
  }

  lemma VueltaTruncate(s: seq<byte>, e: nat, p: Peticion)
    requires p.FsTruncate? && EsPeticion(p) && En(s, e, BytesResto(p))
    ensures LeerResto(CFsTruncate, p.cde, s, e) == Leido(Campo(p, e + |BytesResto(p)|))
  {
    hide En, U32, LeerU32, Cadena, EsCadena, EsContexto, LeerArchivo;
    var i := e + |Cadena(p.interfaz)|;
    EnPartes(s, e, Cadena(p.interfaz), Cadena(p.nombre) + U32(p.tam));
    EnPartes(s, i, Cadena(p.nombre), U32(p.tam));
    VueltaArchivo(s, e, p.interfaz, p.nombre);
    VueltaU32(s, i + |Cadena(p.nombre)|, p.tam);
  }

  lemma VueltaArchivoYRango(s: seq<byte>, d: nat, interfaz: seq<byte>, nombre: seq<byte>, tam: nat, dir: DirFisica, posicion: nat)
    requires EsCadena(interfaz) && EsCadena(nombre) && tam < U32MAX && EsDir(dir) && posicion < U32MAX
    requires En(s, d, Cadena(interfaz) + (Cadena(nombre) + (U32(tam) + (BytesDir(dir) + U32(posicion)))))
    ensures var a := LeerArchivo(s, d);
            && a == Leido(Campo(Archivo(interfaz, nombre), d + |Cadena(interfaz)| + |Cadena(nombre)|))
            && LeerRango(s, a.campo.hasta) == Leido(Campo(Rango(tam, dir, posicion), a.campo.hasta + 20))
  {
    hide En, U32, Cadena, EsCadena, BytesDir, EsDir, LeerArchivo, LeerRango;
    var resto := U32(tam) + (BytesDir(dir) + U32(posicion));
    EnPartes(s, d, Cadena(interfaz), Cadena(nombre) + resto);
    EnPartes(s, d + |Cadena(interfaz)|, Cadena(nombre), resto);
    VueltaArchivo(s, d, interfaz, nombre);
    VueltaRango(s, d + |Cadena(interfaz)| + |Cadena(nombre)|, tam, dir, posicion);
  }

  /** One message after another: the second is read from where the first ended. */
  lemma DosPeticiones(p: Peticion, q: Peticion, despues: seq<byte>)
    requires EsPeticion(p) && EsPeticion(q)
    ensures var s := BytesPeticion(p) + BytesPeticion(q) + despues;
            var a := LeerPeticion(CodigoDe(p), s, 0);
            && a.Leido? && a.campo.valor == p
            && LeerPeticion(CodigoDe(q), s, a.campo.hasta) == Leido(Campo(q, |BytesPeticion(p)| + |BytesPeticion(q)|))
  {
    hide BytesPeticion, LeerPeticion, EsPeticion;
    var s := BytesPeticion(p) + BytesPeticion(q) + despues;
    EnMedio([], BytesPeticion(p), BytesPeticion(q) + despues);
    assert s == [] + BytesPeticion(p) + (BytesPeticion(q) + despues);
    EnMedio(BytesPeticion(p), BytesPeticion(q), despues);
    VueltaPeticion(s, 0, p);
    VueltaPeticion(s, |BytesPeticion(p)|, q);
  }

  // ---------------------------------------------------------------- a request that is not read as it is written

  datatype Registro = Registro8(dato: nat) | Registro32(dato: nat)

  predicate EsRegistro(r: Registro) {
    match r
    case Registro8(dato) => dato < 256
    case Registro32(dato) => dato < U32MAX
  }

  /** Type 1 and a byte, or type 2 and four. */
  function BytesRegistro(r: Registro): seq<byte> {
    match r
    case Registro8(dato) => U8(1) + U8(dato)
    case Registro32(dato) => U8(2) + U32(dato)
  }

  function LeerRegistro(s: seq<byte>, d: nat): Lectura<Registro> {
    var tipo :- LeerU8(s, d);
    if tipo.valor == 1 then
      var dato :- LeerU8(s, tipo.hasta);
      Leido(Campo(Registro8(dato.valor), dato.hasta))
    else
      var dato :- LeerU32(s, tipo.hasta);
      Leido(Campo(Registro32(dato.valor), dato.hasta))
  }

  /** A register is read back. */
  lemma VueltaRegistro(s: seq<byte>, d: nat, r: Registro)
    requires EsRegistro(r) && En(s, d, BytesRegistro(r))
    ensures LeerRegistro(s, d) == Leido(Campo(r, d + |BytesRegistro(r)|))
  {
    match r
    case Registro8(dato) =>
      EnPartes(s, d, U8(1), U8(dato));
      VueltaU8(s, d, 1);
      VueltaU8(s, d + 1, dato);
    case Registro32(dato) =>
      EnPartes(s, d, U8(2), U32(dato));
      VueltaU8(s, d, 2);
      VueltaU32(s, d + 1, dato);
  }

  /** The standard-input request writes the name of the interface twice. */
  function BytesStdin(c: Contexto, interfaz: seq<byte>, f: DirFisica, r: Registro): seq<byte>
    requires EsContexto(c)
  {
    BytesContexto(c) + (Cadena(interfaz) + (BytesDir(f) + (Cadena(interfaz) + BytesRegistro(r))))
  }

  datatype Stdin = Stdin(cde: Contexto, interfaz: seq<byte>, dir: DirFisica, tam: Registro)

  function LeerStdin(s: seq<byte>, d: nat): Lectura<Stdin> {
    var c :- LeerContexto(s, d);
    var i :- LeerCadena(s, c.hasta);
    var f :- LeerDir(s, i.hasta);
    var r :- LeerRegistro(s, f.hasta);
    Leido(Campo(Stdin(c.valor, i.valor, f.valor, r.valor), r.hasta))
  }

  /** Its reader takes the length of the second name for the register, so it never reaches the end of the message. */
  lemma StdinNoVuelve(s: seq<byte>, d: nat, c: Contexto, interfaz: seq<byte>, f: DirFisica, r: Registro)
    requires EsContexto(c) && EsCadena(interfaz) && EsDir(f) && EsRegistro(r) && En(s, d, BytesStdin(c, interfaz, f, r))
    ensures var l := LeerStdin(s, d);
            && l.Leido? && l.campo.hasta < d + |BytesStdin(c, interfaz, f, r)|
            && (l.campo.valor.tam.Registro8? <==> (|interfaz| + 1) % 256 == 1)
  {
    hide En, U32, LeerU32, BytesDir, LeerDir, EsDir, Cadena, LeerCadena, EsCadena, BytesContexto, LeerContexto, EsContexto,
         BytesRegistro, LeerRegistro;
    EnPartes(s, d, BytesContexto(c), Cadena(interfaz) + (BytesDir(f) + (Cadena(interfaz) + BytesRegistro(r))));
    var e := d + |BytesContexto(c)|;
    EnPartes(s, e, Cadena(interfaz), BytesDir(f) + (Cadena(interfaz) + BytesRegistro(r)));
    var g := e + |Cadena(interfaz)|;
    EnPartes(s, g, BytesDir(f), Cadena(interfaz) + BytesRegistro(r));
    VueltaContexto(s, d, c);
    VueltaCadena(s, e, interfaz);
    VueltaDir(s, g, f);
    EnPartes(s, g + 12, Cadena(interfaz), BytesRegistro(r));
    LargoComoRegistro(s, g + 12, interfaz, r);
  }

  lemma LargoComoRegistro(s: seq<byte>, d: nat, t: seq<byte>, r: Registro)
    requires EsCadena(t) && En(s, d, Cadena(t)) && En(s, d + |Cadena(t)|, BytesRegistro(r))
    ensures var l := LeerRegistro(s, d);
            && l.Leido? && l.campo.hasta < d + |Cadena(t)| + |BytesRegistro(r)|
            && (l.campo.valor.Registro8? <==> (|t| + 1) % 256 == 1)
  {
    EnPartes(s, d, U32(|t| + 1), t + [0]);
    assert s[d] == U32(|t| + 1)[0] == ((|t| + 1) % 256) as byte;
    assert s[d..d + 1] == [s[d]];
    assert Numero([s[d]]) == s[d] as nat;
  }
}
