/** The memory module as the object its code updates in place. */
module MemoriaUsuario {
  import opened Comunes
  import opened Paginacion
  import opened Acceso

  // ---------------------------------------------------------------- chunk loops

  /** Where a chunk loop stands: `hecho` bytes done, next chunk at `direccion`, in page `pagina`. */
  ghost predicate Vuelta(c: Camino, n: nat, hecho: nat, restante: nat, pagina: int, direccion: int) {
    && c.tam > 0 && hecho + restante == n
    && (restante > 0 ==> Sobra(hecho, c.tam) == 0 && pagina == c.pagina + Unidad(hecho, c.tam) && direccion == Dir(c, hecho))
  }

  lemma DirDelTrozo(c: Camino, hecho: nat, i: nat)
    requires c.tam > 0 && Sobra(hecho, c.tam) == 0 && i < c.tam
    ensures Dir(c, hecho + i) == Dir(c, hecho) + i
  {
    hide Posicion, Unidad, Sobra;
    EnSuUnidad(hecho, c.tam);
    UnidadYSobra(Unidad(hecho, c.tam), c.tam, i);
  }

  /** `obtener_marco_de_direccion`. */
  function MarcoDeDireccion(direccion: nat, tamPagina: nat): nat
    requires tamPagina > 0
  {
    Unidad(direccion, tamPagina)
  }

  /** The same offset as `direccion`'s, in another frame. */
  function ProximaDireccion(marco: nat, tamPagina: nat, direccion: nat): nat
    requires tamPagina > 0
  {
    Posicion(marco, tamPagina) + Sobra(direccion, tamPagina)
  }

  /** The chunk lies in memory, so does the page of the next one, which starts at the next address. */
  lemma SiguienteVuelta(c: Camino, n: nat, largo: nat, hecho: nat, restante: nat, pagina: int, direccion: int)
    requires Dentro(c, n, largo) && Vuelta(c, n, hecho, restante, pagina, direccion) && restante > 0
    ensures var trozo := if restante > c.tam then c.tam else restante;
            var proxima := if restante > c.tam then pagina + 1 else pagina;
            && 0 <= direccion && direccion + trozo <= largo && 0 <= proxima && Sobra(direccion, c.tam) == c.corrimiento && proxima < |c.tabla|
            && Vuelta(c, n, hecho + trozo, restante - trozo, proxima, ProximaDireccion(c.tabla[proxima], c.tam, direccion))
  {
    var trozo := if restante > c.tam then c.tam else restante;
    var q := Unidad(hecho, c.tam);
    assert c.tam > 0;
    PaginaDentro(c, n, hecho);
    EnSuUnidad(hecho, c.tam);
    DirDelTrozo(c, hecho, trozo - 1);
    UnidadYSobra(c.tabla[pagina], c.tam, c.corrimiento);
    if restante > c.tam {
      PaginaDentro(c, n, hecho + trozo);
      ProximaUnidad(hecho, q, c.tam);
    }
  }

  lemma ProximaUnidad(hecho: nat, q: nat, tam: nat)
    requires tam > 0 && hecho == Posicion(q, tam)
    ensures Unidad(hecho + tam, tam) == q + 1 && Sobra(hecho + tam, tam) == 0
  {
    PosicionSuma(q, 1, tam);
    UnidadYSobra(q + 1, tam, 0);
  }

  /** Copying one chunk is writing its bytes one by one. */
  lemma {:induction false} TrozoEscrito(bytes: seq<byte>, c: Camino, datos: seq<byte>, hecho: nat, n: nat)
    requires Dentro(c, |datos|, |bytes|) && hecho + n <= |datos| && Sobra(hecho, c.tam) == 0 && n <= c.tam
    requires Dir(c, hecho) + n <= |bytes|
    ensures Escritos(bytes, c, datos, hecho + n) == Pegar(Escritos(bytes, c, datos, hecho), Dir(c, hecho), datos[hecho..hecho + n])
  {
    hide Dentro, Dir, Pegar;
    if n > 0 {
      TrozoEscrito(bytes, c, datos, hecho, n - 1);
      DirDelTrozo(c, hecho, n - 1);
      var t := datos[hecho..hecho + n];
      assert t[..n - 1] == datos[hecho..hecho + n - 1];
      PegarUnoMas(Escritos(bytes, c, datos, hecho), Dir(c, hecho), t);
    } else {
      PegarNada(Escritos(bytes, c, datos, hecho), Dir(c, hecho), datos[hecho..hecho + n]);
    }
  }

  /** A buffer once the first `hecho` bytes of an access have been read into it, one by one. */
  function Copiados(bytes: seq<byte>, c: Camino, n: nat, hecho: nat, resto: seq<byte>): (r: seq<byte>)
    requires hecho <= n <= |resto| && Dentro(c, n, |bytes|)
    ensures |r| == |resto|
  {
    if hecho == 0 then resto else Copiados(bytes, c, n, hecho - 1, resto)[hecho - 1 := bytes[Dir(c, hecho - 1)]]
  }

  /** Copying one chunk is reading its bytes one by one. */
  lemma {:induction false} TrozoLeido(bytes: seq<byte>, c: Camino, n: nat, hecho: nat, trozo: nat, resto: seq<byte>)
    requires Dentro(c, n, |bytes|) && hecho + trozo <= n <= |resto| && Sobra(hecho, c.tam) == 0 && trozo <= c.tam
    requires Dir(c, hecho) + trozo <= |bytes|
    ensures Copiados(bytes, c, n, hecho + trozo, resto)
            == Pegar(Copiados(bytes, c, n, hecho, resto), hecho, bytes[Dir(c, hecho)..Dir(c, hecho) + trozo])
  {
    hide Dentro, Dir, Pegar;
    var t := bytes[Dir(c, hecho)..Dir(c, hecho) + trozo];
    if trozo > 0 {
      TrozoLeido(bytes, c, n, hecho, trozo - 1, resto);
      DirDelTrozo(c, hecho, trozo - 1);
      assert t[..trozo - 1] == bytes[Dir(c, hecho)..Dir(c, hecho) + trozo - 1];
      PegarUnoMas(Copiados(bytes, c, n, hecho, resto), hecho, t);
    } else {
      PegarNada(Copiados(bytes, c, n, hecho, resto), hecho, t);
    }
  }

  lemma {:induction false} CopiadosEs(bytes: seq<byte>, c: Camino, n: nat, hecho: nat, resto: seq<byte>)
    requires hecho <= n <= |resto| && Dentro(c, n, |bytes|)
    ensures Copiados(bytes, c, n, hecho, resto) == Pegar(resto, 0, Leidos(bytes, c, n)[..hecho])
  {
    hide Dentro, Dir;
    if hecho > 0 {
      CopiadosEs(bytes, c, n, hecho - 1, resto);
    }
  }

  /** A write loop after `hecho` bytes: memory is what writing those one by one makes of it. */
  ghost predicate Escribiendo(m: Memoria, pid: nat, dir: nat, datos: seq<byte>, hecho: nat, restante: nat, pagina: int, direccion: int, bytes: seq<byte>) {
    && Accesible(m, pid, dir, |datos|) && hecho + restante == |datos|
    && if datos == [] then bytes == m.bytes else
         && Vuelta(CaminoDe(m, pid, dir), |datos|, hecho, restante, pagina, direccion)
         && bytes == Escritos(m.bytes, CaminoDe(m, pid, dir), datos, hecho)
  }

  /** A read loop after `hecho` bytes: the buffer holds those, read one by one. */
  ghost predicate Leyendo(m: Memoria, pid: nat, dir: nat, n: nat, hecho: nat, restante: nat, pagina: int, direccion: int, buffer: seq<byte>, resto: seq<byte>) {
    && Accesible(m, pid, dir, n) && hecho + restante == n <= |resto|
    && if n == 0 then buffer == resto else
         && Vuelta(CaminoDe(m, pid, dir), n, hecho, restante, pagina, direccion)
         && buffer == Copiados(m.bytes, CaminoDe(m, pid, dir), n, hecho, resto)
  }

  lemma OtroTrozoEscrito(m: Memoria, pid: nat, dir: nat, datos: seq<byte>, hecho: nat, restante: nat, pagina: int, direccion: int, bytes: seq<byte>)
    returns (trozo: nat, proxima: int)
    requires Escribiendo(m, pid, dir, datos, hecho, restante, pagina, direccion, bytes) && restante > 0
    ensures m.tamPagina > 0 && pid in m.tablas && trozo == (if restante > m.tamPagina then m.tamPagina else restante)
    ensures proxima == (if restante > m.tamPagina then pagina + 1 else pagina) && 0 <= proxima < |m.tablas[pid]|
    ensures 0 <= direccion && direccion + trozo <= |m.bytes| && |bytes| == |m.bytes|
    ensures Escribiendo(m, pid, dir, datos, hecho + trozo, restante - trozo, proxima,
                        ProximaDireccion(m.tablas[pid][proxima], m.tamPagina, direccion),
                        Pegar(bytes, direccion, datos[hecho..hecho + trozo]))
  {
    var c := CaminoDe(m, pid, dir);
    hide Vuelta, Dentro, Dir, Posicion, Unidad, Sobra, Indice, Escritos;
    SiguienteVuelta(c, |datos|, |m.bytes|, hecho, restante, pagina, direccion);
    trozo := if restante > m.tamPagina then m.tamPagina else restante;
    proxima := if restante > m.tamPagina then pagina + 1 else pagina;
    EnVuelta(c, |datos|, hecho, restante, pagina, direccion);
    TrozoEscrito(m.bytes, c, datos, hecho, trozo);
  }

  lemma EnVuelta(c: Camino, n: nat, hecho: nat, restante: nat, pagina: int, direccion: int)
    requires Vuelta(c, n, hecho, restante, pagina, direccion) && restante > 0
    ensures c.tam > 0 && Sobra(hecho, c.tam) == 0 && direccion == Dir(c, hecho)
  {
  }

  lemma OtroTrozoLeido(m: Memoria, pid: nat, dir: nat, n: nat, hecho: nat, restante: nat, pagina: int, direccion: int, buffer: seq<byte>, resto: seq<byte>)
    returns (trozo: nat, proxima: int)
    requires Leyendo(m, pid, dir, n, hecho, restante, pagina, direccion, buffer, resto) && restante > 0
    ensures m.tamPagina > 0 && pid in m.tablas && trozo == (if restante > m.tamPagina then m.tamPagina else restante)
    ensures proxima == (if restante > m.tamPagina then pagina + 1 else pagina) && 0 <= proxima < |m.tablas[pid]|
    ensures 0 <= direccion && direccion + trozo <= |m.bytes| && hecho + trozo <= |buffer| == |resto|
    ensures Leyendo(m, pid, dir, n, hecho + trozo, restante - trozo, proxima,
                    ProximaDireccion(m.tablas[pid][proxima], m.tamPagina, direccion),
                    Pegar(buffer, hecho, m.bytes[direccion..direccion + trozo]), resto)
  {
    var c := CaminoDe(m, pid, dir);
    hide Vuelta, Dentro, Dir, Posicion, Unidad, Sobra, Indice, Copiados;
    SiguienteVuelta(c, n, |m.bytes|, hecho, restante, pagina, direccion);
    trozo := if restante > m.tamPagina then m.tamPagina else restante;
    proxima := if restante > m.tamPagina then pagina + 1 else pagina;
    EnVuelta(c, n, hecho, restante, pagina, direccion);
    TrozoLeido(m.bytes, c, n, hecho, trozo, resto);
  }

  lemma Termina(m: Memoria, pid: nat, dir: nat, datos: seq<byte>, pagina: int, direccion: int, bytes: seq<byte>)
    requires Escribiendo(m, pid, dir, datos, |datos|, 0, pagina, direccion, bytes)
    ensures Escribir(m, pid, dir, datos) == m.(bytes := bytes)
  {
  }

  lemma TerminaDeLeer(m: Memoria, pid: nat, dir: nat, n: nat, pagina: int, direccion: int, buffer: seq<byte>, resto: seq<byte>)
    requires Leyendo(m, pid, dir, n, n, 0, pagina, direccion, buffer, resto)
    ensures |Leer(m, pid, dir, n)| == n <= |resto| && buffer == Pegar(resto, 0, Leer(m, pid, dir, n))
  {
    if n > 0 {
      var c := CaminoDe(m, pid, dir);
      CopiadosEs(m.bytes, c, n, n, resto);
      assert Leidos(m.bytes, c, n)[..n] == Leidos(m.bytes, c, n);
    }
  }

  lemma LeerTam(m: Memoria, pid: nat, dir: nat, n: nat)
    requires Accesible(m, pid, dir, n)
    ensures |Leer(m, pid, dir, n)| == n
  {
  }

  lemma Comienza(m: Memoria, pid: nat, dir: nat, datos: seq<byte>, n: nat, resto: seq<byte>)
    requires m.tamPagina > 0 && pid in m.tablas
    ensures Accesible(m, pid, dir, |datos|) ==>
      Escribiendo(m, pid, dir, datos, 0, |datos|, Indice(m.tablas[pid], MarcoDeDireccion(dir, m.tamPagina)), dir, m.bytes)
    ensures Accesible(m, pid, dir, n) && n <= |resto| ==>
      Leyendo(m, pid, dir, n, 0, n, Indice(m.tablas[pid], MarcoDeDireccion(dir, m.tamPagina)), dir, resto, resto)
  {
    EnSuUnidad(dir, m.tamPagina);
  }

  // ---------------------------------------------------------------- the module

  class MemoriaDeUsuario {
    const tamPagina: nat
    const marcos: array<bool>
    const memoria: array<byte>
    var cantidadMarcosLibres: int
    var tablaDePaginas: map<nat, seq<nat>>

    ghost function Estado(): Memoria
      reads this, marcos, memoria
    {
      Memoria(tamPagina, marcos[..], cantidadMarcosLibres, tablaDePaginas, memoria[..])
    }

    /** Memory with every frame free. */
    constructor (tamMemoria: nat, tamPagina: nat)
      requires tamPagina > 0
      ensures fresh(marcos) && fresh(memoria)
      ensures Inv(Estado()) && Estado().tablas == map[] && marcos.Length == tamMemoria / tamPagina
    {
      this.tamPagina := tamPagina;
      memoria := new byte[tamMemoria](_ => 0);
      var n := tamMemoria / tamPagina;
      marcos := new bool[n](_ => false);
      cantidadMarcosLibres := n;
      tablaDePaginas := map[];
      new;
      LibresTodos(marcos[..]);
      EnSuUnidad(tamMemoria, tamPagina);
    }

    method ObtenerMarcoLibre() returns (marco: int)
      ensures marco == Indice(marcos[..], false)
    {
      for i := 0 to marcos.Length
        invariant forall j :: 0 <= j < i ==> marcos[j]
      {
        if !marcos[i] {
          PrimeraVez(marcos[..], false, i);
          return i;
        }
      }
      return -1;
    }

    method OcuparMarco(marco: nat)
      requires marco < marcos.Length
      modifies this`cantidadMarcosLibres, marcos
      ensures marcos[..] == old(marcos[..])[marco := true]
      ensures cantidadMarcosLibres == old(cantidadMarcosLibres) - 1
    {
      marcos[marco] := true;
      cantidadMarcosLibres := cantidadMarcosLibres - 1;
    }

    method LiberarMarco(marco: nat)
      requires marco < marcos.Length
      modifies this`cantidadMarcosLibres, marcos
      ensures marcos[..] == old(marcos[..])[marco := false]
      ensures cantidadMarcosLibres == old(cantidadMarcosLibres) + 1
    {
      marcos[marco] := false;
      cantidadMarcosLibres := cantidadMarcosLibres + 1;
    }

    method LiberarMarcosDeProceso(pid: nat)
      requires Inv(Estado()) && pid in tablaDePaginas
      modifies this`cantidadMarcosLibres, marcos
      ensures marcos[..] == Liberados(old(marcos[..]), tablaDePaginas[pid], |tablaDePaginas[pid]|)
      ensures cantidadMarcosLibres == old(cantidadMarcosLibres) + |tablaDePaginas[pid]|
    {
      TablaDistinta(Estado(), pid);
      hide Inv, Libres;
      var paginas := tablaDePaginas[pid];
      for i := 0 to |paginas|
        invariant marcos[..] == Liberados(old(marcos[..]), paginas, i)
        invariant cantidadMarcosLibres == old(cantidadMarcosLibres) + i
      {
        LiberarMarco(paginas[i]);
      }
    }

    /** 1 when memory runs out, 0 on success. */
    method ResizeProceso(pid: nat, cantidadDeBytes: nat) returns (codigo: int)
      requires Inv(Estado()) && pid in tablaDePaginas
      modifies this, marcos
      ensures (Estado(), codigo) == Resize(old(Estado()), pid, cantidadDeBytes)
    {
      ghost var m := Estado();
      assert tamPagina > 0;
      hide Inv, Libres, Indice;
      InvLibres(m);
      var resto := if cantidadDeBytes % tamPagina == 0 then 0 else 1;
      var cantidadPaginas := cantidadDeBytes / tamPagina + resto;
      var paginasActuales := |tablaDePaginas[pid]|;
      if cantidadMarcosLibres < cantidadPaginas - paginasActuales {
        return 1;
      }
      if paginasActuales < cantidadPaginas {
        AgregarPaginas(pid, cantidadPaginas - paginasActuales);
      } else if paginasActuales > cantidadPaginas {
        QuitarPaginas(pid, cantidadPaginas);
      }
      return 0;
    }

    /** The growing loop of `resize_proceso`. */
    method AgregarPaginas(pid: nat, n: nat)
      requires Inv(Estado()) && pid in tablaDePaginas && n <= cantidadMarcosLibres
      modifies this, marcos
      ensures Estado() == Ampliar(old(Estado()), pid, n)
    {
      ghost var m := Estado();
      hide Inv, Libres, Indice;
      for i := 0 to n
        invariant pid in tablaDePaginas && Inv(Estado()) && n - i <= cantidadMarcosLibres
        invariant Ampliar(Estado(), pid, n - i) == Ampliar(m, pid, n)
      {
        ghost var e := Estado();
        InvLibres(e);
        HayLibre(e.marcos);
        OcuparInv(e, pid);
        var pagina := ObtenerMarcoLibre();
        tablaDePaginas := tablaDePaginas[pid := tablaDePaginas[pid] + [pagina]];
        OcuparMarco(pagina);
        assert Estado() == Ocupar(e, pid);
      }
    }

    /** The shrinking loop of `resize_proceso`. */
    method QuitarPaginas(pid: nat, n: nat)
      requires Inv(Estado()) && pid in tablaDePaginas && n <= |tablaDePaginas[pid]|
      modifies this, marcos
      ensures Estado() == Reducir(old(Estado()), pid, n)
    {
      ghost var m := Estado();
      hide Inv, Libres, Indice;
      for i := |tablaDePaginas[pid]| downto n
        invariant pid in tablaDePaginas && Inv(Estado()) && |tablaDePaginas[pid]| == i
        invariant Reducir(Estado(), pid, n) == Reducir(m, pid, n)
      {
        ghost var e := Estado();
        SoltarInv(e, pid);
        TablaDistinta(e, pid);
        LiberarMarco(tablaDePaginas[pid][i]);
        tablaDePaginas := tablaDePaginas[pid := tablaDePaginas[pid][..i]];
        assert Estado() == Soltar(e, pid);
      }
    }

    method CrearProceso(pid: nat)
      modifies this`tablaDePaginas
      ensures Estado() == Crear(old(Estado()), pid)
    {
      tablaDePaginas := tablaDePaginas[pid := []];
    }

    method EliminarProceso(pid: nat)
      requires Inv(Estado()) && pid in tablaDePaginas
      modifies this, marcos
      ensures Estado() == Eliminar(old(Estado()), pid)
    {
      LiberarMarcosDeProceso(pid);
      tablaDePaginas := tablaDePaginas - {pid};
    }

    method AccederATablaDePaginas(pid: nat, pagina: nat) returns (marco: nat)
      requires pid in tablaDePaginas && pagina < |tablaDePaginas[pid]|
      ensures EnTabla(Estado(), pid, pagina, marco)
    {
      marco := tablaDePaginas[pid][pagina];
    }

    method ObtenerPaginaDeMarco(paginas: seq<nat>, marco: nat) returns (pagina: int)
      ensures pagina == Indice(paginas, marco)
    {
      for i := 0 to |paginas|
        invariant forall j :: 0 <= j < i ==> paginas[j] != marco
      {
        if paginas[i] == marco {
          PrimeraVez(paginas, marco, i);
          return i;
        }
      }
      return -1;
    }

    method ObtenerDatosDeMemoria(buffer: array<byte>, direccion: nat, tamanio: nat, pid: nat)
      requires Accesible(Estado(), pid, direccion, tamanio)
      requires tamanio <= buffer.Length && buffer != memoria
      modifies buffer
      ensures buffer[..] == Pegar(old(buffer[..]), 0, Leer(Estado(), pid, direccion, tamanio))
    {
      ghost var m, antes := Estado(), buffer[..];
      assert m.tamPagina == tamPagina && m.tablas == tablaDePaginas && m.bytes == memoria[..];
      assert tamPagina > 0 && pid in m.tablas;
      hide *;
      Comienza(m, pid, direccion, [], tamanio, antes);
      var paginas := tablaDePaginas[pid];
      var pagina := ObtenerPaginaDeMarco(paginas, MarcoDeDireccion(direccion, tamPagina));
      var restante: nat, dir: nat, offset: nat := tamanio, direccion, 0;
      while restante > 0
        invariant offset + restante == tamanio
        invariant memoria[..] == m.bytes
        invariant Leyendo(m, pid, direccion, tamanio, offset, restante, pagina, dir, buffer[..], antes)
      {
        ghost var _, proxima := OtroTrozoLeido(m, pid, direccion, tamanio, offset, restante, pagina, dir, buffer[..], antes);
        var trozo := if restante > tamPagina then tamPagina else restante;
        Memcpy(buffer, offset, memoria[dir..dir + trozo]);
        if restante > tamPagina {
          pagina := pagina + 1;
        }
        restante := restante - trozo;
        dir := ProximaDireccion(paginas[pagina], tamPagina, dir);
        offset := offset + trozo;
      }
      TerminaDeLeer(m, pid, direccion, tamanio, pagina, dir, buffer[..], antes);
    }

    method AgregarDatosAMemoria(datos: seq<byte>, direccion: nat, pid: nat)
      requires Accesible(Estado(), pid, direccion, |datos|)
      modifies memoria
      ensures Estado() == Escribir(old(Estado()), pid, direccion, datos)
    {
      ghost var m := Estado();
      assert m.tamPagina == tamPagina && m.tablas == tablaDePaginas && m.bytes == memoria[..];
      assert tamPagina > 0 && pid in m.tablas;
      hide *;
      Comienza(m, pid, direccion, datos, 0, []);
      var paginas := tablaDePaginas[pid];
      var pagina := ObtenerPaginaDeMarco(paginas, MarcoDeDireccion(direccion, tamPagina));
      var restante: nat, dir: nat, offset: nat := |datos|, direccion, 0;
      while restante > 0
        invariant offset + restante == |datos|
        invariant Escribiendo(m, pid, direccion, datos, offset, restante, pagina, dir, memoria[..])
      {
        ghost var _, proxima := OtroTrozoEscrito(m, pid, direccion, datos, offset, restante, pagina, dir, memoria[..]);
        var trozo := if restante > tamPagina then tamPagina else restante;
        Memcpy(memoria, dir, datos[offset..offset + trozo]);
        if restante > tamPagina {
          pagina := pagina + 1;
        }
        restante := restante - trozo;
        dir := ProximaDireccion(paginas[pagina], tamPagina, dir);
        offset := offset + trozo;
      }
      Termina(m, pid, direccion, datos, pagina, dir, memoria[..]);
    }

    method CopyString(di: nat, si: nat, tamanio: nat, pid: nat)
      requires Accesible(Estado(), pid, si, tamanio) && Accesible(Estado(), pid, di, tamanio)
      modifies memoria
      ensures Estado() == CopiarString(old(Estado()), pid, di, si, tamanio)
    {
      ghost var m := Estado();
      hide Accesible, Leer, Escribir;
      var s := new byte[tamanio];
      ObtenerDatosDeMemoria(s, si, tamanio, pid);
      LeerTam(m, pid, si, tamanio);
      assert s[..] == Leer(m, pid, si, tamanio);
      AgregarDatosAMemoria(s[..], di, pid);
    }
  }
}
