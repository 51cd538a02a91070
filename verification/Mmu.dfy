/** The CPU's memory management unit as the object its code updates in place. */
module Mmu {
  import opened Comunes
  import opened Tlb
  import opened Traduccion

  lemma {:induction false} BuscarEs(e: seq<Registro>, pid: nat, pagina: nat, i: nat)
    requires i < |e| && EsDe(e[i], pid, pagina) && forall j :: 0 <= j < i ==> !EsDe(e[j], pid, pagina)
    ensures Buscar(e, pid, pagina) == i
  {
  }

  class MMU {
    const tamTlb: nat
    const algoTlb: Algoritmo
    var tlb: seq<Registro>
    var ultimoIndex: nat

    ghost function Estado(): Cache
      reads this
    {
      Cache(tamTlb, algoTlb, tlb, ultimoIndex)
    }

    constructor (tam: nat, algoritmo: Algoritmo)
      ensures Estado() == Cache(tam, algoritmo, [], 0) && Valida(Estado()) && EnOrden(Estado())
    {
      tamTlb, algoTlb, tlb, ultimoIndex := tam, algoritmo, [], 0;
    }

    method GetIndexForLru(ahora: int) returns (index: int)
      ensures index == IndiceLru(tlb, ahora)
    {
      var leastUsed := ahora;
      index := -1;
      for i := 0 to |tlb|
        invariant (leastUsed, index) == Menor(tlb, ahora, i)
      {
        if tlb[i].ultimoAcceso < leastUsed {
          leastUsed, index := tlb[i].ultimoAcceso, i;
        }
      }
    }

    method InsertarEnTlb(registro: Registro, ahora: int)
      requires ultimoIndex <= tamTlb && Insertable(Estado(), ahora)
      modifies this
      ensures Estado() == Insertar(old(Estado()), registro, ahora)
    {
      if algoTlb == Fifo && tamTlb > 0 {
        if ultimoIndex == tamTlb {
          ultimoIndex := 0;
        }
        if |tlb| < tamTlb {
          tlb := tlb + [registro.(ultimoAcceso := 0)];
        } else if |tlb| == tamTlb {
          tlb := tlb[ultimoIndex := registro.(ultimoAcceso := 0)];
          ultimoIndex := ultimoIndex + 1;
        }
      } else if algoTlb == Lru && tamTlb > 0 {
        if |tlb| < tamTlb {
          tlb := tlb + [registro.(ultimoAcceso := ahora)];
        } else if |tlb| == tamTlb {
          var index := GetIndexForLru(ahora);
          tlb := tlb[..index] + tlb[index + 1..];
          tlb := tlb + [registro.(ultimoAcceso := ahora)];
        }
      }
    }

    /** The frame, or -1 on a miss. */
    method ObtenerMarcoEnTlb(pid: nat, pagina: nat, ahora: int) returns (marco: int)
      modifies this
      ensures var i := Buscar(old(tlb), pid, pagina);
              if i < 0 then marco == -1 && Estado() == old(Estado())
              else marco == old(tlb)[i].marco && Estado() == Tocar(old(Estado()), i, ahora)
    {
      for i := 0 to |tlb|
        invariant Estado() == old(Estado())
        invariant forall j :: 0 <= j < i ==> !EsDe(tlb[j], pid, pagina)
      {
        if tlb[i].pid == pid && tlb[i].pagina == pagina {
          BuscarEs(tlb, pid, pagina, i);
          marco := tlb[i].marco;
          if algoTlb == Lru {
            tlb := tlb[i := tlb[i].(ultimoAcceso := ahora)];
          }
          return;
        }
      }
      marco := -1;
    }

    method LimpiarTlb(pid: nat)
      modifies this`tlb
      ensures tlb == Limpiar(old(tlb), pid)
    {
      var i := 0;
      while i < |tlb|
        invariant 0 <= i && LimpiarDesde(tlb, i, pid) == Limpiar(old(tlb), pid)
        decreases |tlb|, |tlb| - i
      {
        if tlb[i].pid == pid {
          tlb := tlb[..i] + tlb[i + 1..];
          i := 0;
        }
        i := i + 1;
      }
    }

    /** Frame and offset of logical address `desplazamiento`; `tablas` answers the request for a page that is not cached. */
    method TraducirDireccionAFisica(pid: nat, desplazamiento: nat, tamPagina: nat, tablas: map<nat, seq<nat>>, ahora: int)
      returns (marco: int, desFisico: int)
      requires tamPagina > 0 && Traducible(Estado(), tablas, pid, Unidad(desplazamiento, tamPagina), ahora)
      modifies this
      ensures (Estado(), marco, desFisico) == Traducir(old(Estado()), tablas, pid, desplazamiento, tamPagina, ahora)
    {
      var nroPagina := Unidad(desplazamiento, tamPagina);
      desFisico := desplazamiento - Posicion(nroPagina, tamPagina);
      marco := ObtenerMarcoEnTlb(pid, nroPagina, ahora);
      if marco == -1 {
        marco := tablas[pid][nroPagina];
        InsertarEnTlb(Registro(pid, nroPagina, marco, 0), ahora);
      }
    }
  }
}
