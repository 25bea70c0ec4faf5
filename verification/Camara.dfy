/** Cameras and positions: `posicion.rs`, `estado_camara.rs` and the part of `camara.rs`
    that changes a camera's state (the image-watching thread is not modelled). */
module Camaras {
  function Abs(x: real): real {
    if x < 0.0 then -x else x
  }

  datatype Posicion = Posicion(lat: real, long: real) {
    /** Closeness in the square of half-side `area`. */
    predicate EnRango(otra: Posicion, area: real) {
      Abs(lat - otra.lat) <= area && Abs(long - otra.long) <= area
    }
  }

  /** Both coordinates differ by no more than the area. */
  lemma EnRangoEs(p: Posicion, q: Posicion, area: real)
    ensures p.EnRango(q, area) <==> -area <= p.lat - q.lat <= area && -area <= p.long - q.long <= area
  {
  }

  datatype EstadoCamara = AhorroDeEnergia | Grabando

  /** The value of a camera at one moment. */
  datatype Foto = Foto(posicion: Posicion, estado: EstadoCamara, incidentes: seq<int>, numlindantes: int)

  ghost predicate SinRepetidos(s: seq<int>) {
    forall i, j :: 0 <= i < j < |s| ==> s[i] != s[j]
  }

  /** `s` without its first `x`. */
  function QuitarPrimero(s: seq<int>, x: int): seq<int> {
    if s == [] then []
    else if s[0] == x then s[1..]
    else [s[0]] + QuitarPrimero(s[1..], x)
  }

  lemma {:induction false} QuitarPrimeroEnIndice(s: seq<int>, x: int, i: nat)
    requires i < |s| && s[i] == x && x !in s[..i]
    ensures QuitarPrimero(s, x) == s[..i] + s[i + 1..]
  {
    if i > 0 {
      assert s[..i][0] == s[0];
      assert s[1..][..i - 1] == s[..i][1..];
      QuitarPrimeroEnIndice(s[1..], x, i - 1);
      assert [s[0]] + s[1..][..i - 1] == s[..i];
    }
  }

  /** Removing from a list without repetitions removes exactly that element. */
  lemma {:induction false} QuitarPrimeroQuita(s: seq<int>, x: int)
    requires SinRepetidos(s)
    ensures SinRepetidos(QuitarPrimero(s, x))
    ensures forall y :: y in QuitarPrimero(s, x) <==> y in s && y != x
    ensures x !in s ==> QuitarPrimero(s, x) == s
  {
    if s != [] {
      QuitarPrimeroQuita(s[1..], x);
      assert s == [s[0]] + s[1..] && s[0] !in s[1..];
      var resto := QuitarPrimero(s[1..], x);
      assert s[0] !in resto;
      assert SinRepetidos([s[0]] + resto);
    }
  }

  class Camara {
    const id: nat
    const posicion: Posicion
    var estado: EstadoCamara
    var incidentesId: seq<int>
    var numlindantes: int

    constructor (id: nat, posicion: Posicion)
      ensures this.id == id
      ensures Valor() == Foto(posicion, AhorroDeEnergia, [], 0)
    {
      this.id := id;
      this.posicion := posicion;
      estado := AhorroDeEnergia;
      incidentesId := [];
      numlindantes := 0;
    }

    ghost function Valor(): Foto
      reads this
    {
      Foto(posicion, estado, incidentesId, numlindantes)
    }

    method AgregarIncidente(inc: int)
      modifies this`incidentesId
      ensures incidentesId == old(incidentesId) + [inc]
    {
      incidentesId := incidentesId + [inc];
    }

    /** Scans the whole list with an index and a flag; removing past the end would panic, so
        the caller checks `ContieneIncidente` first. */
    method QuitarIncidente(inc: int)
      requires inc in incidentesId
      modifies this`incidentesId
      ensures incidentesId == QuitarPrimero(old(incidentesId), inc)
    {
      var indice := 0;
      var matcheo := false;
      for k := 0 to |incidentesId|
        invariant indice <= k
        invariant inc !in incidentesId[..indice]
        invariant matcheo ==> indice < k && incidentesId[indice] == inc
        invariant !matcheo ==> indice == k
      {
        if incidentesId[k] == inc {
          matcheo := true;
        }
        if !matcheo {
          indice := indice + 1;
        }
      }
      assert incidentesId[..|incidentesId|] == incidentesId;
      QuitarPrimeroEnIndice(incidentesId, inc, indice);
      incidentesId := incidentesId[..indice] + incidentesId[indice + 1..];
    }

    predicate ContieneIncidente(inc: int)
      reads this
    {
      inc in incidentesId
    }

    function CantidadIncidentes(): nat
      reads this
    {
      |incidentesId|
    }

    method SetEstadoGrabar()
      modifies this`estado
      ensures estado == Grabando
    {
      estado := Grabando;
    }

    method SetEstadoAhorroDeEnergia()
      modifies this`estado
      ensures estado == AhorroDeEnergia
    {
      estado := AhorroDeEnergia;
    }
  }
}
