/** A monitor that is started again counts its incidents from 0, and the central, which goes on, ignores
    what it has seen. */
module DosVidas {
  import opened Camaras
  import CentralSpec
  import CentralCorridas
  import opened Monitoreo
  import opened MonitoreoCorridas
  import opened MonitoreoCentral
  import opened CamarasYMonitor

  /** Only what was opened is cancelled. */
  predicate Ordenado(pub: seq<Publicacion>) {
    pub == [] ||
    (Ordenado(pub[..|pub| - 1]) && (pub[|pub| - 1].aviso.AvisoCancelado? ==> pub[|pub| - 1].id in Abiertos(pub[..|pub| - 1])))
  }

  /** Where each incident was opened first. */
  function PrimerosLugares(pub: seq<Publicacion>): map<int, Posicion> {
    if pub == [] then map[]
    else
      var p, antes := pub[|pub| - 1], pub[..|pub| - 1];
      if p.aviso.AvisoPendiente? && p.id !in Abiertos(antes) then PrimerosLugares(antes)[p.id := p.posicion]
      else PrimerosLugares(antes)
  }

  function Vivos(pub: seq<Publicacion>): map<int, Posicion> {
    map x | x in PrimerosLugares(pub) && !(x >= 0 && x in Cerrados(pub)) :: PrimerosLugares(pub)[x]
  }

  lemma {:induction false} PrimerosSon(pub: seq<Publicacion>, x: nat)
    ensures x in PrimerosLugares(pub) <==> x in Abiertos(pub)
  {
    if pub != [] {
      PrimerosSon(pub[..|pub| - 1], x);
    }
  }

  lemma UnoMas(pub: seq<Publicacion>, p: Publicacion)
    ensures PrimerosLugares(pub + [p])
         == if p.aviso.AvisoPendiente? && p.id !in Abiertos(pub) then PrimerosLugares(pub)[p.id := p.posicion] else PrimerosLugares(pub)
    ensures Ordenado(pub + [p]) <==> Ordenado(pub) && (p.aviso.AvisoCancelado? ==> p.id in Abiertos(pub))
  {
    assert (pub + [p])[..|pub|] == pub;
  }

  /** The central after all that was published, whatever its order. */
  ghost predicate AlCorriente(c: CentralSpec.Estado, pub: seq<Publicacion>) {
    && c.vivos == Vivos(pub)
    && (forall x: nat :: (x, "pendiente") in c.vistos <==> x in Abiertos(pub))
    && (forall x: nat :: (x, "cancelado") in c.vistos <==> x in Cerrados(pub))
  }

  lemma VivosTrasAbrir(pub: seq<Publicacion>, p: Publicacion)
    requires Ordenado(pub) && p.aviso.AvisoPendiente?
    ensures Vivos(pub + [p]) == if p.id in Abiertos(pub) then Vivos(pub) else Vivos(pub)[p.id := p.posicion]
  {
    UnoMas(pub, p);
    UnaMas(pub, p);
    CerradosAbiertos(pub, p.id);
  }

  lemma {:induction false} CerradosAbiertos(pub: seq<Publicacion>, x: nat)
    requires Ordenado(pub)
    ensures x in Cerrados(pub) ==> x in Abiertos(pub)
  {
    if pub != [] {
      CerradosAbiertos(pub[..|pub| - 1], x);
    }
  }

  lemma VivosTrasOtro(pub: seq<Publicacion>, p: Publicacion)
    requires !p.aviso.AvisoPendiente?
    ensures Vivos(pub + [p]) == if p.aviso.AvisoCancelado? then Vivos(pub) - {p.id} else Vivos(pub)
  {
    UnoMas(pub, p);
    UnaMas(pub, p);
  }

  lemma SigueAlCorriente(c: CentralSpec.Estado, pub: seq<Publicacion>, p: Publicacion, a: CentralSpec.Areas)
    requires AlCorriente(c, pub) && Ordenado(pub)
    ensures AlCorriente(CentralSpec.Paso(c, Mensaje(p), a), pub + [p])
  {
    UnaMas(pub, p);
    if p.aviso.AvisoPendiente? {
      VivosTrasAbrir(pub, p);
    } else {
      VivosTrasOtro(pub, p);
    }
    if p.aviso.AvisoCancelado? && p.id in Cerrados(pub) {
      assert p.id !in Vivos(pub);
    }
  }

  lemma {:induction false} CentralAlCorriente(c: CentralSpec.Estado, pub: seq<Publicacion>, a: CentralSpec.Areas)
    requires c.vivos == map[] && c.vistos == {} && Ordenado(pub)
    ensures AlCorriente(CentralCorridas.Correr(c, Mensajes(pub), a), pub)
  {
    if pub != [] {
      var antes, p := pub[..|pub| - 1], pub[|pub| - 1];
      CentralAlCorriente(c, antes, a);
      assert Mensajes(pub) == Mensajes(antes) + [Mensaje(p)] && antes + [p] == pub;
      CorrerUltimo(c, Mensajes(antes), Mensaje(p), a);
      SigueAlCorriente(CentralCorridas.Correr(c, Mensajes(antes), a), antes, p, a);
    } else {
      assert PrimerosLugares(pub) == map[];
      assert Vivos(pub) == map[];
      assert Mensajes(pub) == [];
    }
  }

  // ----- two lives -----

  lemma {:induction false} ConjuntosJuntos(p1: seq<Publicacion>, p2: seq<Publicacion>)
    ensures Abiertos(p1 + p2) == Abiertos(p1) + Abiertos(p2) && Cerrados(p1 + p2) == Cerrados(p1) + Cerrados(p2)
    decreases |p2|
  {
    if p2 == [] {
      assert p1 + p2 == p1;
    } else {
      var antes, p := p2[..|p2| - 1], p2[|p2| - 1];
      assert p1 + p2 == (p1 + antes) + [p] && p2 == antes + [p];
      ConjuntosJuntos(p1, antes);
      UnaMas(p1 + antes, p);
      UnaMas(antes, p);
    }
  }

  lemma {:induction false} OrdenadosJuntos(p1: seq<Publicacion>, p2: seq<Publicacion>)
    requires Ordenado(p1) && EnOrden(p2)
    ensures Ordenado(p1 + p2)
    decreases |p2|
  {
    if p2 == [] {
      assert p1 + p2 == p1;
    } else {
      var antes, p := p2[..|p2| - 1], p2[|p2| - 1];
      assert p1 + p2 == (p1 + antes) + [p];
      OrdenadosJuntos(p1, antes);
      ConjuntosJuntos(p1, antes);
      UnoMas(p1 + antes, p);
    }
  }

  lemma {:induction false} PrimerosJuntos(p1: seq<Publicacion>, p2: seq<Publicacion>, x: nat)
    requires x in Abiertos(p1) + Abiertos(p2)
    ensures x in PrimerosLugares(p1 + p2)
    ensures x in Abiertos(p1) ==> x in PrimerosLugares(p1) && PrimerosLugares(p1 + p2)[x] == PrimerosLugares(p1)[x]
    ensures x !in Abiertos(p1) ==> x in PrimerosLugares(p2) && PrimerosLugares(p1 + p2)[x] == PrimerosLugares(p2)[x]
    decreases |p2|
  {
    PrimerosSon(p1, x);
    PrimerosSon(p2, x);
    if p2 == [] {
      assert p1 + p2 == p1;
    } else {
      var antes, p := p2[..|p2| - 1], p2[|p2| - 1];
      assert p1 + p2 == (p1 + antes) + [p] && p2 == antes + [p];
      ConjuntosJuntos(p1, antes);
      UnoMas(p1 + antes, p);
      UnoMas(antes, p);
      UnaMas(antes, p);
      if x in Abiertos(p1) + Abiertos(antes) {
        PrimerosJuntos(p1, antes, x);
      }
    }
  }

  lemma {:induction false} OrdenadoSiEnOrden(pub: seq<Publicacion>)
    requires EnOrden(pub)
    ensures Ordenado(pub)
  {
    if pub != [] {
      OrdenadoSiEnOrden(pub[..|pub| - 1]);
    }
  }

  /** In one life an incident has one place. */
  lemma {:induction false} UnSoloLugar(pub: seq<Publicacion>, x: nat)
    requires EnOrden(pub) && x in Lugares(pub)
    ensures x in PrimerosLugares(pub) && PrimerosLugares(pub)[x] == Lugares(pub)[x]
  {
    var antes, p := pub[..|pub| - 1], pub[|pub| - 1];
    LugaresAbiertos(antes);
    if x in Lugares(antes) {
      UnSoloLugar(antes, x);
    }
  }

  /** For every two interleavings of the monitor, one after the other against one central: the central
      handles the opening of an incident of the second life exactly if its number was not opened in the first.
      Alive are then those opened in either life and cancelled in none, the numbers of the first life
      where they were then. */
  lemma SegundaVida(pasos1: seq<Paso>, pasos2: seq<Paso>, c: CentralSpec.Estado, a: CentralSpec.Areas, x: nat)
    requires c.vivos == map[] && c.vistos == {}
    ensures var p1, p2 := Correr(INICIAL, pasos1).publicado, Correr(INICIAL, pasos2).publicado;
      var c1, c2 := CentralCorridas.Correr(c, Mensajes(p1), a), CentralCorridas.Correr(c, Mensajes(p1 + p2), a);
      && (forall p :: CentralSpec.Ignorado(c1.vistos, CentralSpec.Incidente(x, p, "pendiente")) <==> x in Abiertos(p1))
      && (x in c2.vivos <==> x in Abiertos(p1) + Abiertos(p2) && x !in Cerrados(p1) + Cerrados(p2))
      && (x in c2.vivos && x in Abiertos(p1) ==> x in Lugares(p1) && c2.vivos[x] == Lugares(p1)[x])
      && (x in c2.vivos && x !in Abiertos(p1) ==> x in Lugares(p2) && c2.vivos[x] == Lugares(p2)[x])
  {
    var p1, p2 := Correr(INICIAL, pasos1).publicado, Correr(INICIAL, pasos2).publicado;
    PublicadoEnOrden(pasos1);
    PublicadoEnOrden(pasos2);
    OrdenadoSiEnOrden(p1);
    OrdenadosJuntos(p1, p2);
    CentralAlCorriente(c, p1, a);
    CentralAlCorriente(c, p1 + p2, a);
    ConjuntosJuntos(p1, p2);
    PrimerosSon(p1 + p2, x);
    VivoEnDos(p1, p2, x);
  }

  lemma VivoEnDos(p1: seq<Publicacion>, p2: seq<Publicacion>, x: nat)
    requires EnOrden(p1) && EnOrden(p2)
    ensures var v := Vivos(p1 + p2);
      && (x in v <==> x in Abiertos(p1) + Abiertos(p2) && x !in Cerrados(p1) + Cerrados(p2))
      && (x in v && x in Abiertos(p1) ==> x in Lugares(p1) && v[x] == Lugares(p1)[x])
      && (x in v && x !in Abiertos(p1) ==> x in Lugares(p2) && v[x] == Lugares(p2)[x])
  {
    ConjuntosJuntos(p1, p2);
    PrimerosSon(p1 + p2, x);
    LugaresExactos(p1, x);
    LugaresExactos(p2, x);
    if x in Abiertos(p1) + Abiertos(p2) {
      PrimerosJuntos(p1, p2, x);
    }
    if x in Lugares(p1) {
      UnSoloLugar(p1, x);
    }
    if x in Lugares(p2) {
      UnSoloLugar(p2, x);
    }
  }

  /** The central knows every open incident of the second life where it is exactly if none of them has a
      number of the first, or one that was opened there at the same place and not cancelled. */
  lemma SegundaVidaExacta(pasos1: seq<Paso>, pasos2: seq<Paso>, c: CentralSpec.Estado, a: CentralSpec.Areas)
    requires c.vivos == map[] && c.vistos == {}
    ensures var p1, p2 := Correr(INICIAL, pasos1).publicado, Correr(INICIAL, pasos2).publicado;
      var vivos := CentralCorridas.Correr(c, Mensajes(p1 + p2), a).vivos;
      (forall x: nat :: x in Lugares(p2) ==> x in vivos && vivos[x] == Lugares(p2)[x])
      <==> forall x: nat :: x in Lugares(p2) && x in Abiertos(p1) ==> x in Lugares(p1) && Lugares(p1)[x] == Lugares(p2)[x]
  {
    var p1, p2 := Correr(INICIAL, pasos1).publicado, Correr(INICIAL, pasos2).publicado;
    PublicadoEnOrden(pasos1);
    PublicadoEnOrden(pasos2);
    forall x: nat
      ensures x in Lugares(p2) ==>
        var vivos := CentralCorridas.Correr(c, Mensajes(p1 + p2), a).vivos;
        (x in vivos && vivos[x] == Lugares(p2)[x]
         <==> (x in Abiertos(p1) ==> x in Lugares(p1) && Lugares(p1)[x] == Lugares(p2)[x]))
    {
      SegundaVida(pasos1, pasos2, c, a, x);
      LugaresExactos(p1, x);
      LugaresExactos(p2, x);
    }
  }

  function CreacionYBaja(inc: Incidente): seq<Paso> {
    Creacion(0, inc, true) + [Quitar(0), Soltar(0), PublicarBaja(0, true)]
  }

  lemma PublicaCreacion(inc: Incidente)
    requires inc.estado == Pendiente
    ensures Correr(INICIAL, Creacion(0, inc, true)).publicado == [Publicacion(0, inc.posicion, AvisoPendiente)]
    ensures Lugares(Correr(INICIAL, Creacion(0, inc, true)).publicado) == map[0 := inc.posicion]
  {
    CorrerCreacion(INICIAL, inc, true);
    var none: seq<Publicacion> := [];
    var p := Publicacion(0, inc.posicion, AvisoPendiente);
    assert none + [p] == [p];
    LugaresUnoMas(none, p);
  }

  lemma PublicaBaja(inc: Incidente)
    requires inc.estado == Pendiente
    ensures 0 in Cerrados(Correr(INICIAL, CreacionYBaja(inc)).publicado)
  {
    var s := Correr(INICIAL, Creacion(0, inc, true));
    CorrerCreacion(INICIAL, inc, true);
    CorrerJuntos(INICIAL, Creacion(0, inc, true), [Quitar(0), Soltar(0), PublicarBaja(0, true)]);
    CorrerTres(s, Quitar(0), Soltar(0), PublicarBaja(0, true));
    ConjuntosTras(Tras(Tras(s, Quitar(0)), Soltar(0)), PublicarBaja(0, true));
  }

  /** The first incident of the first life comes and goes; that of the second is not known to the central,
      wherever it is. */
  lemma PrimeroIgnorado(inc: Incidente, otro: Incidente, c: CentralSpec.Estado, a: CentralSpec.Areas)
    requires c.vivos == map[] && c.vistos == {} && inc.estado == Pendiente && otro.estado == Pendiente
    ensures var p1, p2 := Correr(INICIAL, CreacionYBaja(inc)).publicado, Correr(INICIAL, Creacion(0, otro, true)).publicado;
      Lugares(p2) == map[0 := otro.posicion] && 0 !in CentralCorridas.Correr(c, Mensajes(p1 + p2), a).vivos
  {
    PublicaCreacion(otro);
    PublicaBaja(inc);
    SegundaVida(CreacionYBaja(inc), Creacion(0, otro, true), c, a, 0);
  }
}
