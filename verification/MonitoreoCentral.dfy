/** Where the incidents are that the monitor has published and not cancelled. */
module MonitoreoCentral {
  import opened Camaras
  import CentralSpec
  import CentralInvariante
  import opened Monitoreo
  import opened MonitoreoCorridas

  // ----- what the monitor publishes -----

  /** Incidents published as pending and not as cancelled, where they were published. */
  function Lugares(pub: seq<Publicacion>): map<int, Posicion> {
    if pub == [] then map[]
    else
      var p := pub[|pub| - 1];
      var antes := Lugares(pub[..|pub| - 1]);
      if p.aviso.AvisoPendiente? then antes[p.id := p.posicion]
      else if p.aviso.AvisoCancelado? then antes - {p.id}
      else antes
  }

  /** Each cancel repeats the position of an incident that is open. */
  predicate Fiel(pub: seq<Publicacion>) {
    pub == [] ||
    (Fiel(pub[..|pub| - 1]) &&
     var p, antes := pub[|pub| - 1], pub[..|pub| - 1];
     && (p.aviso.AvisoPendiente? ==> p.id !in Abiertos(antes))
     && (p.aviso.AvisoCancelado? ==> p.id in Lugares(antes) && Lugares(antes)[p.id] == p.posicion))
  }

  lemma LugaresUnoMas(pub: seq<Publicacion>, p: Publicacion)
    ensures Lugares(pub + [p]) == (if p.aviso.AvisoPendiente? then Lugares(pub)[p.id := p.posicion]
                                   else if p.aviso.AvisoCancelado? then Lugares(pub) - {p.id} else Lugares(pub))
    ensures Fiel(pub + [p]) <==>
      && Fiel(pub) && (p.aviso.AvisoPendiente? ==> p.id !in Abiertos(pub))
      && (p.aviso.AvisoCancelado? ==> p.id in Lugares(pub) && Lugares(pub)[p.id] == p.posicion)
  {
    assert (pub + [p])[..|pub|] == pub;
  }

  predicate Aqui(s: Sistema, x: nat, p: Posicion) {
    x in Lugares(s.publicado) && Lugares(s.publicado)[x] == p
  }

  /** A number that is open is at one stage of its life only, with the position that was published. */
  predicate LugarEn(s: Sistema, x: nat) {
    && (x in s.altas && s.altas[x].etapa != Reservado ==> Aqui(s, x, s.altas[x].incidente.posicion))
    && (x in s.lista ==> Aqui(s, x, s.lista[x].posicion))
    && (x in s.bajas ==> Aqui(s, x, s.bajas[x].posicion))
    && (x in s.porCerrar ==> Aqui(s, x, s.porCerrar[x].posicion) && x !in s.bajas && x !in s.altas)
  }

  ghost predicate LugaresBien(s: Sistema) {
    Fiel(s.publicado) && forall x: nat :: LugarEn(s, x)
  }

  /** The places of open incidents after a section. */
  lemma LugaresTras(s: Sistema, p: Paso)
    ensures var q := Publicaciones(s, p);
      Lugares(Tras(s, p).publicado) == (if q.None? then Lugares(s.publicado)
        else if q.value.aviso.AvisoPendiente? then Lugares(s.publicado)[q.value.id := q.value.posicion]
        else if q.value.aviso.AvisoCancelado? then Lugares(s.publicado) - {q.value.id}
        else Lugares(s.publicado))
  {
    PublicadoTras(s, p);
    if Publicaciones(s, p).Some? {
      LugaresUnoMas(s.publicado, Publicaciones(s, p).value);
    } else {
      assert s.publicado + [] == s.publicado;
    }
  }

  /** The tables hold the same incident about a number. */
  predicate MismasTablas(s: Sistema, s': Sistema, x: nat) {
    && (x in s'.altas <==> x in s.altas) && (x in s.altas ==> s'.altas[x] == s.altas[x])
    && (x in s'.lista <==> x in s.lista) && (x in s.lista ==> s'.lista[x].posicion == s.lista[x].posicion)
    && (x in s'.bajas <==> x in s.bajas) && (x in s.bajas ==> s'.bajas[x] == s.bajas[x])
    && (x in s'.porCerrar <==> x in s.porCerrar) && (x in s.porCerrar ==> s'.porCerrar[x] == s.porCerrar[x])
  }

  predicate MismosLugares(s: Sistema, s': Sistema, x: nat) {
    && (x in Lugares(s'.publicado) <==> x in Lugares(s.publicado))
    && (x in Lugares(s.publicado) ==> Lugares(s'.publicado)[x] == Lugares(s.publicado)[x])
  }

  lemma MismoLugarBien(s: Sistema, s': Sistema, x: nat)
    requires LugarEn(s, x) && MismasTablas(s, s', x) && MismosLugares(s, s', x)
    ensures LugarEn(s', x)
  {
  }

  lemma AltaEnOtroLugar(s: Sistema, p: Paso, x: nat)
    requires DeAlta(p) && x != Objeto(s, p)
    ensures MismasTablas(s, Tras(s, p), x)
  {
  }

  lemma ReporteMismoLugar(s: Sistema, p: Paso, x: nat)
    requires p.Reportar?
    ensures MismasTablas(s, Tras(s, p), x)
  {
  }

  lemma MarcarMismoLugar(s: Sistema, x: nat)
    ensures MismasTablas(s, Tras(s, Marcar), x)
  {
  }

  lemma BajaEnOtroLugar(s: Sistema, p: Paso, x: nat)
    requires DeBaja(p) && x != Objeto(s, p)
    ensures MismasTablas(s, Tras(s, p), x)
  {
  }

  lemma LugaresOtro(s: Sistema, p: Paso, x: nat)
    requires x != Objeto(s, p) || p.Reportar? || p.Marcar?
    ensures MismosLugares(s, Tras(s, p), x)
  {
    PublicadoTras(s, p);
    LugaresTras(s, p);
  }

  lemma AltaEnSuLugar(s: Sistema, p: Paso)
    requires DeAlta(p) && BienEn(s, Objeto(s, p)) && LugarEn(s, Objeto(s, p))
    ensures LugarEn(Tras(s, p), Objeto(s, p))
  {
    LugaresTras(s, p);
  }

  lemma BajaEnSuLugar(s: Sistema, p: Paso)
    requires DeBaja(p) && BienEn(s, Objeto(s, p)) && LugarEn(s, Objeto(s, p))
    ensures LugarEn(Tras(s, p), Objeto(s, p))
  {
    LugaresTras(s, p);
  }

  lemma OtroLugar(s: Sistema, p: Paso, x: nat)
    requires LugarEn(s, x) && !p.Sonar? && (x != Objeto(s, p) || p.Reportar? || p.Marcar?)
    ensures LugarEn(Tras(s, p), x)
  {
    if DeAlta(p) { AltaEnOtroLugar(s, p, x); }
    if DeBaja(p) { BajaEnOtroLugar(s, p, x); }
    if p.Reportar? { ReporteMismoLugar(s, p, x); }
    if p.Marcar? { MarcarMismoLugar(s, x); }
    LugaresOtro(s, p, x);
    MismoLugarBien(s, Tras(s, p), x);
  }

  lemma LugarTras(s: Sistema, p: Paso, x: nat)
    requires !p.Sonar? && BienEn(s, Objeto(s, p)) && LugarEn(s, Objeto(s, p)) && LugarEn(s, x)
    ensures LugarEn(Tras(s, p), x)
  {
    if x == Objeto(s, p) && DeAlta(p) {
      AltaEnSuLugar(s, p);
    } else if x == Objeto(s, p) && DeBaja(p) {
      BajaEnSuLugar(s, p);
    } else {
      OtroLugar(s, p, x);
    }
  }

  lemma FielTras(s: Sistema, p: Paso)
    requires !p.Sonar? && BienEn(s, Objeto(s, p)) && LugarEn(s, Objeto(s, p)) && Fiel(s.publicado)
    ensures Fiel(Tras(s, p).publicado)
  {
    PublicadoTras(s, p);
    if Publicaciones(s, p).Some? {
      LugaresUnoMas(s.publicado, Publicaciones(s, p).value);
    } else {
      assert s.publicado + [] == s.publicado;
    }
  }

  predicate SinRelojes(pasos: seq<Paso>) {
    forall i :: 0 <= i < |pasos| ==> !pasos[i].Sonar?
  }

  lemma {:induction false} CorridaFiel(s: Sistema, pasos: seq<Paso>)
    requires Bien(s) && LugaresBien(s) && SinRelojes(pasos)
    ensures LugaresBien(Correr(s, pasos))
    decreases pasos
  {
    if pasos != [] {
      var p := pasos[0];
      assert BienEn(s, Objeto(s, p)) && LugarEn(s, Objeto(s, p));
      forall x: nat ensures LugarEn(Tras(s, p), x) {
        assert LugarEn(s, x);
        LugarTras(s, p, x);
      }
      FielTras(s, p);
      PasoBien(s, p);
      CorridaFiel(Tras(s, p), pasos[1..]);
    }
  }

  lemma InicialBien()
    ensures Bien(INICIAL) && LugaresBien(INICIAL)
  {
  }

  // ----- with timers -----

  lemma {:induction false} LugaresAbiertos(pub: seq<Publicacion>)
    ensures forall x: nat :: x in Lugares(pub) ==> x in Abiertos(pub)
    ensures forall x: int :: x in Lugares(pub) ==> x >= 0
  {
    if pub != [] {
      LugaresAbiertos(pub[..|pub| - 1]);
    }
  }

  /** Open are exactly those opened and not cancelled. */
  lemma {:induction false} LugaresExactos(pub: seq<Publicacion>, x: nat)
    requires EnOrden(pub)
    ensures x in Lugares(pub) <==> x in Abiertos(pub) && x !in Cerrados(pub)
    ensures x in Cerrados(pub) ==> x in Abiertos(pub)
  {
    if pub != [] {
      LugaresExactos(pub[..|pub| - 1], x);
    }
  }

  /** While an incident is open, whoever holds it has it where it was published. */
  predicate SitioEn(s: Sistema, x: nat) {
    x in Lugares(s.publicado) ==>
      var p := Lugares(s.publicado)[x];
      && (x in s.altas ==> s.altas[x].incidente.posicion == p)
      && (x in s.lista ==> s.lista[x].posicion == p)
      && (x in s.bajas ==> s.bajas[x].posicion == p)
      && (x in s.porCerrar ==> s.porCerrar[x].posicion == p)
  }

  lemma MismoSitio(s: Sistema, s': Sistema, x: nat)
    requires SitioEn(s, x) && MismasTablas(s, s', x) && MismosLugares(s, s', x)
    ensures SitioEn(s', x)
  {
  }

  lemma RelojEnOtroLugar(s: Sistema, p: Paso, x: nat)
    requires p.Sonar? && x != Objeto(s, p)
    ensures MismasTablas(s, Tras(s, p), x)
  {
  }

  lemma OtroSitio(s: Sistema, p: Paso, x: nat)
    requires SitioEn(s, x) && (x != Objeto(s, p) || p.Reportar? || p.Marcar?)
    ensures SitioEn(Tras(s, p), x)
  {
    if DeAlta(p) { AltaEnOtroLugar(s, p, x); }
    if DeBaja(p) { BajaEnOtroLugar(s, p, x); }
    if p.Reportar? { ReporteMismoLugar(s, p, x); }
    if p.Marcar? { MarcarMismoLugar(s, x); }
    if p.Sonar? { RelojEnOtroLugar(s, p, x); }
    LugaresOtro(s, p, x);
    MismoSitio(s, Tras(s, p), x);
  }

  lemma AltaEnSuSitio(s: Sistema, p: Paso)
    requires DeAlta(p) && BienEn(s, Objeto(s, p)) && SitioEn(s, Objeto(s, p))
    ensures SitioEn(Tras(s, p), Objeto(s, p))
  {
    LugaresTras(s, p);
    LugaresAbiertos(s.publicado);
  }

  lemma BajaEnSuSitio(s: Sistema, p: Paso)
    requires DeBaja(p) && BienEn(s, Objeto(s, p)) && SitioEn(s, Objeto(s, p))
    ensures SitioEn(Tras(s, p), Objeto(s, p))
  {
    LugaresTras(s, p);
  }

  lemma RelojEnSuSitio(s: Sistema, p: Paso)
    requires p.Sonar? && SitioEn(s, Objeto(s, p))
    ensures SitioEn(Tras(s, p), Objeto(s, p))
  {
    LugaresTras(s, p);
  }

  lemma SitioTras(s: Sistema, p: Paso, x: nat)
    requires BienEn(s, Objeto(s, p)) && SitioEn(s, Objeto(s, p)) && SitioEn(s, x)
    ensures SitioEn(Tras(s, p), x)
  {
    if x == Objeto(s, p) && DeAlta(p) {
      AltaEnSuSitio(s, p);
    } else if x == Objeto(s, p) && DeBaja(p) {
      BajaEnSuSitio(s, p);
    } else if x == Objeto(s, p) && p.Sonar? {
      RelojEnSuSitio(s, p);
    } else {
      OtroSitio(s, p, x);
    }
  }

  /** The cancel that is published for an open incident suits the cameras (`CancelaBien`); the
      cancels of other numbers are ignored by the central. */
  ghost predicate CancelSirve(t: CentralSpec.Tabla, pub: seq<Publicacion>, p: Publicacion, a: CentralSpec.Areas) {
    p.aviso.AvisoCancelado? && p.id in Lugares(pub) ==>
      CentralInvariante.CancelaBien(t, Lugares(pub), CentralSpec.Incidente(p.id, p.posicion, "cancelado"), a)
  }

  ghost predicate CancelesSirven(t: CentralSpec.Tabla, pub: seq<Publicacion>, a: CentralSpec.Areas) {
    pub == [] ||
    (CancelesSirven(t, pub[..|pub| - 1], a) && CancelSirve(t, pub[..|pub| - 1], pub[|pub| - 1], a))
  }

  lemma UnCancelMas(t: CentralSpec.Tabla, pub: seq<Publicacion>, p: Publicacion, a: CentralSpec.Areas)
    ensures CancelesSirven(t, pub + [p], a) <==> CancelesSirven(t, pub, a) && CancelSirve(t, pub, p, a)
  {
    assert (pub + [p])[..|pub|] == pub;
  }

  /** A timer that wakes over an open incident and publishes finds the drone at a place that suits. */
  ghost predicate RelojSirve(t: CentralSpec.Tabla, s: Sistema, p: Paso, a: CentralSpec.Areas) {
    p.Sonar? && p.reloj < |s.relojes| && p.ok && s.relojes[p.reloj].id in Lugares(s.publicado) ==>
      CentralInvariante.CancelaBien(t, Lugares(s.publicado),
                                    CentralSpec.Incidente(s.relojes[p.reloj].id, s.relojes[p.reloj].posicion, "cancelado"), a)
  }

  ghost predicate RelojesSirven(t: CentralSpec.Tabla, s: Sistema, pasos: seq<Paso>, a: CentralSpec.Areas)
    decreases pasos
  {
    pasos != [] ==> RelojSirve(t, s, pasos[0], a) && RelojesSirven(t, Tras(s, pasos[0]), pasos[1..], a)
  }

  lemma SoloRelojesCancelanLejos(t: CentralSpec.Tabla, s: Sistema, p: Paso, a: CentralSpec.Areas)
    requires SitioEn(s, Objeto(s, p)) && Publicaciones(s, p).Some?
    ensures CancelSirve(t, s.publicado, Publicaciones(s, p).value, a) <==> RelojSirve(t, s, p, a)
  {
    var q := Publicaciones(s, p).value;
    if p.PublicarBaja? && q.id in Lugares(s.publicado) {
      CentralInvariante.MismaPosicionCancelaBien(t, Lugares(s.publicado), CentralSpec.Incidente(q.id, q.posicion, "cancelado"), a);
    }
  }

  lemma PasoSirve(t: CentralSpec.Tabla, s: Sistema, p: Paso, a: CentralSpec.Areas)
    requires SitioEn(s, Objeto(s, p))
    ensures CancelesSirven(t, Tras(s, p).publicado, a) <==> CancelesSirven(t, s.publicado, a) && RelojSirve(t, s, p, a)
  {
    PublicadoTras(s, p);
    if Publicaciones(s, p).Some? {
      UnCancelMas(t, s.publicado, Publicaciones(s, p).value, a);
      SoloRelojesCancelanLejos(t, s, p, a);
    } else {
      assert s.publicado + [] == s.publicado;
    }
  }

  lemma {:induction false} RelojesAlcanzan(t: CentralSpec.Tabla, s: Sistema, pasos: seq<Paso>, a: CentralSpec.Areas)
    requires Bien(s) && forall x: nat :: SitioEn(s, x)
    ensures CancelesSirven(t, Correr(s, pasos).publicado, a)
       <==> CancelesSirven(t, s.publicado, a) && RelojesSirven(t, s, pasos, a)
    decreases pasos
  {
    if pasos != [] {
      var p := pasos[0];
      assert BienEn(s, Objeto(s, p)) && SitioEn(s, Objeto(s, p));
      forall x: nat ensures SitioEn(Tras(s, p), x) {
        SitioTras(s, p, x);
      }
      PasoSirve(t, s, p, a);
      PasoBien(s, p);
      RelojesAlcanzan(t, Tras(s, p), pasos[1..], a);
    }
  }

  /** Whatever the interleaving, all cancels suit exactly when those of the timers do: the removals
      by hand repeat the position that was published. */
  lemma CancelesExactos(t: CentralSpec.Tabla, pasos: seq<Paso>, a: CentralSpec.Areas)
    ensures CancelesSirven(t, Correr(INICIAL, pasos).publicado, a) <==> RelojesSirven(t, INICIAL, pasos, a)
  {
    InicialBien();
    RelojesAlcanzan(t, INICIAL, pasos, a);
  }

  lemma {:induction false} SinRelojesSirven(t: CentralSpec.Tabla, s: Sistema, pasos: seq<Paso>, a: CentralSpec.Areas)
    requires SinRelojes(pasos)
    ensures RelojesSirven(t, s, pasos, a)
    decreases pasos
  {
    if pasos != [] {
      SinRelojesSirven(t, Tras(s, pasos[0]), pasos[1..], a);
    }
  }
}
