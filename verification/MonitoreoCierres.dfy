/** Whether an incident that is removed by hand is ever cancelled. */
module MonitoreoCierres {
  import opened Monitoreo
  import opened MonitoreoCorridas

  /** A timer of the incident sleeps, or is about to be started. */
  predicate HayReloj(s: Sistema, x: nat) {
    || (s.enCurso.Some? && s.enCurso.value.id == x)
    || exists k :: 0 <= k < |s.relojes| && s.relojes[k].id == x
  }

  /** Nothing is left that could publish its cancel. */
  predicate Olvidado(s: Sistema, x: nat) {
    Terminado(s, x) && x !in s.bajas && x !in s.porCerrar && !HayReloj(s, x)
  }

  lemma SinBajas(s: Sistema, p: Paso, x: nat)
    requires x !in s.lista && x !in s.bajas && x !in s.porCerrar
    ensures x !in Tras(s, p).bajas && x !in Tras(s, p).porCerrar
  {
    if DeAlta(p) || p.Reportar? || DeReloj(p) {
      MismasBajas(s, p);
    }
  }

  lemma MismasBajasAlta(s: Sistema, p: Paso)
    requires DeAlta(p)
    ensures Tras(s, p).bajas == s.bajas && Tras(s, p).porCerrar == s.porCerrar
  {
  }

  lemma MismasBajasReloj(s: Sistema, p: Paso)
    requires DeReloj(p)
    ensures Tras(s, p).bajas == s.bajas && Tras(s, p).porCerrar == s.porCerrar
  {
  }

  lemma MismasBajas(s: Sistema, p: Paso)
    requires DeAlta(p) || p.Reportar? || DeReloj(p)
    ensures Tras(s, p).bajas == s.bajas && Tras(s, p).porCerrar == s.porCerrar
  {
    if DeAlta(p) {
      MismasBajasAlta(s, p);
    } else if DeReloj(p) {
      MismasBajasReloj(s, p);
    } else {
      ReporteResto(s, p);
    }
  }

  lemma SinEnCurso(s: Sistema, p: Paso, x: nat)
    requires x !in s.lista && (s.enCurso.Some? ==> s.enCurso.value.id != x)
    ensures Tras(s, p).enCurso.Some? ==> Tras(s, p).enCurso.value.id != x
  {
    if Tras(s, p).enCurso.Some? {
      EnCursoTras(s, p);
      if s.enCurso.None? {
        EmpiezaListado(s, p);
      }
    }
  }

  lemma EmpiezaListado(s: Sistema, p: Paso)
    requires s.enCurso.None? && Tras(s, p).enCurso.Some?
    ensures Tras(s, p).enCurso.value.id in s.lista
  {
  }

  lemma SinRelojes(s: Sistema, p: Paso, x: nat)
    requires !HayReloj(s, x)
    ensures forall k :: 0 <= k < |Tras(s, p).relojes| ==> Tras(s, p).relojes[k].id != x
  {
    if DeReloj(p) {
      RelojesTras(s, p);
    } else {
      MismosRelojes(s, p);
    }
  }

  /** Once forgotten, forgotten for ever. */
  lemma {:induction false} OlvidadoSiempre(s: Sistema, pasos: seq<Paso>, x: nat)
    requires Bien(s) && Olvidado(s, x)
    ensures Olvidado(Correr(s, pasos), x) && (x in Cerrados(Correr(s, pasos).publicado) <==> x in Cerrados(s.publicado))
    decreases pasos
  {
    if pasos != [] {
      var p := pasos[0];
      assert BienEn(s, x) && BienEn(s, s.idCount);
      TerminadoSigue(s, p, x);
      SinBajas(s, p, x);
      SinEnCurso(s, p, x);
      SinRelojes(s, p, x);
      NadieLoCierra(s, p, x);
      PasoBien(s, p);
      OlvidadoSiempre(Tras(s, p), pasos[1..], x);
    }
  }

  lemma NadieLoCierra(s: Sistema, p: Paso, x: nat)
    requires Olvidado(s, x)
    ensures x in Cerrados(Tras(s, p).publicado) <==> x in Cerrados(s.publicado)
  {
    ConjuntosTras(s, p);
  }

  /** Some continuation publishes the cancel. */
  ghost predicate PuedeCerrarse(s: Sistema, x: nat) {
    exists luego :: x in Cerrados(Correr(s, luego).publicado)
  }

  lemma UnPaso(s: Sistema, p: Paso)
    ensures Correr(s, [p]) == Tras(s, p)
  {
    assert [p][1..] == [];
  }

  lemma CierraConEntrada(s: Sistema, x: nat)
    requires x in s.porCerrar
    ensures PuedeCerrarse(s, x)
  {
    UnPaso(s, PublicarBaja(x, true));
    ConjuntosTras(s, PublicarBaja(x, true));
  }

  lemma CierraConReloj(s: Sistema, x: nat)
    requires s.enCurso.None? && HayReloj(s, x)
    ensures PuedeCerrarse(s, x)
  {
    var k :| 0 <= k < |s.relojes| && s.relojes[k].id == x;
    UnPaso(s, Sonar(k, true));
    ConjuntosTras(s, Sonar(k, true));
  }

  /** Its removal is at one place only. */
  predicate Aparte(s: Sistema, x: nat) {
    x in s.bajas ==> x !in s.porCerrar
  }

  lemma ApartePaso(s: Sistema, p: Paso, x: nat)
    requires BienEn(s, x) && Aparte(s, x)
    ensures Aparte(Tras(s, p), x)
  {
    if !DeBaja(p) {
      MismasBajas(s, p);
    }
  }

  lemma {:induction false} ApartadosSiempre(s: Sistema, pasos: seq<Paso>, x: nat)
    requires Bien(s) && Aparte(s, x)
    ensures Aparte(Correr(s, pasos), x)
    decreases pasos
  {
    if pasos != [] {
      assert BienEn(s, x);
      ApartePaso(s, pasos[0], x);
      PasoBien(s, pasos[0]);
      ApartadosSiempre(Tras(s, pasos[0]), pasos[1..], x);
    }
  }

  /** What letting go of an incident that is removed leaves. */
  lemma TrasSoltar(s: Sistema, x: nat)
    requires Bien(s) && Aparte(s, x) && x in s.bajas && s.enCurso.None?
    ensures var s' := Tras(s, Soltar(x));
      && (x in s.drones ==> x in s'.porCerrar) && s'.relojes == s.relojes && s'.enCurso.None? && s'.publicado == s.publicado
      && (x !in s.drones && !HayReloj(s, x) ==> Olvidado(s', x))
  {
    assert BienEn(s, x);
  }

  /** Over every interleaving: an incident that is removed by hand can still be cancelled, when its table of
      drones is looked up, exactly if its creation has noted it there or a timer of it sleeps. */
  lemma CierreExacto(pasos: seq<Paso>, x: nat)
    requires var s := Correr(INICIAL, pasos);
      x in s.bajas && s.enCurso.None? && x !in Cerrados(s.publicado)
    ensures var s := Correr(INICIAL, pasos);
      PuedeCerrarse(Tras(s, Soltar(x)), x) <==> x in s.drones || HayReloj(s, x)
  {
    CorridaBien(INICIAL, pasos);
    ApartadosSiempre(INICIAL, pasos, x);
    var s := Correr(INICIAL, pasos);
    var s' := Tras(s, Soltar(x));
    TrasSoltar(s, x);
    PasoBien(s, Soltar(x));
    if x in s.drones {
      CierraConEntrada(s', x);
    } else if HayReloj(s, x) {
      CierraConReloj(s', x);
    } else {
      forall luego ensures x !in Cerrados(Correr(s', luego).publicado) {
        OlvidadoSiempre(s', luego, x);
      }
    }
  }

  /** A creation, and a removal by hand before its last section. */
  function QuitadoPronto(inc: Incidente): seq<Paso> {
    [Reservar(inc), PublicarAlta(0, true), Listar(0)] + [Quitar(0)]
  }

  lemma ListadoSinEntrada(inc: Incidente)
    ensures var s := Correr(INICIAL, [Reservar(inc), PublicarAlta(0, true), Listar(0)]);
      && s.lista == map[0 := inc.(estado := Pendiente)] && s.drones == map[] && s.enCurso.None? && s.relojes == []
      && s.publicado == [Publicacion(0, inc.posicion, AvisoPendiente)]
  {
    CorrerTres(INICIAL, Reservar(inc), PublicarAlta(0, true), Listar(0));
    var none: seq<Publicacion> := [];
    assert none + [Publicacion(0, inc.posicion, AvisoPendiente)] == [Publicacion(0, inc.posicion, AvisoPendiente)];
  }

  /** Removed that early, an incident stays open whatever happens then. */
  lemma NuncaCerrado(inc: Incidente, luego: seq<Paso>)
    ensures var s := Correr(INICIAL, QuitadoPronto(inc));
      && 0 in s.bajas && 0 in Abiertos(s.publicado)
      && 0 !in Cerrados(Correr(Tras(s, Soltar(0)), luego).publicado)
  {
    var pronto := [Reservar(inc), PublicarAlta(0, true), Listar(0)];
    ListadoSinEntrada(inc);
    CorrerJuntos(INICIAL, pronto, [Quitar(0)]);
    UnPaso(Correr(INICIAL, pronto), Quitar(0));
    var s := Correr(INICIAL, QuitadoPronto(inc));
    assert s.publicado[..0] == [];
    CierreExacto(QuitadoPronto(inc), 0);
    assert !PuedeCerrarse(Tras(s, Soltar(0)), 0);
  }
}
