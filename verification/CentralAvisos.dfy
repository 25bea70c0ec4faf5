/** One message per change of state, whatever the counters have become. */
module CentralAvisos {
  import opened Wrappers
  import opened Camaras
  import opened CentralSpec
  import opened CentralInvariante
  import opened CentralCorridas

  // ----- what every run keeps -----

  /** A camera that saves energy lists nothing and counts nothing, or less than nothing after a cancel
      that did not suit. */
  ghost predicate Sosegada(c: Foto) {
    SinRepetidos(c.incidentes) && (c.estado == AhorroDeEnergia ==> c.incidentes == [] && c.numlindantes <= 0)
  }

  ghost predicate Sosegadas(t: Tabla) {
    forall k :: k in t ==> Sosegada(t[k])
  }

  lemma AnotarSosiega(c: Foto, inc: Incidente, area: real)
    requires Sosegada(c)
    ensures Sosegada(Anotar(c, inc, area))
  {
  }

  lemma PendienteSosiega(t: Tabla, inc: Incidente, a: Areas)
    requires Sosegadas(t)
    ensures Sosegadas(TrasPendiente(t, inc, a))
  {
    forall k | k in TrasPendiente(t, inc, a) ensures Sosegada(TrasPendiente(t, inc, a)[k]) {
      PendienteEn(t, inc, k, a);
      AnotarSosiega(t[k], inc, a.incidente);
    }
  }

  /** A cancel covers itself: a camera in its zone is told to discount at least once. */
  lemma CubiertaDescuenta(t: Tabla, inc: Incidente, k: nat, a: Areas)
    requires a.lindante >= 0.0 && k in t
    ensures k in Zona(t, inc.posicion, a.incidente) ==> |Cercanas(t, Zona(t, inc.posicion, a.incidente), k, a.lindante)| >= 1
    ensures Cercanas(TrasDesanotar(t, inc, a), Zona(t, inc.posicion, a.incidente), k, a.lindante)
         == Cercanas(t, Zona(t, inc.posicion, a.incidente), k, a.lindante)
  {
    CercaConmigo(t, Zona(t, inc.posicion, a.incidente), k, a);
    LugaresBastan(t, TrasDesanotar(t, inc, a), map[], k, Zona(t, inc.posicion, a.incidente), a);
  }

  lemma CanceladoSosiega(t: Tabla, inc: Incidente, a: Areas)
    requires a.lindante >= 0.0 && Sosegadas(t)
    ensures Sosegadas(TrasCancelado(t, inc, a))
  {
    forall k | k in TrasCancelado(t, inc, a) ensures Sosegada(TrasCancelado(t, inc, a)[k]) {
      CanceladoEn(t, inc, k, a);
      DesanotarLista(t[k], inc, a.incidente);
      CubiertaDescuenta(t, inc, k, a);
    }
  }

  lemma PasoSosiega(s: Estado, e: Suceso, a: Areas)
    requires a.lindante >= 0.0 && Sosegadas(s.tabla)
    ensures Sosegadas(Paso(s, e, a).tabla)
  {
    match e
    case Mensaje(None) =>
    case Mensaje(Some(inc)) =>
      PendienteSosiega(s.tabla, inc, a);
      CanceladoSosiega(s.tabla, inc, a);
    case Alta(p) =>
    case Baja(k, archivo) =>
  }

  lemma {:induction false} CorridaSosiega(s: Estado, es: seq<Suceso>, a: Areas)
    requires a.lindante >= 0.0 && Sosegadas(s.tabla)
    ensures Sosegadas(Correr(s, es, a).tabla)
    decreases es
  {
    if es != [] {
      PasoSosiega(s, es[0], a);
      CorridaSosiega(Paso(s, es[0], a), es[1..], a);
    }
  }

  /** Right counters are quiet. */
  lemma BienSosiega(t: Tabla, vivos: map<int, Posicion>, a: Areas)
    requires Bien(t, vivos, a)
    ensures Sosegadas(t)
    ensures forall k :: k in t && t[k].estado == AhorroDeEnergia ==> t[k].numlindantes == 0
  {
    forall k | k in t ensures Sosegada(t[k]) && (t[k].estado == AhorroDeEnergia ==> t[k].numlindantes == 0) {
      assert CamaraBien(t, vivos, k, a);
    }
  }

  // ----- what is announced -----

  /** One message for each camera whose state differs between the two tables. */
  function Cambios(t: Tabla, t': Tabla): set<Aviso> {
    AvisosDe(t, Despiertan(t, t'), Graba) + AvisosDe(t, Duermen(t, t'), Ahorro)
  }

  /** Cameras that the "cancelado" covers while they save energy, and whose counter is 0. */
  function Dormidas(t: Tabla, inc: Incidente, a: Areas): set<nat> {
    set r | r in Zona(t, inc.posicion, a.incidente) && t[r].estado == AhorroDeEnergia && t[r].numlindantes == 0
  }

  /** The cameras that send "ahorro" for a "cancelado" are those that fall asleep and those that it
      covers while they sleep with a counter of 0. */
  lemma CanceladoBaja(t: Tabla, inc: Incidente, c: nat, a: Areas)
    requires a.lindante >= 0.0 && c in t && Sosegada(t[c])
    ensures c in BajanAlCancelar(t, inc, a) <==> c in Duermen(t, TrasCancelado(t, inc, a)) || c in Dormidas(t, inc, a)
    ensures c !in Despiertan(t, TrasCancelado(t, inc, a))
  {
    CanceladoEn(t, inc, c, a);
    BajanCancelado(t, inc, c, a);
    DesanotarLista(t[c], inc, a.incidente);
    CubiertaDescuenta(t, inc, c, a);
  }

  lemma BajanSonDuermenDormidas(t: Tabla, inc: Incidente, a: Areas)
    requires a.lindante >= 0.0 && Sosegadas(t)
    ensures BajanAlCancelar(t, inc, a) == Duermen(t, TrasCancelado(t, inc, a)) + Dormidas(t, inc, a)
    ensures Despiertan(t, TrasCancelado(t, inc, a)) == {}
  {
    var B, D, W := BajanAlCancelar(t, inc, a), Duermen(t, TrasCancelado(t, inc, a)), Despiertan(t, TrasCancelado(t, inc, a));
    var O := Dormidas(t, inc, a);
    assert B <= t.Keys && D <= t.Keys && O <= t.Keys && W <= t.Keys;
    forall c | c in t ensures (c in B <==> c in D + O) && c !in W {
      CanceladoBaja(t, inc, c, a);
    }
    MismosElementos(t.Keys, B, D + O);
    MismosElementos(t.Keys, W, {});
  }

  lemma DormidasNoDuermen(t: Tabla, t': Tabla, inc: Incidente, a: Areas)
    ensures Dormidas(t, inc, a) !! Duermen(t, t')
  {
  }

  lemma SobraSi(b: set<nat>, d: set<nat>, o: set<nat>)
    requires b == d + o && o !! d
    ensures b == d <==> o == {}
  {
    if o != {} {
      var x :| x in o;
      assert x in b && x !in d;
    }
  }

  lemma CambiosDeUnTipo(t: Tabla, t': Tabla)
    ensures Duermen(t, t') == {} ==> Cambios(t, t') == AvisosDe(t, Despiertan(t, t'), Graba)
    ensures Despiertan(t, t') == {} ==> Cambios(t, t') == AvisosDe(t, Duermen(t, t'), Ahorro)
  {
    assert AvisosDe(t, {}, Graba) == {} && AvisosDe(t, {}, Ahorro) == {};
  }

  lemma CanceladoAvisaCambios(t: Tabla, inc: Incidente, a: Areas)
    requires a.lindante >= 0.0 && Sosegadas(t)
    ensures AvisosDe(t, BajanAlCancelar(t, inc, a), Ahorro) == Cambios(t, TrasCancelado(t, inc, a))
       <==> Dormidas(t, inc, a) == {}
  {
    var t' := TrasCancelado(t, inc, a);
    BajanSonDuermenDormidas(t, inc, a);
    DormidasNoDuermen(t, t', inc, a);
    CambiosDeUnTipo(t, t');
    SobraSi(BajanAlCancelar(t, inc, a), Duermen(t, t'), Dormidas(t, inc, a));
    CanceladoLugares(t, inc, a);
    AvisosIguales(t, BajanAlCancelar(t, inc, a), Duermen(t, t'));
  }

  lemma UnAvisoDesde(s: Estado, inc: Incidente, a: Areas, av: seq<Aviso>)
    requires a.lindante >= 0.0 && Sosegadas(s.tabla)
    requires !Ignorado(s.vistos, inc) && PublicaPaso(s, Mensaje(Some(inc)), a, av)
    ensures Publica(av, Cambios(s.tabla, TrasIncidente(s.tabla, inc, a)))
       <==> (inc.estado == "cancelado" ==> Dormidas(s.tabla, inc, a) == {})
  {
    var t, t' := s.tabla, TrasIncidente(s.tabla, inc, a);
    if inc.estado == "cancelado" {
      CanceladoAvisaCambios(t, inc, a);
    } else if inc.estado == "pendiente" {
      PendienteNoDuerme(t, inc, a);
      CambiosDeUnTipo(t, t');
    } else {
      SinCambios(t);
    }
    MismosAvisos(av, AvisosIncidente(t, inc, a), Cambios(t, t'));
  }

  /** After any run, suitable cancels or not: a fresh message publishes exactly one message per camera
      that changes and no other iff it does not cancel over a camera that saves energy with a
      counter of 0. */
  lemma UnAvisoPorCambio(es: seq<Suceso>, inc: Incidente, a: Areas, av: seq<Aviso>)
    requires a.lindante >= 0.0
    requires var s := Correr(INICIAL, es, a); !Ignorado(s.vistos, inc) && PublicaPaso(s, Mensaje(Some(inc)), a, av)
    ensures var s := Correr(INICIAL, es, a);
      Publica(av, Cambios(s.tabla, TrasIncidente(s.tabla, inc, a)))
      <==> (inc.estado == "cancelado" ==> Dormidas(s.tabla, inc, a) == {})
  {
    CorridaSosiega(INICIAL, es, a);
    UnAvisoDesde(Correr(INICIAL, es, a), inc, a, av);
  }

  /** With right counters: iff it does not cancel over a camera that saves energy. */
  lemma UnAvisoEnOrden(s: Estado, inc: Incidente, a: Areas, av: seq<Aviso>)
    requires a.lindante >= 0.0 && Bien(s.tabla, s.vivos, a)
    requires !Ignorado(s.vistos, inc) && PublicaPaso(s, Mensaje(Some(inc)), a, av)
    ensures Publica(av, Cambios(s.tabla, TrasIncidente(s.tabla, inc, a)))
       <==> (inc.estado == "cancelado" ==>
               forall r :: r in Zona(s.tabla, inc.posicion, a.incidente) ==> s.tabla[r].estado != AhorroDeEnergia)
  {
    BienSosiega(s.tabla, s.vivos, a);
    UnAvisoDesde(s, inc, a, av);
    assert Dormidas(s.tabla, inc, a) == {} <==>
      forall r :: r in Zona(s.tabla, inc.posicion, a.incidente) ==> s.tabla[r].estado != AhorroDeEnergia by {
      if r :| r in Zona(s.tabla, inc.posicion, a.incidente) && s.tabla[r].estado == AhorroDeEnergia {
        assert r in Dormidas(s.tabla, inc, a);
      }
    }
  }

  lemma QuietaDormida(inc: Incidente)
    requires inc.posicion == Posicion(0.0, 0.0)
    ensures Dormidas(map[1 := QUIETA], inc, AREAS) == {1} && Duermen(map[1 := QUIETA], TrasCancelado(map[1 := QUIETA], inc, AREAS)) == {}
  {
    ZonaUnaSola(QUIETA, inc.posicion, AREAS);
    assert QUIETA.posicion.EnRango(inc.posicion, AREAS.incidente);
  }

  /** One camera that saves energy and a cancel over it: "ahorro" is published and nothing changes. */
  lemma AhorroDeMas(inc: Incidente)
    requires inc.estado == "cancelado" && inc.posicion == Posicion(0.0, 0.0)
    ensures var t := map[1 := QUIETA];
      && AvisosIncidente(t, inc, AREAS) == {Aviso(Posicion(0.0, 0.0), Ahorro, 1)}
      && Cambios(t, TrasIncidente(t, inc, AREAS)) == {}
    ensures Paso(INICIAL, Alta(Posicion(0.0, 0.0)), AREAS).tabla == map[1 := QUIETA]
  {
    var t := map[1 := QUIETA];
    QuietaBien();
    QuietaDormida(inc);
    BienSosiega(t, map[], AREAS);
    BajanSonDuermenDormidas(t, inc, AREAS);
    CambiosDeUnTipo(t, TrasCancelado(t, inc, AREAS));
    AvisoUnico(t, 1);
  }

  lemma AvisoUnico(t: Tabla, k: nat)
    requires k in t
    ensures AvisosDe(t, {} + {k}, Ahorro) == {AvisoDe(t[k], k, Ahorro)} && AvisosDe(t, {}, Ahorro) == {}
  {
  }

  lemma SinCambios(t: Tabla)
    ensures Cambios(t, t) == {}
  {
    assert Despiertan(t, t) == {};
    CambiosDeUnTipo(t, t);
    assert Duermen(t, t) == {};
  }

  lemma AvisosIguales(t: Tabla, x: set<nat>, y: set<nat>)
    requires x <= t.Keys && y <= t.Keys
    ensures AvisosDe(t, x, Ahorro) == AvisosDe(t, y, Ahorro) <==> x == y
  {
    if AvisosDe(t, x, Ahorro) == AvisosDe(t, y, Ahorro) {
      forall k ensures k in x <==> k in y {
        if k in x {
          assert AvisoDe(t[k], k, Ahorro) in AvisosDe(t, x, Ahorro);
        }
        if k in y {
          assert AvisoDe(t[k], k, Ahorro) in AvisosDe(t, y, Ahorro);
        }
      }
    }
  }

  lemma MismosAvisos(av: seq<Aviso>, x: set<Aviso>, y: set<Aviso>)
    requires Publica(av, x)
    ensures Publica(av, y) <==> x == y
  {
  }

  lemma BajaAvisaEn(t: Tabla, k: nat, area: real, c: nat)
    requires Sosegadas(t) && k in t && c in t
    ensures c in BajanAlAvisar(t, t[k].posicion, area, |t[k].incidentes|) <==> c in Duermen(t, TrasBaja(t, k, area))
    ensures c !in Despiertan(t, TrasBaja(t, k, area))
  {
    assert Sosegada(t[c]);
    if c == k {
      assert c !in TrasBaja(t, k, area);
    } else {
      assert TrasBaja(t, k, area)[c] == RestarSiCerca(t[c], t[k].posicion, area, |t[k].incidentes|);
    }
  }

  lemma BajaAvisaDesde(t: Tabla, k: nat, area: real)
    requires Sosegadas(t) && k in t
    ensures BajanAlAvisar(t, t[k].posicion, area, |t[k].incidentes|) == Duermen(t, TrasBaja(t, k, area))
    ensures Despiertan(t, TrasBaja(t, k, area)) == {}
  {
    var B, D, W := BajanAlAvisar(t, t[k].posicion, area, |t[k].incidentes|), Duermen(t, TrasBaja(t, k, area)),
                   Despiertan(t, TrasBaja(t, k, area));
    assert B <= t.Keys && D <= t.Keys && W <= t.Keys;
    forall c | c in t ensures (c in B <==> c in D) && c !in W {
      BajaAvisaEn(t, k, area, c);
    }
    MismosElementos(t.Keys, B, D);
    MismosElementos(t.Keys, W, {});
  }

  /** After any run, removing a camera announces exactly the cameras that stop recording because of it. */
  lemma BajaAvisaCambios(es: seq<Suceso>, k: nat, area: real, a: Areas)
    requires a.lindante >= 0.0 && k in Correr(INICIAL, es, a).tabla
    ensures var t := Correr(INICIAL, es, a).tabla;
      && BajanAlAvisar(t, t[k].posicion, area, |t[k].incidentes|) == Duermen(t, TrasBaja(t, k, area))
      && Despiertan(t, TrasBaja(t, k, area)) == {}
  {
    CorridaSosiega(INICIAL, es, a);
    BajaAvisaDesde(Correr(INICIAL, es, a).tabla, k, area);
  }

  lemma MismosElementos(u: set<nat>, x: set<nat>, y: set<nat>)
    requires x <= u && y <= u && forall c :: c in u ==> (c in x <==> c in y)
    ensures x == y
  {
  }

  // ----- a camera in debt -----

  const VECINA := Foto(Posicion(1.0, 0.0), AhorroDeEnergia, [], 0)
  const DEUDORA := Foto(Posicion(0.0, 0.0), AhorroDeEnergia, [], -1)

  lemma AltaDeDos()
    ensures Correr(INICIAL, [Alta(Posicion(0.0, 0.0)), Alta(Posicion(1.0, 0.0))], AREAS)
         == Estado(map[1 := QUIETA, 2 := VECINA], {}, 2, map[])
  {
    var dos := [Alta(Posicion(0.0, 0.0)), Alta(Posicion(1.0, 0.0))];
    var s1 := Paso(INICIAL, dos[0], AREAS);
    assert s1 == Estado(map[1 := QUIETA], {}, 1, map[]);
    assert dos[1..] == [dos[1]] && [dos[1]][1..] == [];
    assert Correr(s1, [dos[1]], AREAS) == Correr(Paso(s1, dos[1], AREAS), [], AREAS);
  }

  lemma Distancias()
    ensures !QUIETA.posicion.EnRango(Posicion(2.0, 0.0), AREAS.incidente) && VECINA.posicion.EnRango(Posicion(2.0, 0.0), AREAS.incidente)
    ensures QUIETA.posicion.EnRango(VECINA.posicion, AREAS.lindante) && QUIETA.posicion.EnRango(Posicion(-0.5, 0.0), AREAS.incidente)
  {
  }

  lemma SoloCubreVecina(t: Tabla, lejos: Incidente)
    requires t == map[1 := QUIETA, 2 := VECINA] && lejos.posicion == Posicion(2.0, 0.0)
    ensures Zona(t, lejos.posicion, AREAS.incidente) == {2} && Cercanas(t, {2}, 1, AREAS.lindante) == {2}
  {
    Distancias();
  }

  lemma QuedaEnDeuda(t: Tabla, lejos: Incidente)
    requires t == map[1 := QUIETA, 2 := VECINA] && lejos.posicion == Posicion(2.0, 0.0)
    ensures 1 in TrasCancelado(t, lejos, AREAS) && TrasCancelado(t, lejos, AREAS)[1] == DEUDORA
  {
    CanceladoEn(t, lejos, 1, AREAS);
    SoloCubreVecina(t, lejos);
    Distancias();
  }

  lemma DeudoraCalla(t: Tabla, encima: Incidente)
    requires 1 in t && t[1] == DEUDORA && encima.posicion == Posicion(-0.5, 0.0)
    ensures 1 in Zona(t, encima.posicion, AREAS.incidente) && 1 !in BajanAlCancelar(t, encima, AREAS)
    ensures 1 in TrasCancelado(t, encima, AREAS) && TrasCancelado(t, encima, AREAS)[1].estado == AhorroDeEnergia
  {
    Distancias();
    CanceladoBaja(t, encima, 1, AREAS);
    CanceladoEn(t, encima, 1, AREAS);
    BajanCancelado(t, encima, 1, AREAS);
  }

  /** A cancel that covers only a neighbour leaves a camera with a counter of -1; one that covers the camera
      then publishes nothing for it, and nothing changes. */
  lemma EnDeuda(lejos: Incidente, encima: Incidente)
    requires lejos.estado == "cancelado" && lejos.posicion == Posicion(2.0, 0.0)
    requires encima.estado == "cancelado" && encima.posicion == Posicion(-0.5, 0.0)
    ensures var s := Correr(INICIAL, [Alta(Posicion(0.0, 0.0)), Alta(Posicion(1.0, 0.0))], AREAS);
      var t := TrasIncidente(s.tabla, lejos, AREAS);
      && 1 in t && t[1] == DEUDORA && 1 in Zona(t, encima.posicion, AREAS.incidente)
      && 1 !in BajanAlCancelar(t, encima, AREAS) && 1 in TrasIncidente(t, encima, AREAS)
      && TrasIncidente(t, encima, AREAS)[1].estado == AhorroDeEnergia
  {
    var t := map[1 := QUIETA, 2 := VECINA];
    AltaDeDos();
    QuedaEnDeuda(t, lejos);
    DeudoraCalla(TrasCancelado(t, lejos, AREAS), encima);
  }
}
