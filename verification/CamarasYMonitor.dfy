/** From the monitor to the cameras: the central handles what the monitor publishes about incidents. */
module CamarasYMonitor {
  import opened Wrappers
  import opened Camaras
  import CentralSpec
  import CentralInvariante
  import CentralCorridas
  import opened Monitoreo
  import opened MonitoreoCorridas
  import opened MonitoreoCentral

  function Texto(a: Aviso): string {
    match a
    case AvisoPendiente => "pendiente"
    case AvisoActivo(_, _) => "activo"
    case AvisoCancelado => "cancelado"
  }

  function Mensaje(p: Publicacion): CentralSpec.Suceso {
    CentralSpec.Mensaje(Some(CentralSpec.Incidente(p.id, p.posicion, Texto(p.aviso))))
  }

  function Mensajes(pub: seq<Publicacion>): seq<CentralSpec.Suceso> {
    seq(|pub|, i requires 0 <= i < |pub| => Mensaje(pub[i]))
  }

  lemma {:induction false} CorrerUltimo(c: CentralSpec.Estado, es: seq<CentralSpec.Suceso>, e: CentralSpec.Suceso, a: CentralSpec.Areas)
    ensures CentralCorridas.Correr(c, es + [e], a) == CentralSpec.Paso(CentralCorridas.Correr(c, es, a), e, a)
    decreases es
  {
    if es == [] {
      assert ([] + [e])[1..] == [];
      assert es + [e] == [e];
      assert CentralCorridas.Correr(c, [e], a) == CentralCorridas.Correr(CentralSpec.Paso(c, e, a), [], a);
    } else {
      assert (es + [e])[1..] == es[1..] + [e];
      CorrerUltimo(CentralSpec.Paso(c, es[0], a), es[1..], e, a);
    }
  }

  /** The central knows what the monitor published: an incident that is no longer open has had its
      "cancelado" handled. */
  ghost predicate AlDia(c: CentralSpec.Estado, pub: seq<Publicacion>) {
    && c.vivos == Lugares(pub)
    && (forall x: nat :: (x, "pendiente") in c.vistos ==> x in Abiertos(pub))
    && (forall x: nat :: (x, "cancelado") in c.vistos <==> x in Abiertos(pub) && x !in Lugares(pub))
  }

  /** A central with cameras and without incidents. */
  ghost predicate EnCalma(c: CentralSpec.Estado, a: CentralSpec.Areas) {
    && c.vivos == map[] && c.vistos == {} && CentralCorridas.Orden(c) && CentralInvariante.Bien(c.tabla, c.vivos, a)
  }

  lemma SigueAlDia(c: CentralSpec.Estado, pub: seq<Publicacion>, p: Publicacion, a: CentralSpec.Areas)
    requires AlDia(c, pub) && EnOrden(pub + [p])
    ensures AlDia(CentralSpec.Paso(c, Mensaje(p), a), pub + [p])
  {
    LugaresUnoMas(pub, p);
    UnaMas(pub, p);
    LugaresAbiertos(pub);
  }

  lemma CancelaIgual(t: CentralSpec.Tabla, t': CentralSpec.Tabla, vivos: map<int, Posicion>, inc: CentralSpec.Incidente,
                     a: CentralSpec.Areas)
    requires CentralSpec.MismosLugares(t, t')
    ensures CentralInvariante.CancelaBien(t, vivos, inc, a) <==> CentralInvariante.CancelaBien(t', vivos, inc, a)
  {
    assert CentralInvariante.ZonaDe(t, vivos, inc.id, a) == CentralInvariante.ZonaDe(t', vivos, inc.id, a);
    assert CentralSpec.Zona(t, inc.posicion, a.incidente) == CentralSpec.Zona(t', inc.posicion, a.incidente);
  }

  lemma AdmisibleSiSirve(t: CentralSpec.Tabla, c: CentralSpec.Estado, pub: seq<Publicacion>, p: Publicacion, a: CentralSpec.Areas)
    requires AlDia(c, pub) && EnOrden(pub + [p]) && CentralSpec.MismosLugares(t, c.tabla)
    ensures CentralCorridas.Admisible(c, Mensaje(p), a) <==> CancelSirve(t, pub, p, a)
  {
    UnaMas(pub, p);
    CancelaIgual(t, c.tabla, Lugares(pub), CentralSpec.Incidente(p.id, p.posicion, "cancelado"), a);
  }

  lemma LugaresEnCadena(t: CentralSpec.Tabla, t1: CentralSpec.Tabla, t2: CentralSpec.Tabla)
    requires CentralSpec.MismosLugares(t, t1) && CentralSpec.MismosLugares(t1, t2)
    ensures CentralSpec.MismosLugares(t, t2)
  {
  }

  lemma MensajeNoMueve(t: CentralSpec.Tabla, c: CentralSpec.Estado, p: Publicacion, a: CentralSpec.Areas)
    requires CentralSpec.MismosLugares(t, c.tabla)
    ensures CentralSpec.MismosLugares(t, CentralSpec.Paso(c, Mensaje(p), a).tabla)
  {
    var inc := CentralSpec.Incidente(p.id, p.posicion, Texto(p.aviso));
    CentralCorridas.IncidenteNoMueve(c.tabla, inc, a);
    assert CentralSpec.Paso(c, Mensaje(p), a).tabla == if CentralSpec.Ignorado(c.vistos, inc) then c.tabla else CentralSpec.TrasIncidente(c.tabla, inc, a);
    LugaresEnCadena(t, c.tabla, CentralSpec.Paso(c, Mensaje(p), a).tabla);
  }

  lemma {:induction false} AdmisiblesUltimo(c: CentralSpec.Estado, es: seq<CentralSpec.Suceso>, e: CentralSpec.Suceso, a: CentralSpec.Areas)
    ensures CentralCorridas.TodosAdmisibles(c, es + [e], a)
       <==> CentralCorridas.TodosAdmisibles(c, es, a) && CentralCorridas.Admisible(CentralCorridas.Correr(c, es, a), e, a)
    decreases es
  {
    if es == [] {
      assert ([] + [e])[1..] == [];
      assert es + [e] == [e];
      assert CentralCorridas.TodosAdmisibles(CentralSpec.Paso(c, e, a), [], a);
    } else {
      assert (es + [e])[1..] == es[1..] + [e];
      AdmisiblesUltimo(CentralSpec.Paso(c, es[0], a), es[1..], e, a);
    }
  }

  /** The central keeps up with the monitor, and handles only admissible messages exactly when the
      cancels suit. */
  lemma {:induction false} CentralAlDia(c: CentralSpec.Estado, pub: seq<Publicacion>, a: CentralSpec.Areas)
    requires EnCalma(c, a) && EnOrden(pub)
    ensures var c' := CentralCorridas.Correr(c, Mensajes(pub), a);
      && AlDia(c', pub) && CentralSpec.MismosLugares(c.tabla, c'.tabla)
      && (CentralCorridas.TodosAdmisibles(c, Mensajes(pub), a) <==> CancelesSirven(c.tabla, pub, a))
  {
    if pub != [] {
      var antes, p := pub[..|pub| - 1], pub[|pub| - 1];
      CentralAlDia(c, antes, a);
      assert Mensajes(pub) == Mensajes(antes) + [Mensaje(p)] && antes + [p] == pub;
      CorrerUltimo(c, Mensajes(antes), Mensaje(p), a);
      AdmisiblesUltimo(c, Mensajes(antes), Mensaje(p), a);
      var c1 := CentralCorridas.Correr(c, Mensajes(antes), a);
      SigueAlDia(c1, antes, p, a);
      AdmisibleSiSirve(c.tabla, c1, antes, p, a);
      MensajeNoMueve(c.tabla, c1, p, a);
    }
  }

  /** An open incident reaches the camera or one of its neighbours. */
  ghost predicate Alcanzada(t: CentralSpec.Tabla, vivos: map<int, Posicion>, k: nat, a: CentralSpec.Areas)
    requires k in t
  {
    exists r, i :: r in t && i in vivos && t[k].posicion.EnRango(t[r].posicion, a.lindante)
                   && t[r].posicion.EnRango(vivos[i], a.incidente)
  }

  lemma GrabaSii(t: CentralSpec.Tabla, vivos: map<int, Posicion>, k: nat, a: CentralSpec.Areas)
    requires a.lindante >= 0.0 && CentralInvariante.Bien(t, vivos, a) && k in t
    ensures t[k].estado == Grabando <==> Alcanzada(t, vivos, k, a)
  {
    CentralInvariante.GrabaSiiAlcanzada(t, vivos, k, a);
  }

  lemma PublicadoEnOrden(pasos: seq<Paso>)
    ensures EnOrden(Correr(INICIAL, pasos).publicado)
  {
    CorridaBien(INICIAL, pasos);
  }

  /** The central's open incidents, for every interleaving of the monitor: once it has handled all
      that was published they are those published and not cancelled, and every listed one is there. */
  lemma CentralConoceAbiertos(pasos: seq<Paso>, c: CentralSpec.Estado, a: CentralSpec.Areas)
    requires EnCalma(c, a)
    ensures var s := Correr(INICIAL, pasos);
      var vivos := CentralCorridas.Correr(c, Mensajes(s.publicado), a).vivos;
      && vivos == Lugares(s.publicado)
      && (forall x: nat :: x in vivos <==> x in Abiertos(s.publicado) && x !in Cerrados(s.publicado))
      && (forall x: nat :: x in s.lista ==> x in vivos)
  {
    var s := Correr(INICIAL, pasos);
    CorridaBien(INICIAL, pasos);
    CentralAlDia(c, s.publicado, a);
    forall x: nat ensures x in Lugares(s.publicado) <==> x in Abiertos(s.publicado) && x !in Cerrados(s.publicado) {
      LugaresExactos(s.publicado, x);
    }
    forall x: nat ensures x in s.lista ==> x in Lugares(s.publicado) {
      assert BienEn(s, x);
      LugaresExactos(s.publicado, x);
    }
  }

  /** For every interleaving of the monitor, timers included: the lists, counters and states of the
      cameras are right after every message exactly when each timer that cancels an open incident
      finds the drone at a place that suits. */
  lemma CamarasSiguenExacto(pasos: seq<Paso>, c: CentralSpec.Estado, a: CentralSpec.Areas)
    requires a.lindante >= 0.0 && EnCalma(c, a)
    ensures CentralCorridas.SiempreBien(c, Mensajes(Correr(INICIAL, pasos).publicado), a)
       <==> RelojesSirven(c.tabla, INICIAL, pasos, a)
  {
    var pub := Correr(INICIAL, pasos).publicado;
    PublicadoEnOrden(pasos);
    CentralAlDia(c, pub, a);
    CancelesExactos(c.tabla, pasos, a);
    CentralCorridas.CorridaExacta(c, Mensajes(pub), a);
  }

  /** Then a camera records exactly when an open incident reaches it or one of its neighbours. */
  lemma GrabaSiRelojesSirven(pasos: seq<Paso>, c: CentralSpec.Estado, k: nat, a: CentralSpec.Areas)
    requires a.lindante >= 0.0 && EnCalma(c, a) && RelojesSirven(c.tabla, INICIAL, pasos, a)
    ensures var pub := Correr(INICIAL, pasos).publicado;
      var t := CentralCorridas.Correr(c, Mensajes(pub), a).tabla;
      t.Keys == c.tabla.Keys && (k in t ==> (t[k].estado == Grabando <==> Alcanzada(t, Lugares(pub), k, a)))
  {
    var pub := Correr(INICIAL, pasos).publicado;
    PublicadoEnOrden(pasos);
    CentralAlDia(c, pub, a);
    CancelesExactos(c.tabla, pasos, a);
    CentralCorridas.CorridaExacta(c, Mensajes(pub), a);
    var t := CentralCorridas.Correr(c, Mensajes(pub), a).tabla;
    if k in t {
      GrabaSii(t, Lugares(pub), k, a);
    }
  }

  /** In particular when no timer has woken. */
  lemma CamarasSiguenAlMonitor(pasos: seq<Paso>, c: CentralSpec.Estado, k: nat, a: CentralSpec.Areas)
    requires a.lindante >= 0.0 && EnCalma(c, a) && SinRelojes(pasos)
    ensures var pub := Correr(INICIAL, pasos).publicado;
      var t := CentralCorridas.Correr(c, Mensajes(pub), a).tabla;
      k in t ==> (t[k].estado == Grabando <==> Alcanzada(t, Lugares(pub), k, a))
  {
    SinRelojesSirven(c.tabla, INICIAL, pasos, a);
    GrabaSiRelojesSirven(pasos, c, k, a);
  }

  // ----- a drone out of reach -----

  /** An incident, two drones that resolve it, and the timer. */
  function Resolucion(inc: Incidente, a: string, b: string, dron: Posicion): seq<Paso> {
    Creacion(0, inc, true)
    + ([Reportar(a, 0, dron, true), Reportar(b, 0, dron, true)] + ([Reportar(a, 0, dron, true), Marcar] + [Sonar(0, true)]))
  }

  lemma ResolucionPublica(inc: Incidente, a: string, b: string, dron: Posicion) returns (par: Aviso)
    requires inc.estado == Pendiente && a != b
    ensures par.AvisoActivo?
    ensures Correr(INICIAL, Resolucion(inc, a, b, dron)).publicado
         == [Publicacion(0, inc.posicion, AvisoPendiente), Publicacion(0, dron, par), Publicacion(0, dron, AvisoCancelado)]
  {
    var crear := Creacion(0, inc, true);
    var dos := [Reportar(a, 0, dron, true), Reportar(b, 0, dron, true)];
    var una, fin := [Reportar(a, 0, dron, true), Marcar], [Sonar(0, true)];
    CorrerJuntos(INICIAL, crear, dos + (una + fin));
    CorrerCreacion(INICIAL, inc, true);
    var s1 := Correr(INICIAL, crear);
    CorrerJuntos(s1, dos, una + fin);
    DosDrones(s1, a, b, 0, dron);
    var s2 := Correr(s1, dos);
    CorrerJuntos(s2, una, fin);
    ActivoDeNuevo(s2, a, 0, dron);
    par := Respuesta(s2, 0, dron).value.aviso;
    CorrerUno(Correr(s2, una), Sonar(0, true));
  }

  lemma CorrerUno(s: Sistema, p: Paso)
    ensures Correr(s, [p]) == Tras(s, p)
  {
    assert [p][1..] == [];
  }

  lemma CamaraEnCalma()
    ensures EnCalma(CentralSpec.Paso(CentralCorridas.INICIAL, CentralSpec.Alta(Posicion(0.0, 0.0)), CentralCorridas.AREAS), CentralCorridas.AREAS)
  {
    CentralCorridas.QuietaBien();
    var c := CentralSpec.Paso(CentralCorridas.INICIAL, CentralSpec.Alta(Posicion(0.0, 0.0)), CentralCorridas.AREAS);
    assert c.tabla == map[1 := CentralCorridas.QUIETA];
  }

  function DesdeLejos(par: Aviso): seq<Publicacion> {
    [Publicacion(0, Posicion(0.5, 0.5), AvisoPendiente), Publicacion(0, Posicion(2.0, 0.5), par),
     Publicacion(0, Posicion(2.0, 0.5), AvisoCancelado)]
  }

  lemma TresMensajes(par: Aviso)
    requires par.AvisoActivo?
    ensures var c := CentralSpec.Paso(CentralCorridas.INICIAL, CentralSpec.Alta(Posicion(0.0, 0.0)), CentralCorridas.AREAS);
      var c' := CentralCorridas.Correr(c, Mensajes(DesdeLejos(par)), CentralCorridas.AREAS);
      c'.tabla == CentralCorridas.GRABADA.tabla && c'.vivos == map[]
  {
    var c := CentralSpec.Paso(CentralCorridas.INICIAL, CentralSpec.Alta(Posicion(0.0, 0.0)), CentralCorridas.AREAS);
    var pub := DesdeLejos(par);
    CentralCorridas.AbrirIncidente();
    CentralCorridas.CerrarLejos();
    CentralCorridas.CorrerTres(c, Mensaje(pub[0]), Mensaje(pub[1]), Mensaje(pub[2]), CentralCorridas.AREAS);
    assert Mensajes(pub) == [Mensaje(pub[0]), Mensaje(pub[1]), Mensaje(pub[2])];
  }

  /** Two drones resolve an incident from afar: the timer's cancel does not suit, nothing is open any
      more, and the camera goes on recording. */
  lemma DronLejos(a: string, b: string)
    requires a != b
    ensures var areas := CentralCorridas.AREAS;
      var c := CentralSpec.Paso(CentralCorridas.INICIAL, CentralSpec.Alta(Posicion(0.0, 0.0)), areas);
      var pasos := Resolucion(Monitoreo.Incidente(Posicion(0.5, 0.5), Pendiente, 0), a, b, Posicion(2.0, 0.5));
      var pub := Correr(INICIAL, pasos).publicado;
      var t := CentralCorridas.Correr(c, Mensajes(pub), areas).tabla;
      && EnCalma(c, areas) && Lugares(pub) == map[] && t.Keys == {1} && t[1].estado == Grabando
      && !RelojesSirven(c.tabla, INICIAL, pasos, areas)
  {
    var areas := CentralCorridas.AREAS;
    var c := CentralSpec.Paso(CentralCorridas.INICIAL, CentralSpec.Alta(Posicion(0.0, 0.0)), areas);
    var inc := Monitoreo.Incidente(Posicion(0.5, 0.5), Pendiente, 0);
    var pasos := Resolucion(inc, a, b, Posicion(2.0, 0.5));
    var par := ResolucionPublica(inc, a, b, Posicion(2.0, 0.5));
    CamaraEnCalma();
    TresMensajes(par);
    CentralConoceAbiertos(pasos, c, areas);
    if RelojesSirven(c.tabla, INICIAL, pasos, areas) {
      GrabaSiRelojesSirven(pasos, c, 1, areas);
    }
  }
}
