/** Whole runs of the camera central. */
module CentralCorridas {
  import opened Wrappers
  import opened Camaras
  import opened CentralSpec
  import opened CentralInvariante

  /** Identifiers are handed out upwards, and a live incident has had its "pendiente" handled. */
  ghost predicate Orden(s: Estado) {
    && (forall k :: k in s.tabla ==> k <= s.ultimoId)
    && (forall i :: i in s.vivos ==> (i, "pendiente") in s.vistos)
  }

  /** What a caller can look at before an event to know that the counters will stay right. */
  ghost predicate Admisible(s: Estado, e: Suceso, a: Areas) {
    match e
    case Mensaje(None) => true
    case Mensaje(Some(inc)) =>
      Ignorado(s.vistos, inc) || inc.estado != "cancelado" || CancelaBien(s.tabla, s.vivos, inc, a)
    case Alta(p) => AltaBien(s.tabla, s.vivos, p, a)
    case Baja(k, archivo) => archivo.None? || k !in s.tabla || BajaBien(s.tabla, k, archivo.value, a)
  }

  lemma PasoExactoMensaje(s: Estado, inc: Incidente, a: Areas)
    requires a.lindante >= 0.0 && Orden(s) && Bien(s.tabla, s.vivos, a) && !Ignorado(s.vistos, inc)
    ensures Bien(TrasIncidente(s.tabla, inc, a), TrasVivir(s.vivos, inc), a) <==> Admisible(s, Mensaje(Some(inc)), a)
  {
    if inc.estado == "pendiente" {
      assert inc.id !in s.vivos;
      PendienteConserva(s.tabla, s.vivos, inc, a);
    } else if inc.estado == "cancelado" {
      CanceladoExacto(s.tabla, s.vivos, inc, a);
    }
  }

  lemma PasoExactoAlta(s: Estado, p: Posicion, a: Areas)
    requires Orden(s) && Bien(s.tabla, s.vivos, a)
    ensures Bien(Paso(s, Alta(p), a).tabla, s.vivos, a) <==> Admisible(s, Alta(p), a)
  {
    AltaExacta(s.tabla, s.vivos, s.ultimoId + 1, p, a);
  }

  lemma PasoDeBaja(s: Estado, k: nat, archivo: Option<real>, a: Areas)
    ensures Paso(s, Baja(k, archivo), a).tabla == if archivo.Some? && k in s.tabla then TrasBaja(s.tabla, k, archivo.value) else s.tabla
    ensures Admisible(s, Baja(k, archivo), a)
       <==> (archivo.Some? && k in s.tabla ==> BajaBien(s.tabla, k, archivo.value, a))
  {
  }

  lemma PasoExactoBaja(s: Estado, k: nat, archivo: Option<real>, a: Areas)
    requires Bien(s.tabla, s.vivos, a)
    ensures Bien(Paso(s, Baja(k, archivo), a).tabla, s.vivos, a) <==> Admisible(s, Baja(k, archivo), a)
  {
    PasoDeBaja(s, k, archivo, a);
    if archivo.Some? && k in s.tabla {
      BajaExacta(s.tabla, s.vivos, k, archivo.value, a);
    }
  }

  /** One event keeps the counters right exactly when it is admissible. */
  lemma PasoExacto(s: Estado, e: Suceso, a: Areas)
    requires a.lindante >= 0.0 && Orden(s) && Bien(s.tabla, s.vivos, a)
    ensures Bien(Paso(s, e, a).tabla, Paso(s, e, a).vivos, a) <==> Admisible(s, e, a)
  {
    match e
    case Mensaje(None) =>
    case Mensaje(Some(inc)) =>
      if !Ignorado(s.vistos, inc) {
        PasoExactoMensaje(s, inc, a);
      }
    case Alta(p) => PasoExactoAlta(s, p, a);
    case Baja(k, archivo) => PasoExactoBaja(s, k, archivo, a);
  }

  lemma CanceladoMismasClaves(t: Tabla, inc: Incidente, a: Areas)
    ensures TrasCancelado(t, inc, a).Keys == t.Keys
  {
  }

  function Correr(s: Estado, es: seq<Suceso>, a: Areas): Estado
    decreases es
  {
    if es == [] then s else Correr(Paso(s, es[0], a), es[1..], a)
  }

  ghost predicate SiempreBien(s: Estado, es: seq<Suceso>, a: Areas)
    decreases es
  {
    Bien(s.tabla, s.vivos, a) && (es != [] ==> SiempreBien(Paso(s, es[0], a), es[1..], a))
  }

  ghost predicate TodosAdmisibles(s: Estado, es: seq<Suceso>, a: Areas)
    decreases es
  {
    es != [] ==> Admisible(s, es[0], a) && TodosAdmisibles(Paso(s, es[0], a), es[1..], a)
  }

  const INICIAL := Estado(map[], {}, 0, map[])

  /** Lists, counters and states are right in every state of a run exactly when every event of
      the run is admissible. */
  lemma {:induction false} CorridaExacta(s: Estado, es: seq<Suceso>, a: Areas)
    requires a.lindante >= 0.0 && Orden(s) && Bien(s.tabla, s.vivos, a)
    ensures SiempreBien(s, es, a) <==> TodosAdmisibles(s, es, a)
    ensures Orden(Correr(s, es, a))
    ensures TodosAdmisibles(s, es, a) ==> Bien(Correr(s, es, a).tabla, Correr(s, es, a).vivos, a)
    decreases es
  {
    if es != [] {
      PasoExacto(s, es[0], a);
      OrdenPaso(s, es[0], a);
      if Admisible(s, es[0], a) {
        CorridaExacta(Paso(s, es[0], a), es[1..], a);
      } else {
        OrdenSiempre(s, es, a);
      }
    }
  }

  lemma {:induction false} OrdenSiempre(s: Estado, es: seq<Suceso>, a: Areas)
    requires Orden(s)
    ensures Orden(Correr(s, es, a))
    decreases es
  {
    if es != [] {
      OrdenPaso(s, es[0], a);
      OrdenSiempre(Paso(s, es[0], a), es[1..], a);
    }
  }

  lemma OrdenPaso(s: Estado, e: Suceso, a: Areas)
    requires Orden(s)
    ensures Orden(Paso(s, e, a))
  {
    match e
    case Mensaje(None) =>
    case Mensaje(Some(inc)) =>
      if !Ignorado(s.vistos, inc) {
        MismasClaves(s.tabla, inc, a);
      }
    case Alta(p) =>
    case Baja(k, archivo) =>
  }

  lemma MismasClaves(t: Tabla, inc: Incidente, a: Areas)
    ensures TrasIncidente(t, inc, a).Keys == t.Keys
  {
    PendienteMismosLugares(t, inc, a);
    CanceladoMismasClaves(t, inc, a);
  }

  /** After any run of admissible events, a camera records iff a live incident reaches it or one
      of its neighbours. */
  lemma GrabaTrasCorrer(es: seq<Suceso>, c: nat, a: Areas)
    requires a.lindante >= 0.0 && TodosAdmisibles(INICIAL, es, a) && c in Correr(INICIAL, es, a).tabla
    ensures var s := Correr(INICIAL, es, a);
      s.tabla[c].estado == Grabando <==>
        exists r, i :: r in s.tabla && i in s.vivos
          && -a.lindante <= s.tabla[c].posicion.lat - s.tabla[r].posicion.lat <= a.lindante
          && -a.lindante <= s.tabla[c].posicion.long - s.tabla[r].posicion.long <= a.lindante
          && -a.incidente <= s.tabla[r].posicion.lat - s.vivos[i].lat <= a.incidente
          && -a.incidente <= s.tabla[r].posicion.long - s.vivos[i].long <= a.incidente
  {
    CorridaExacta(INICIAL, es, a);
    var s := Correr(INICIAL, es, a);
    GrabaSiiAlcanzadaEn(s.tabla, s.vivos, c, a);
  }

  /** The zone of a central with a single camera. */
  lemma ZonaUnaSola(c: Foto, p: Posicion, a: Areas)
    requires a.lindante >= 0.0
    ensures var Z := Zona(map[1 := c], p, a.incidente);
      && Z == (if c.posicion.EnRango(p, a.incidente) then {1} else {})
      && Cercanas(map[1 := c], Z, 1, a.lindante) == Z
  {
  }

  lemma PendienteUnaSola(c: Foto, inc: Incidente, a: Areas)
    requires a.lindante >= 0.0
    ensures var n := if c.posicion.EnRango(inc.posicion, a.incidente) then 1 else 0;
      TrasPendiente(map[1 := c], inc, a) == map[1 := Sumar(Anotar(c, inc, a.incidente), n)]
  {
    PendienteEn(map[1 := c], inc, 1, a);
    ZonaUnaSola(c, inc.posicion, a);
    PendienteMismosLugares(map[1 := c], inc, a);
  }

  lemma CanceladoUnaSola(c: Foto, inc: Incidente, a: Areas)
    requires a.lindante >= 0.0
    ensures var n := if c.posicion.EnRango(inc.posicion, a.incidente) then 1 else 0;
      TrasCancelado(map[1 := c], inc, a) == map[1 := Restar(Desanotar(c, inc, a.incidente), n)]
  {
    CanceladoEn(map[1 := c], inc, 1, a);
    ZonaUnaSola(c, inc.posicion, a);
  }

  lemma CorrerTres(s: Estado, e1: Suceso, e2: Suceso, e3: Suceso, a: Areas)
    ensures Correr(s, [e1, e2, e3], a) == Paso(Paso(Paso(s, e1, a), e2, a), e3, a)
    ensures TodosAdmisibles(s, [e1, e2, e3], a) ==> Admisible(Paso(Paso(s, e1, a), e2, a), e3, a)
  {
    var s1 := Paso(s, e1, a);
    var s2 := Paso(s1, e2, a);
    var s3 := Paso(s2, e3, a);
    assert [e1, e2, e3][1..] == [e2, e3] && [e2, e3][1..] == [e3] && [e3][1..] == [];
    assert Correr(s3, [], a) == s3;
    assert Correr(s2, [e3], a) == s3;
    assert Correr(s1, [e2, e3], a) == s3;
    if TodosAdmisibles(s, [e1, e2, e3], a) {
      assert TodosAdmisibles(s1, [e2, e3], a);
      assert TodosAdmisibles(s2, [e3], a);
    }
  }

  const AREAS := Areas(1.1, 3.1)
  const ABIERTO := Incidente(0, Posicion(0.5, 0.5), "pendiente")
  const CERRADO := Incidente(0, Posicion(2.0, 0.5), "cancelado")
  const GRABADA := Estado(map[1 := Foto(Posicion(0.0, 0.0), Grabando, [0], 0)], {(0, "pendiente")}, 1, map[0 := Posicion(0.5, 0.5)])

  lemma AbrirIncidente()
    ensures Paso(Paso(INICIAL, Alta(Posicion(0.0, 0.0)), AREAS), Mensaje(Some(ABIERTO)), AREAS) == GRABADA
  {
    var f := Foto(Posicion(0.0, 0.0), AhorroDeEnergia, [], 0);
    var s1 := Estado(map[1 := f], {}, 1, map[]);
    assert Paso(INICIAL, Alta(Posicion(0.0, 0.0)), AREAS) == s1;
    PendienteUnaSola(f, ABIERTO, AREAS);
    assert Sumar(Anotar(f, ABIERTO, AREAS.incidente), 1) == GRABADA.tabla[1];
    var s2 := Paso(s1, Mensaje(Some(ABIERTO)), AREAS);
    assert s2.tabla == GRABADA.tabla && s2.vistos == GRABADA.vistos && s2.vivos == GRABADA.vivos;
  }

  lemma CerrarLejos()
    ensures var s := Paso(GRABADA, Mensaje(Some(CERRADO)), AREAS);
      s.tabla == GRABADA.tabla && s.vivos == map[]
    ensures !Admisible(GRABADA, Mensaje(Some(CERRADO)), AREAS)
  {
    var g := Foto(Posicion(0.0, 0.0), Grabando, [0], 0);
    CanceladoUnaSola(g, CERRADO, AREAS);
    assert 1 in ZonaDe(GRABADA.tabla, GRABADA.vivos, 0, AREAS) && 1 !in Zona(GRABADA.tabla, CERRADO.posicion, 1.1);
  }

  /** A camera that is added where an open incident reaches it saves energy and keeps the incident out of
      its list. */
  lemma AltaAlAlcance()
    ensures var es := [Alta(Posicion(0.0, 0.0)), Mensaje(Some(ABIERTO)), Alta(Posicion(0.5, 0.5))];
      var s := Correr(INICIAL, es, AREAS);
      && s.tabla.Keys == {1, 2} && s.tabla[2] == Foto(Posicion(0.5, 0.5), AhorroDeEnergia, [], 0)
      && 0 in s.vivos && s.tabla[2].posicion.EnRango(s.vivos[0], AREAS.incidente)
      && !TodosAdmisibles(INICIAL, es, AREAS)
  {
    AbrirIncidente();
    CorrerTres(INICIAL, Alta(Posicion(0.0, 0.0)), Mensaje(Some(ABIERTO)), Alta(Posicion(0.5, 0.5)), AREAS);
    assert 0 in Alcanzados(GRABADA.vivos, Posicion(0.5, 0.5), AREAS.incidente);
  }

  // ----- places -----

  lemma CanceladoLugares(t: Tabla, inc: Incidente, a: Areas)
    ensures MismosLugares(t, TrasCancelado(t, inc, a))
    ensures BajanAlCancelar(t, inc, a) <= t.Keys
  {
    forall c | c in t ensures c in TrasCancelado(t, inc, a) && TrasCancelado(t, inc, a)[c].posicion == t[c].posicion {
      CanceladoEn(t, inc, c, a);
    }
  }

  lemma IncidenteNoMueve(t: Tabla, inc: Incidente, a: Areas)
    ensures MismosLugares(t, TrasIncidente(t, inc, a))
  {
    if inc.estado == "pendiente" {
      PendienteMismosLugares(t, inc, a);
    } else if inc.estado == "cancelado" {
      CanceladoLugares(t, inc, a);
    }
  }

  const QUIETA := Foto(Posicion(0.0, 0.0), AhorroDeEnergia, [], 0)

  lemma QuietaBien()
    ensures Bien(map[1 := QUIETA], map[], AREAS)
  {
    AltaExacta(map[], map[], 1, Posicion(0.0, 0.0), AREAS);
    assert TrasAlta(map[], 1, Posicion(0.0, 0.0)) == map[1 := QUIETA];
  }

  // ----- redelivery -----

  /** The run without the messages that do not parse, the "activo" ones and the repetitions of a
      pair (id, estado). */
  function Depurar(vistos: set<(int, string)>, es: seq<Suceso>): seq<Suceso>
    decreases es
  {
    if es == [] then []
    else
      match es[0]
      case Mensaje(None) => Depurar(vistos, es[1..])
      case Mensaje(Some(inc)) =>
        if Ignorado(vistos, inc) then Depurar(vistos, es[1..])
        else [es[0]] + Depurar(vistos + {(inc.id, inc.estado)}, es[1..])
      case _ => [es[0]] + Depurar(vistos, es[1..])
  }

  /** Redelivered messages change nothing. */
  lemma {:induction false} ReentregaInocua(s: Estado, es: seq<Suceso>, a: Areas)
    ensures Correr(s, es, a) == Correr(s, Depurar(s.vistos, es), a)
    decreases es
  {
    if es != [] {
      var s' := Paso(s, es[0], a);
      ReentregaInocua(s', es[1..], a);
      var resto := Depurar(s'.vistos, es[1..]);
      assert ([es[0]] + resto)[1..] == resto;
    }
  }

  /** `Depurar` keeps the first message of each pair and no later one. */
  lemma {:induction false} DepurarSinRepetidos(vistos: set<(int, string)>, es: seq<Suceso>, j: nat)
    requires j < |Depurar(vistos, es)| && Depurar(vistos, es)[j].Mensaje?
    ensures var e := Depurar(vistos, es)[j];
      && e.payload.Some? && !Ignorado(vistos, e.payload.value) && e in es
      && forall k :: 0 <= k < |Depurar(vistos, es)| && k != j && Depurar(vistos, es)[k].Mensaje? ==>
           Depurar(vistos, es)[k].payload.Some?
           && (Depurar(vistos, es)[k].payload.value.id, Depurar(vistos, es)[k].payload.value.estado)
              != (e.payload.value.id, e.payload.value.estado)
    decreases es
  {
    var D := Depurar(vistos, es);
    var e := D[j];
    var vistos' := match es[0]
      case Mensaje(Some(inc)) => if Ignorado(vistos, inc) then vistos else vistos + {(inc.id, inc.estado)}
      case _ => vistos;
    var R := Depurar(vistos', es[1..]);
    if D == R {
      DepurarSinRepetidos(vistos', es[1..], j);
    } else {
      assert D == [es[0]] + R;
      if j > 0 {
        DepurarSinRepetidos(vistos', es[1..], j - 1);
        assert forall k :: 1 <= k < |D| ==> D[k] == R[k - 1];
      } else {
        forall k | 1 <= k < |D| && D[k].Mensaje?
          ensures D[k].payload.Some? && (D[k].payload.value.id, D[k].payload.value.estado) != (e.payload.value.id, e.payload.value.estado)
        {
          DepurarSinRepetidos(vistos', es[1..], k - 1);
        }
      }
    }
  }
}
