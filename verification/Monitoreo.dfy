/** The incidents of the monitor: the UI thread, the thread that receives incidents from the image
    detector, the drones' callback and the timers work on shared tables, one locked section after
    another in any interleaving. */
module Monitoreo {
  import opened Wrappers
  import opened Camaras

  datatype Estado = Pendiente | Activo | Cancelado

  datatype Incidente = Incidente(posicion: Posicion, estado: Estado, tiempo: nat)

  datatype Aviso = AvisoPendiente | AvisoActivo(dron1: string, dron2: string) | AvisoCancelado

  /** A message "id lat long estado" on the incident subject. */
  datatype Publicacion = Publicacion(id: nat, posicion: Posicion, aviso: Aviso)

  /** How far the creation of an incident has come. */
  datatype Etapa = Reservado | Publicado | Listado

  datatype Alta = Alta(incidente: Incidente, etapa: Etapa)

  /** An incident that two drones resolve, at the position of the drone that reported last. */
  datatype Resuelto = Resuelto(id: nat, posicion: Posicion)

  /** `altas`, `bajas` and `porCerrar` are creations and removals under way, `enCurso` is the drones'
      callback between its two locked sections (it holds the lock of `drones` meanwhile), and
      `relojes` are the sleeping timers. `reportes` remembers which drone reported which incident. */
  datatype Sistema = Sistema(
    idCount: nat,
    lista: map<nat, Incidente>,
    drones: map<nat, seq<string>>,
    altas: map<nat, Alta>,
    bajas: map<nat, Incidente>,
    porCerrar: map<nat, Incidente>,
    enCurso: Option<Resuelto>,
    relojes: seq<Resuelto>,
    publicado: seq<Publicacion>,
    reportes: set<(string, nat)>)

  /** The locked sections; `ok` tells whether the publication succeeds. */
  datatype Paso =
    | Reservar(incidente: Incidente)
    | PublicarAlta(id: nat, ok: bool)
    | Listar(id: nat)
    | Anotar(id: nat)
    | Reportar(dron: string, id: nat, posicion: Posicion, ok: bool)
    | Marcar
    | Sonar(reloj: nat, ok: bool)
    | Quitar(id: nat)
    | Soltar(id: nat)
    | PublicarBaja(id: nat, ok: bool)

  // ----- the sections -----

  function Publica(s: Sistema, p: Publicacion, ok: bool): seq<Publicacion> {
    if ok then s.publicado + [p] else s.publicado
  }

  /** What a report of a drone publishes. */
  function Respuesta(s: Sistema, id: nat, posicion: Posicion): Option<Publicacion> {
    if id in s.lista && id in s.drones && s.lista[id].estado != Cancelado && |s.drones[id]| >= 2
    then Some(Publicacion(id, posicion, AvisoActivo(s.drones[id][0], s.drones[id][1])))
    else None
  }

  function ConDron(drones: seq<string>, dron: string): seq<string> {
    if dron in drones then drones else drones + [dron]
  }

  function Reportado(s: Sistema, dron: string, id: nat, posicion: Posicion, ok: bool): Sistema {
    var s1 := s.(reportes := s.reportes + {(dron, id)});
    if id !in s.lista || id !in s.drones || s.lista[id].estado == Cancelado then s1
    else if |s.drones[id]| < 2 then s1.(drones := s.drones[id := ConDron(s.drones[id], dron)])
    else
      s1.(lista := s.lista[id := s.lista[id].(estado := Cancelado)],
          publicado := Publica(s, Respuesta(s, id, posicion).value, ok),
          enCurso := Some(Resuelto(id, posicion)))
  }

  function Marcado(s: Sistema, r: Resuelto): Sistema {
    if r.id in s.lista
    then s.(lista := s.lista[r.id := s.lista[r.id].(estado := Activo)], relojes := s.relojes + [r], enCurso := None)
    else s.(enCurso := None)
  }

  function Tras(s: Sistema, p: Paso): Sistema {
    match p
    case Reservar(inc) =>
      s.(idCount := s.idCount + 1, altas := s.altas[s.idCount := Alta(inc.(estado := Pendiente), Reservado)])
    case PublicarAlta(id, ok) =>
      if id !in s.altas || s.altas[id].etapa != Reservado then s
      else if !ok then s.(altas := s.altas - {id})
      else
        s.(altas := s.altas[id := s.altas[id].(etapa := Publicado)],
           publicado := s.publicado + [Publicacion(id, s.altas[id].incidente.posicion, AvisoPendiente)])
    case Listar(id) =>
      if id !in s.altas || s.altas[id].etapa != Publicado then s
      else s.(altas := s.altas[id := s.altas[id].(etapa := Listado)], lista := s.lista[id := s.altas[id].incidente])
    case Anotar(id) =>
      if id !in s.altas || s.altas[id].etapa != Listado || s.enCurso.Some? then s
      else s.(altas := s.altas - {id}, drones := s.drones[id := []])
    case Reportar(dron, id, posicion, ok) => if s.enCurso.Some? then s else Reportado(s, dron, id, posicion, ok)
    case Marcar => if s.enCurso.None? then s else Marcado(s, s.enCurso.value)
    case Sonar(k, ok) =>
      if k >= |s.relojes| then s
      else
        var r := s.relojes[k];
        s.(lista := s.lista - {r.id},
           relojes := s.relojes[..k] + s.relojes[k + 1..],
           publicado := Publica(s, Publicacion(r.id, r.posicion, AvisoCancelado), ok))
    case Quitar(id) =>
      if id !in s.lista then s else s.(lista := s.lista - {id}, bajas := s.bajas[id := s.lista[id]])
    case Soltar(id) =>
      if id !in s.bajas || s.enCurso.Some? then s
      else if id !in s.drones then s.(bajas := s.bajas - {id})
      else s.(bajas := s.bajas - {id}, drones := s.drones - {id}, porCerrar := s.porCerrar[id := s.bajas[id]])
    case PublicarBaja(id, ok) =>
      if id !in s.porCerrar then s
      else
        s.(porCerrar := s.porCerrar - {id},
           publicado := Publica(s, Publicacion(id, s.porCerrar[id].posicion, AvisoCancelado), ok))
  }

  function Correr(s: Sistema, pasos: seq<Paso>): Sistema
    decreases pasos
  {
    if pasos == [] then s else Correr(Tras(s, pasos[0]), pasos[1..])
  }

  const INICIAL := Sistema(0, map[], map[], map[], map[], map[], None, [], [], {})

  // ----- the operations, uninterrupted -----

  class SistemaDeMonitoreo {
    var idCount: nat
    var listaDeIncidentes: map<nat, Incidente>
    var incidentesDrones: map<nat, seq<string>>
    var relojes: seq<Resuelto>
    var publicado: seq<Publicacion>
    ghost var reportes: set<(string, nat)>

    constructor ()
      ensures View() == INICIAL
    {
      idCount, listaDeIncidentes, incidentesDrones := 0, map[], map[];
      relojes, publicado, reportes := [], [], {};
    }

    ghost function View(): Sistema
      reads this
    {
      Sistema(idCount, listaDeIncidentes, incidentesDrones, map[], map[], map[], None, relojes, publicado, reportes)
    }

    method NuevoIncidente(posicion: Posicion, tiempo: nat, ok: bool) returns (r: Result<nat, string>)
      modifies this
      ensures View() == Correr(old(View()), Creacion(old(idCount), Incidente(posicion, Pendiente, tiempo), ok))
      ensures r == if ok then Ok(old(idCount)) else Err("InternalError")
    {
      var id := idCount;
      idCount := idCount + 1;
      var incidente := Incidente(posicion, Pendiente, tiempo);
      CorrerCreacion(old(View()), incidente, ok);
      if !ok {
        return Err("InternalError");
      }
      publicado := publicado + [Publicacion(id, posicion, AvisoPendiente)];
      listaDeIncidentes := listaDeIncidentes[id := incidente];
      incidentesDrones := incidentesDrones[id := []];
      r := Ok(id);
    }

    method EliminarIncidente(id: nat, ok: bool) returns (r: Result<(), string>)
      modifies this
      ensures View() == Correr(old(View()), [Quitar(id), Soltar(id), PublicarBaja(id, ok)])
      ensures r.Ok? <==> id in old(listaDeIncidentes) && id in old(incidentesDrones) && ok
    {
      CorrerTres(old(View()), Quitar(id), Soltar(id), PublicarBaja(id, ok));
      if id !in listaDeIncidentes {
        return Err("IdInvalido");
      }
      var incidente := listaDeIncidentes[id];
      listaDeIncidentes := listaDeIncidentes - {id};
      ghost var vacio: map<nat, Incidente> := map[];
      assert vacio[id := incidente] - {id} == vacio && vacio - {id} == vacio;
      if id !in incidentesDrones {
        return Err("IdInvalido");
      }
      incidentesDrones := incidentesDrones - {id};
      if !ok {
        return Err("InternalError");
      }
      publicado := publicado + [Publicacion(id, incidente.posicion, AvisoCancelado)];
      r := Ok(());
    }

    method Resolviendo(dron: string, id: nat, posicion: Posicion) returns (r: Option<Publicacion>)
      modifies this`listaDeIncidentes, this`incidentesDrones
      ensures r == Respuesta(old(View()), id, posicion)
      ensures r.None? ==> View().(reportes := View().reportes + {(dron, id)}) == Reportado(old(View()), dron, id, posicion, true)
      ensures r.Some? ==> id in old(listaDeIncidentes) && incidentesDrones == old(incidentesDrones)
      ensures r.Some? ==>
        listaDeIncidentes == old(listaDeIncidentes)[id := old(listaDeIncidentes)[id].(estado := Cancelado)]
    {
      if id in listaDeIncidentes && id in incidentesDrones {
        if listaDeIncidentes[id].estado == Cancelado {
          return None;
        } else if |incidentesDrones[id]| < 2 {
          if dron !in incidentesDrones[id] {
            incidentesDrones := incidentesDrones[id := incidentesDrones[id] + [dron]];
          }
          assert old(incidentesDrones)[id := old(incidentesDrones)[id]] == old(incidentesDrones);
        } else {
          listaDeIncidentes := listaDeIncidentes[id := listaDeIncidentes[id].(estado := Cancelado)];
          return Some(Publicacion(id, posicion, AvisoActivo(incidentesDrones[id][0], incidentesDrones[id][1])));
        }
      }
      r := None;
    }

    /** The drones' callback for a drone that is "resolviendo". */
    method AtenderReporte(dron: string, id: nat, posicion: Posicion, ok: bool)
      modifies this
      ensures View() == Correr(old(View()), [Reportar(dron, id, posicion, ok), Marcar])
    {
      CorrerDos(old(View()), Reportar(dron, id, posicion, ok), Marcar);
      var payload := Resolviendo(dron, id, posicion);
      reportes := reportes + {(dron, id)};
      if payload.Some? {
        if ok {
          publicado := publicado + [payload.value];
        }
        listaDeIncidentes := listaDeIncidentes[id := listaDeIncidentes[id].(estado := Activo)];
        relojes := relojes + [Resuelto(id, posicion)];
      }
    }

    /** A timer wakes. */
    method Temporizador(k: nat, ok: bool)
      requires k < |relojes|
      modifies this
      ensures View() == Tras(old(View()), Sonar(k, ok))
    {
      var r := relojes[k];
      relojes := relojes[..k] + relojes[k + 1..];
      listaDeIncidentes := listaDeIncidentes - {r.id};
      if ok {
        publicado := publicado + [Publicacion(r.id, r.posicion, AvisoCancelado)];
      }
    }
  }

  function Creacion(id: nat, incidente: Incidente, ok: bool): seq<Paso> {
    [Reservar(incidente), PublicarAlta(id, ok), Listar(id), Anotar(id)]
  }

  lemma CorrerDos(s: Sistema, a: Paso, b: Paso)
    ensures Correr(s, [a, b]) == Tras(Tras(s, a), b)
  {
    assert [a, b][1..] == [b] && [b][1..] == [];
    assert Correr(Tras(s, a), [b]) == Correr(Tras(Tras(s, a), b), []);
  }

  lemma CorrerTres(s: Sistema, a: Paso, b: Paso, c: Paso)
    ensures Correr(s, [a, b, c]) == Tras(Tras(Tras(s, a), b), c)
  {
    assert [a, b, c][1..] == [b, c];
    CorrerDos(Tras(s, a), b, c);
  }

  /** A creation that nobody interrupts. */
  lemma CorrerCreacion(s: Sistema, incidente: Incidente, ok: bool)
    requires s.altas == map[] && s.enCurso == None && incidente.estado == Pendiente
    ensures Correr(s, Creacion(s.idCount, incidente, ok))
      == if !ok then s.(idCount := s.idCount + 1)
         else s.(idCount := s.idCount + 1,
                 publicado := s.publicado + [Publicacion(s.idCount, incidente.posicion, AvisoPendiente)],
                 lista := s.lista[s.idCount := incidente],
                 drones := s.drones[s.idCount := []])
  {
    var id := s.idCount;
    var pasos := Creacion(id, incidente, ok);
    assert pasos[1..] == [PublicarAlta(id, ok), Listar(id), Anotar(id)];
    CorrerTres(Tras(s, Reservar(incidente)), PublicarAlta(id, ok), Listar(id), Anotar(id));
    var altas: map<nat, Alta> := map[];
    assert altas[id := Alta(incidente, Reservado)] - {id} == altas;
    assert altas[id := Alta(incidente, Reservado)][id := Alta(incidente, Publicado)][id := Alta(incidente, Listado)] - {id} == altas;
  }
}
