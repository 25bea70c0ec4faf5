/** What one operation of the camera central computes, on values.  The methods of
    `CentralDeCamaras` are proved against these functions for every order in which the hash map
    of cameras may be walked. */
module CentralSpec {
  import opened Wrappers
  import opened Camaras

  type Tabla = map<nat, Foto>

  /** `areaincidente` and `arealindante` of the configuration. */
  datatype Areas = Areas(incidente: real, lindante: real)

  /** An incident message after parsing. */
  datatype Incidente = Incidente(id: int, posicion: Posicion, estado: string)

  datatype EstadoAviso = Ahorro | Graba | Eliminado

  /** A message "lat long estado id" on the camera subject. */
  datatype Aviso = Aviso(posicion: Posicion, estado: EstadoAviso, id: nat)

  // ----- one camera -----

  /** First loop for a "pendiente": a camera reached for the first time lists the incident and
      pays in advance for counting itself as its own neighbour. */
  function Anotar(c: Foto, inc: Incidente, area: real): Foto {
    if c.posicion.EnRango(inc.posicion, area) && inc.id !in c.incidentes then
      c.(incidentes := c.incidentes + [inc.id], numlindantes := c.numlindantes - 1, estado := Grabando)
    else c
  }

  /** A camera told `n` times that a neighbour has one more incident. */
  function Sumar(c: Foto, n: nat): Foto {
    if n == 0 then c else c.(numlindantes := c.numlindantes + n, estado := Grabando)
  }

  /** First loop for a "cancelado": does the camera fall back to saving energy there? */
  predicate BajaAlDesanotar(c: Foto, inc: Incidente, area: real) {
    && c.posicion.EnRango(inc.posicion, area) && inc.id in c.incidentes
    && QuitarPrimero(c.incidentes, inc.id) == [] && c.numlindantes + 1 == 0
  }

  function Desanotar(c: Foto, inc: Incidente, area: real): Foto {
    if !c.posicion.EnRango(inc.posicion, area) then c
    else
      c.(numlindantes := c.numlindantes + 1,
         incidentes := if inc.id in c.incidentes then QuitarPrimero(c.incidentes, inc.id) else c.incidentes,
         estado := if BajaAlDesanotar(c, inc, area) then AhorroDeEnergia else c.estado)
  }

  /** Does a camera told `n` times to discount a neighbour's incident reach "nothing left" on
      one of those calls? */
  predicate BajaAlRestar(c: Foto, n: nat) {
    c.incidentes == [] && 0 < c.numlindantes <= n
  }

  function Restar(c: Foto, n: nat): Foto {
    c.(numlindantes := c.numlindantes - n, estado := if BajaAlRestar(c, n) then AhorroDeEnergia else c.estado)
  }

  // ----- the table -----

  /** Cameras within the incident area of a position. */
  function Zona(t: Tabla, p: Posicion, area: real): set<nat> {
    set k | k in t && t[k].posicion.EnRango(p, area)
  }

  /** Cameras of `s` that are neighbours of `k`. */
  function Cercanas(t: Tabla, s: set<nat>, k: nat, area: real): set<nat>
    requires k in t
  {
    set r | r in s && r in t && t[k].posicion.EnRango(t[r].posicion, area)
  }

  function TrasAnotar(t: Tabla, inc: Incidente, a: Areas): Tabla {
    map k | k in t :: Anotar(t[k], inc, a.incidente)
  }

  function TrasSumar(t: Tabla, zona: set<nat>, a: Areas): Tabla {
    map k | k in t :: Sumar(t[k], |Cercanas(t, zona, k, a.lindante)|)
  }

  /** The same cameras at the same places. */
  ghost predicate MismosLugares(t: Tabla, t': Tabla) {
    t.Keys == t'.Keys && forall k :: k in t ==> t[k].posicion == t'[k].posicion
  }

  function TrasPendiente(t: Tabla, inc: Incidente, a: Areas): Tabla {
    TrasSumar(TrasAnotar(t, inc, a), Zona(t, inc.posicion, a.incidente), a)
  }

  function TrasDesanotar(t: Tabla, inc: Incidente, a: Areas): Tabla {
    map k | k in t :: Desanotar(t[k], inc, a.incidente)
  }

  function TrasRestar(t: Tabla, zona: set<nat>, a: Areas): Tabla {
    map k | k in t :: Restar(t[k], |Cercanas(t, zona, k, a.lindante)|)
  }

  function TrasCancelado(t: Tabla, inc: Incidente, a: Areas): Tabla {
    TrasRestar(TrasDesanotar(t, inc, a), Zona(t, inc.posicion, a.incidente), a)
  }

  /** One incident message that was not seen before. */
  function TrasIncidente(t: Tabla, inc: Incidente, a: Areas): Tabla {
    if inc.estado == "pendiente" then TrasPendiente(t, inc, a)
    else if inc.estado == "cancelado" then TrasCancelado(t, inc, a)
    else t
  }

  /** Every camera within `area` of `p` discounts one neighbour incident, `n` times over. */
  function TrasAvisar(t: Tabla, p: Posicion, area: real, n: nat): Tabla {
    map k | k in t :: RestarSiCerca(t[k], p, area, n)
  }

  function RestarSiCerca(c: Foto, p: Posicion, area: real, n: nat): Foto {
    if c.posicion.EnRango(p, area) then Restar(c, n) else c
  }

  // ----- publications -----

  function AvisoDe(c: Foto, k: nat, e: EstadoAviso): Aviso {
    Aviso(c.posicion, e, k)
  }

  /** One message "e" for each camera of `s`. */
  function AvisosDe(t: Tabla, s: set<nat>, e: EstadoAviso): set<Aviso> {
    set k | k in s && k in t :: AvisoDe(t[k], k, e)
  }

  /** Cameras that go from saving energy to recording. */
  function Despiertan(t: Tabla, t': Tabla): set<nat> {
    set k | k in t && k in t' && t[k].estado == AhorroDeEnergia && t'[k].estado == Grabando
  }

  /** Cameras that go from recording to saving energy. */
  function Duermen(t: Tabla, t': Tabla): set<nat> {
    set k | k in t && k in t' && t[k].estado == Grabando && t'[k].estado == AhorroDeEnergia
  }

  /** Cameras that a "cancelado" sends an "ahorro" for. */
  function BajanAlCancelar(t: Tabla, inc: Incidente, a: Areas): set<nat> {
    var t1 := TrasDesanotar(t, inc, a);
    var zona := Zona(t, inc.posicion, a.incidente);
    set k | k in t && (BajaAlDesanotar(t[k], inc, a.incidente)
                       || BajaAlRestar(t1[k], |Cercanas(t1, zona, k, a.lindante)|))
  }

  /** Cameras that an n-fold discount around `p` sends an "ahorro" for. */
  function BajanAlAvisar(t: Tabla, p: Posicion, area: real, n: nat): set<nat> {
    set k | k in t && t[k].posicion.EnRango(p, area) && BajaAlRestar(t[k], n)
  }

  /** All that one fresh incident message publishes. */
  function AvisosIncidente(t: Tabla, inc: Incidente, a: Areas): set<Aviso> {
    if inc.estado == "pendiente" then AvisosDe(t, Despiertan(t, TrasPendiente(t, inc, a)), Graba)
    else if inc.estado == "cancelado" then AvisosDe(t, BajanAlCancelar(t, inc, a), Ahorro)
    else {}
  }

  /** `avisos` holds each expected message exactly once, in some order, and no other. */
  ghost predicate Publica(avisos: seq<Aviso>, esperados: set<Aviso>) {
    && (forall x :: x in avisos <==> x in esperados)
    && (forall i, j :: 0 <= i < j < |avisos| ==> avisos[i] != avisos[j])
  }

  // ----- the whole central -----

  /** What can happen to the central.  `Mensaje(None)` is a payload that does not parse, and
      `Baja` carries the neighbour area that the configuration file holds when it is read again
      (`None` if it cannot be read). */
  datatype Suceso =
    | Mensaje(payload: Option<Incidente>)
    | Alta(posicion: Posicion)
    | Baja(camara: nat, archivo: Option<real>)

  /** `vistos` are the (id, estado) pairs already handled; `vivos` are the incidents whose
      "pendiente" was handled and whose "cancelado" was not: the code does not store them. */
  datatype Estado = Estado(tabla: Tabla, vistos: set<(int, string)>, ultimoId: nat, vivos: map<int, Posicion>)

  predicate Ignorado(vistos: set<(int, string)>, inc: Incidente) {
    (inc.id, inc.estado) in vistos || inc.estado == "activo"
  }

  function TrasVivir(vivos: map<int, Posicion>, inc: Incidente): map<int, Posicion> {
    if inc.estado == "pendiente" then vivos[inc.id := inc.posicion]
    else if inc.estado == "cancelado" then vivos - {inc.id}
    else vivos
  }

  function Paso(s: Estado, e: Suceso, a: Areas): Estado {
    match e
    case Mensaje(None) => s
    case Mensaje(Some(inc)) =>
      if Ignorado(s.vistos, inc) then s
      else Estado(TrasIncidente(s.tabla, inc, a), s.vistos + {(inc.id, inc.estado)}, s.ultimoId, TrasVivir(s.vivos, inc))
    case Alta(p) =>
      s.(tabla := s.tabla[s.ultimoId + 1 := Foto(p, AhorroDeEnergia, [], 0)], ultimoId := s.ultimoId + 1)
    case Baja(k, archivo) =>
      if archivo.None? || k !in s.tabla then s
      else
        var c := s.tabla[k];
        s.(tabla := TrasAvisar(s.tabla, c.posicion, archivo.value, |c.incidentes|) - {k})
  }

  /** `av` is what the step publishes, in one of the orders that the hash map allows. */
  ghost predicate PublicaPaso(s: Estado, e: Suceso, a: Areas, av: seq<Aviso>) {
    match e
    case Mensaje(None) => av == []
    case Mensaje(Some(inc)) =>
      if Ignorado(s.vistos, inc) then av == [] else Publica(av, AvisosIncidente(s.tabla, inc, a))
    case Alta(p) => av == [Aviso(p, Ahorro, s.ultimoId + 1)]
    case Baja(k, archivo) =>
      if archivo.None? || k !in s.tabla then av == []
      else
        var c := s.tabla[k];
        && |av| > 0
        && av[|av| - 1] == Aviso(Posicion(0.0, 0.0), Eliminado, k)
        && Publica(av[..|av| - 1], AvisosDe(s.tabla, BajanAlAvisar(s.tabla, c.posicion, archivo.value, |c.incidentes|), Ahorro))
  }
}
