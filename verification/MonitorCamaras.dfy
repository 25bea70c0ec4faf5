/** The monitor's map of cameras, a copy that follows the messages of the camera central. */
module MonitorCamaras {
  import opened Camaras
  import opened CentralSpec
  import opened CentralInvariante
  import opened CentralCorridas

  /** A camera as the monitor keeps it; the state is `Ahorro` or `Graba`. */
  datatype CamaraVista = CamaraVista(posicion: Posicion, estado: EstadoAviso)

  type Mapa = map<nat, CamaraVista>

  function Recibir(m: Mapa, x: Aviso): Mapa {
    match x.estado
    case Ahorro => if x.id in m then m[x.id := m[x.id].(estado := Ahorro)] else m[x.id := CamaraVista(x.posicion, Ahorro)]
    case Graba => if x.id in m then m[x.id := m[x.id].(estado := Graba)] else m
    case Eliminado => m - {x.id}
  }

  class MapaDeCamaras {
    var camaras: Mapa

    constructor ()
      ensures camaras == map[]
    {
      camaras := map[];
    }

    method PasarAAhorro(id: nat, posicion: Posicion)
      modifies this
      ensures camaras == Recibir(old(camaras), Aviso(posicion, Ahorro, id))
    {
      if id in camaras {
        camaras := camaras[id := camaras[id].(estado := Ahorro)];
      } else {
        camaras := camaras[id := CamaraVista(posicion, Ahorro)];
      }
    }

    method PasarAGrabando(id: nat)
      modifies this
      ensures forall p :: camaras == Recibir(old(camaras), Aviso(p, Graba, id))
    {
      if id in camaras {
        camaras := camaras[id := camaras[id].(estado := Graba)];
      }
    }

    method Quitar(id: nat)
      modifies this
      ensures forall p :: camaras == Recibir(old(camaras), Aviso(p, Eliminado, id))
    {
      camaras := camaras - {id};
    }

    /** The subscriber of the camera stream (sistema_monitoreo.rs:253-260). */
    method RecibirAviso(x: Aviso)
      modifies this
      ensures camaras == Recibir(old(camaras), x)
    {
      match x.estado
      case Ahorro => PasarAAhorro(x.id, x.posicion);
      case Graba => PasarAGrabando(x.id);
      case Eliminado => Quitar(x.id);
    }
  }

  function Seguir(m: Mapa, av: seq<Aviso>): Mapa
    decreases av
  {
    if av == [] then m else Seguir(Recibir(m, av[0]), av[1..])
  }

  lemma {:induction false} SeguirJuntos(m: Mapa, av: seq<Aviso>, av': seq<Aviso>)
    ensures Seguir(m, av + av') == Seguir(Seguir(m, av), av')
    decreases av
  {
    if av == [] {
      assert av + av' == av';
    } else {
      assert (av + av')[1..] == av[1..] + av';
      SeguirJuntos(Recibir(m, av[0]), av[1..], av');
    }
  }

  /** What the monitor should show for a table of the central. */
  function Vista(t: Tabla): Mapa {
    map k | k in t :: CamaraVista(t[k].posicion, if t[k].estado == Grabando then Graba else Ahorro)
  }

  function Marcar(m: Mapa, s: set<nat>, e: EstadoAviso): Mapa {
    map k | k in m :: if k in s then m[k].(estado := e) else m[k]
  }

  function Ids(av: seq<Aviso>): set<nat> {
    set i | 0 <= i < |av| :: av[i].id
  }

  lemma {:induction false} SeguirMarca(m: Mapa, av: seq<Aviso>, e: EstadoAviso)
    requires e != Eliminado && forall x :: x in av ==> x.estado == e && x.id in m
    ensures Seguir(m, av) == Marcar(m, Ids(av), e)
    decreases av
  {
    if av != [] {
      var m' := Recibir(m, av[0]);
      assert m'.Keys == m.Keys;
      SeguirMarca(m', av[1..], e);
      IdsCabeza(av);
      assert Marcar(m', Ids(av[1..]), e) == Marcar(m, {av[0].id} + Ids(av[1..]), e);
    }
  }

  lemma IdsCabeza(av: seq<Aviso>)
    requires av != []
    ensures Ids(av) == {av[0].id} + Ids(av[1..])
  {
    forall k ensures k in Ids(av) <==> k in {av[0].id} + Ids(av[1..]) {
      if k in Ids(av) {
        var i :| 0 <= i < |av| && av[i].id == k;
        if i > 0 {
          assert av[1..][i - 1].id == k;
        }
      }
      if k in Ids(av[1..]) {
        var i :| 0 <= i < |av| - 1 && av[1..][i].id == k;
        assert av[i + 1].id == k;
      }
    }
  }

  lemma IdsDePublica(t: Tabla, s: set<nat>, e: EstadoAviso, av: seq<Aviso>)
    requires s <= t.Keys && Publica(av, AvisosDe(t, s, e))
    ensures Ids(av) == s
    ensures forall x :: x in av ==> x.estado == e && x.id in t
  {
    forall k ensures k in Ids(av) <==> k in s {
      if k in s {
        assert AvisoDe(t[k], k, e) in av;
      }
      if k in Ids(av) {
        var i :| 0 <= i < |av| && av[i].id == k;
        assert av[i] in av;
      }
    }
  }

  /** Whatever the order of the messages of a step, the monitor ends with the table of the
      central: position and state of each camera. */
  lemma ReplicaPaso(s: Estado, e: Suceso, a: Areas, av: seq<Aviso>)
    requires Orden(s) && PublicaPaso(s, e, a, av)
    ensures Seguir(Vista(s.tabla), av) == Vista(Paso(s, e, a).tabla)
  {
    match e
    case Mensaje(None) =>
    case Mensaje(Some(inc)) =>
      if !Ignorado(s.vistos, inc) {
        ReplicaIncidente(s.tabla, inc, a, av);
      }
    case Alta(p) =>
      assert av[1..] == [];
    case Baja(k, archivo) =>
      if archivo.Some? && k in s.tabla {
        ReplicaBaja(s.tabla, k, archivo.value, av);
      }
  }

  lemma ReplicaIncidente(t: Tabla, inc: Incidente, a: Areas, av: seq<Aviso>)
    requires Publica(av, AvisosIncidente(t, inc, a))
    ensures Seguir(Vista(t), av) == Vista(TrasIncidente(t, inc, a))
  {
    if inc.estado == "pendiente" {
      ReplicaPendiente(t, inc, a, av);
    } else if inc.estado == "cancelado" {
      ReplicaCancelado(t, inc, a, av);
    } else {
      NingunAviso(av);
    }
  }

  lemma NingunAviso(av: seq<Aviso>)
    requires Publica(av, {})
    ensures av == []
  {
    if av != [] {
      PrimeroEsta(av);
      assert false;
    }
  }

  lemma PrimeroEsta(av: seq<Aviso>)
    requires av != []
    ensures av[0] in av
  {
  }

  lemma VistaMarcada(t: Tabla, t': Tabla, s: set<nat>, e: EstadoAviso)
    requires MismosLugares(t, t') && e != Eliminado
    requires forall k :: k in t && k in s ==> (t'[k].estado == Grabando <==> e == Graba)
    requires forall k :: k in t && k !in s ==> t'[k].estado == t[k].estado
    ensures Marcar(Vista(t), s, e) == Vista(t')
  {
  }

  lemma SoloDespiertan(t: Tabla, t': Tabla)
    requires MismosLugares(t, t') && Duermen(t, t') == {}
    ensures Marcar(Vista(t), Despiertan(t, t'), Graba) == Vista(t')
  {
    var D := Despiertan(t, t');
    forall k | k in t && k !in D ensures t'[k].estado == t[k].estado {
      assert k !in Duermen(t, t');
    }
    VistaMarcada(t, t', D, Graba);
  }

  lemma ReplicaPendiente(t: Tabla, inc: Incidente, a: Areas, av: seq<Aviso>)
    requires Publica(av, AvisosDe(t, Despiertan(t, TrasPendiente(t, inc, a)), Graba))
    ensures Seguir(Vista(t), av) == Vista(TrasPendiente(t, inc, a))
  {
    var t' := TrasPendiente(t, inc, a);
    PendienteNoDuerme(t, inc, a);
    PendienteMismosLugares(t, inc, a);
    IdsDePublica(t, Despiertan(t, t'), Graba, av);
    SeguirMarca(Vista(t), av, Graba);
    SoloDespiertan(t, t');
  }

  lemma ReplicaCancelado(t: Tabla, inc: Incidente, a: Areas, av: seq<Aviso>)
    requires Publica(av, AvisosDe(t, BajanAlCancelar(t, inc, a), Ahorro))
    ensures Seguir(Vista(t), av) == Vista(TrasCancelado(t, inc, a))
  {
    var t' := TrasCancelado(t, inc, a);
    var B := BajanAlCancelar(t, inc, a);
    CanceladoLugares(t, inc, a);
    IdsDePublica(t, B, Ahorro, av);
    SeguirMarca(Vista(t), av, Ahorro);
    forall k | k in t ensures t'[k].estado == if k in B then AhorroDeEnergia else t[k].estado {
      BajanCancelado(t, inc, k, a);
    }
    VistaMarcada(t, t', B, Ahorro);
  }

  lemma ReplicaAvisar(t: Tabla, p: Posicion, area: real, n: nat, av: seq<Aviso>)
    requires Publica(av, AvisosDe(t, BajanAlAvisar(t, p, area, n), Ahorro))
    ensures Seguir(Vista(t), av) == Vista(TrasAvisar(t, p, area, n))
  {
    var B := BajanAlAvisar(t, p, area, n);
    IdsDePublica(t, B, Ahorro, av);
    SeguirMarca(Vista(t), av, Ahorro);
    VistaMarcada(t, TrasAvisar(t, p, area, n), B, Ahorro);
  }

  lemma VistaSin(t: Tabla, k: nat)
    ensures Vista(t) - {k} == Vista(t - {k})
  {
  }

  lemma ReplicaBaja(t: Tabla, k: nat, area: real, av: seq<Aviso>)
    requires k in t && |av| > 0 && av[|av| - 1] == Aviso(Posicion(0.0, 0.0), Eliminado, k)
    requires Publica(av[..|av| - 1], AvisosDe(t, BajanAlAvisar(t, t[k].posicion, area, |t[k].incidentes|), Ahorro))
    ensures Seguir(Vista(t), av) == Vista(TrasBaja(t, k, area))
  {
    var antes, fin := av[..|av| - 1], [av[|av| - 1]];
    var t1 := TrasAvisar(t, t[k].posicion, area, |t[k].incidentes|);
    assert av == antes + fin;
    SeguirJuntos(Vista(t), antes, fin);
    ReplicaAvisar(t, t[k].posicion, area, |t[k].incidentes|, antes);
    assert fin[1..] == [];
    VistaSin(t1, k);
  }

  // ----- whole runs -----

  /** A run with what each of its events published. */
  ghost predicate PublicaCorrida(s: Estado, es: seq<Suceso>, a: Areas, log: seq<seq<Aviso>>)
    decreases es
  {
    && |log| == |es|
    && (es != [] ==> PublicaPaso(s, es[0], a, log[0]) && PublicaCorrida(Paso(s, es[0], a), es[1..], a, log[1..]))
  }

  function Todo(log: seq<seq<Aviso>>): seq<Aviso> {
    if log == [] then [] else log[0] + Todo(log[1..])
  }

  lemma {:induction false} ReplicaCorrida(s: Estado, es: seq<Suceso>, a: Areas, log: seq<seq<Aviso>>)
    requires Orden(s) && PublicaCorrida(s, es, a, log)
    ensures Seguir(Vista(s.tabla), Todo(log)) == Vista(Correr(s, es, a).tabla)
    decreases es
  {
    if es != [] {
      ReplicaPaso(s, es[0], a, log[0]);
      OrdenPaso(s, es[0], a);
      ReplicaCorrida(Paso(s, es[0], a), es[1..], a, log[1..]);
      SeguirJuntos(Vista(s.tabla), log[0], Todo(log[1..]));
    }
  }

  // ----- what the map shows -----

  /** Message `j` puts the camera on the map, and no later one takes it off. */
  predicate VivaEn(av: seq<Aviso>, id: nat, j: nat) {
    && j < |av| && av[j].id == id && av[j].estado == Ahorro
    && forall b :: j < b < |av| && av[b].id == id ==> av[b].estado != Eliminado
  }

  predicate PrimeraViva(av: seq<Aviso>, id: nat, i: nat) {
    VivaEn(av, id, i) && forall j :: 0 <= j < i ==> !VivaEn(av, id, j)
  }

  predicate UltimoDe(av: seq<Aviso>, id: nat, u: nat) {
    u < |av| && av[u].id == id && forall j :: u < j < |av| ==> av[j].id != id
  }

  /** The camera is shown iff some "ahorro" about it has no later removal; it is shown where the first
      of these says, in the state that the last message about it says. */
  ghost predicate Muestra(m: Mapa, av: seq<Aviso>, id: nat) {
    && (id in m <==> exists j: nat :: VivaEn(av, id, j))
    && (id in m ==> forall i: nat :: PrimeraViva(av, id, i) ==> m[id].posicion == av[i].posicion)
    && (id in m ==> forall u: nat :: UltimoDe(av, id, u) ==> m[id].estado == av[u].estado)
  }

  lemma VivaMas(av: seq<Aviso>, x: Aviso, id: nat)
    ensures forall j: nat :: j < |av| ==>
      (VivaEn(av + [x], id, j) <==> VivaEn(av, id, j) && !(x.id == id && x.estado == Eliminado))
    ensures VivaEn(av + [x], id, |av|) <==> x.id == id && x.estado == Ahorro
    ensures forall u: nat :: UltimoDe(av + [x], id, u) <==> if x.id == id then u == |av| else UltimoDe(av, id, u)
  {
    var av' := av + [x];
    assert av'[|av|] == x;
    forall j: nat | j < |av|
      ensures VivaEn(av', id, j) <==> VivaEn(av, id, j) && !(x.id == id && x.estado == Eliminado)
    {
      assert av'[j] == av[j];
      assert forall b :: j < b < |av| ==> av'[b] == av[b];
    }
    forall u: nat ensures UltimoDe(av', id, u) <==> if x.id == id then u == |av| else UltimoDe(av, id, u) {
      assert forall b :: 0 <= b < |av| ==> av'[b] == av[b];
    }
  }

  /** The message is about another camera, or changes nothing but the state. */
  lemma MuestraIgual(m: Mapa, av: seq<Aviso>, x: Aviso, id: nat)
    requires Muestra(m, av, id) && (x.id != id || x.estado == Graba || (x.estado == Ahorro && id in m))
    ensures Muestra(Recibir(m, x), av + [x], id)
  {
    var m', av' := Recibir(m, x), av + [x];
    VivaMas(av, x, id);
    if id in m {
      var j: nat :| VivaEn(av, id, j);
      assert VivaEn(av', id, j);
      forall i: nat | PrimeraViva(av', id, i) ensures m'[id].posicion == av'[i].posicion {
        assert PrimeraViva(av, id, i);
      }
    }
  }

  lemma MuestraNueva(m: Mapa, av: seq<Aviso>, x: Aviso, id: nat)
    requires Muestra(m, av, id) && x.id == id && x.estado == Ahorro && id !in m
    ensures Muestra(Recibir(m, x), av + [x], id)
  {
    VivaMas(av, x, id);
    assert VivaEn(av + [x], id, |av|);
    forall i: nat | PrimeraViva(av + [x], id, i) ensures i == |av| {
      assert i < |av| ==> !VivaEn(av, id, i);
    }
  }

  lemma MuestraQuitada(m: Mapa, av: seq<Aviso>, x: Aviso, id: nat)
    requires Muestra(m, av, id) && x.id == id && x.estado == Eliminado
    ensures Muestra(Recibir(m, x), av + [x], id)
  {
    VivaMas(av, x, id);
  }

  lemma MuestraMas(m: Mapa, av: seq<Aviso>, x: Aviso, id: nat)
    requires Muestra(m, av, id)
    ensures Muestra(Recibir(m, x), av + [x], id)
  {
    if x.id == id && x.estado == Eliminado {
      MuestraQuitada(m, av, x, id);
    } else if x.id == id && x.estado == Ahorro && id !in m {
      MuestraNueva(m, av, x, id);
    } else {
      MuestraIgual(m, av, x, id);
    }
  }

  /** Whatever messages arrive, in whatever order, the map shows what they say. */
  lemma {:induction false} MapaSegunAvisos(av: seq<Aviso>, id: nat)
    ensures Muestra(Seguir(map[], av), av, id)
  {
    if av != [] {
      var antes, x := av[..|av| - 1], av[|av| - 1];
      MapaSegunAvisos(antes, id);
      SeguirJuntos(map[], antes, [x]);
      assert av == antes + [x] && [x][1..] == [];
      MuestraMas(Seguir(map[], antes), antes, x, id);
    }
  }

  // ----- repeated deliveries -----

  function Veces(x: Aviso, n: nat): seq<Aviso> {
    if n == 0 then [] else [x] + Veces(x, n - 1)
  }

  /** `av` with its i-th message repeated `veces[i]` times in a row. */
  function Eco(av: seq<Aviso>, veces: seq<nat>): seq<Aviso>
    requires |av| == |veces|
  {
    if av == [] then [] else Veces(av[0], veces[0]) + Eco(av[1..], veces[1..])
  }

  lemma {:induction false} SeguirVeces(m: Mapa, x: Aviso, n: nat)
    requires n > 0
    ensures Seguir(m, Veces(x, n)) == Recibir(m, x)
    decreases n
  {
    assert Veces(x, n)[0] == x && Veces(x, n)[1..] == Veces(x, n - 1);
    if n > 1 {
      SeguirVeces(Recibir(m, x), x, n - 1);
      assert Recibir(Recibir(m, x), x) == Recibir(m, x);
    }
  }

  lemma {:induction false} EcoInocuo(m: Mapa, av: seq<Aviso>, veces: seq<nat>)
    requires |av| == |veces| && forall i :: 0 <= i < |veces| ==> veces[i] > 0
    ensures Seguir(m, Eco(av, veces)) == Seguir(m, av)
    decreases av
  {
    if av != [] {
      SeguirVeces(m, av[0], veces[0]);
      SeguirJuntos(m, Veces(av[0], veces[0]), Eco(av[1..], veces[1..]));
      EcoInocuo(Recibir(m, av[0]), av[1..], veces[1..]);
    }
  }

  /** From an empty start, after any run of the central and with each message delivered once or
      more in a row, the monitor shows exactly the cameras of the central, with their places and
      states. */
  lemma ReplicaFiel(es: seq<Suceso>, a: Areas, log: seq<seq<Aviso>>, veces: seq<nat>)
    requires PublicaCorrida(INICIAL, es, a, log) && |veces| == |Todo(log)|
    requires forall i :: 0 <= i < |veces| ==> veces[i] > 0
    ensures Seguir(map[], Eco(Todo(log), veces)) == Vista(Correr(INICIAL, es, a).tabla)
  {
    EcoInocuo(map[], Todo(log), veces);
    ReplicaCorrida(INICIAL, es, a, log);
    assert Vista(INICIAL.tabla) == map[];
  }
}
