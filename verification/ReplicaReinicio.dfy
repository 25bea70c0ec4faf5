/** The monitor's map when the end of the camera stream is delivered again, as a server that was
    started again does. */
module ReplicaReinicio {
  import opened Wrappers
  import opened Camaras
  import opened CentralSpec
  import opened CentralCorridas
  import opened MonitorCamaras

  /** No "ahorro" about the camera after its removal, and all of them at one place. */
  predicate Coherente(av: seq<Aviso>, id: nat) {
    forall i, j :: 0 <= i < j < |av| && av[i].id == id && av[j].id == id && av[j].estado == Ahorro ==>
      av[i].estado != Eliminado && (av[i].estado == Ahorro ==> av[i].posicion == av[j].posicion)
  }

  // ----- a stream delivered in pieces that overlap -----

  /** Positions of the stream in the order in which they are delivered: nothing is delivered before what
      comes just before it, anything may be delivered again, and the end is delivered last. */
  predicate Camina(idx: seq<nat>, n: nat) {
    && (forall t :: 0 <= t < |idx| ==> idx[t] < n)
    && (n > 0 ==> |idx| > 0 && idx[0] == 0 && idx[|idx| - 1] == n - 1)
    && forall t :: 0 <= t < |idx| - 1 ==> idx[t + 1] <= idx[t] + 1
  }

  function Entregado(av: seq<Aviso>, idx: seq<nat>): seq<Aviso>
    requires forall t :: 0 <= t < |idx| ==> idx[t] < |av|
  {
    seq(|idx|, t requires 0 <= t < |idx| => av[idx[t]])
  }

  /** From a position on, all later ones are delivered. */
  lemma {:induction false} PasaPor(idx: seq<nat>, n: nat, t: nat, e: nat) returns (u: nat)
    requires Camina(idx, n) && t < |idx| && idx[t] <= e < n
    ensures t <= u < |idx| && idx[u] == e
    decreases |idx| - t
  {
    if idx[t] == e {
      u := t;
    } else {
      u := PasaPor(idx, n, t + 1, e);
    }
  }

  lemma VivaEntregada(av: seq<Aviso>, idx: seq<nat>, id: nat, j: nat) returns (t: nat)
    requires Camina(idx, |av|) && Coherente(av, id) && VivaEn(av, id, j)
    ensures VivaEn(Entregado(av, idx), id, t)
  {
    t := PasaPor(idx, |av|, 0, j);
    var todo := Entregado(av, idx);
    forall b | t < b < |todo| && todo[b].id == id ensures todo[b].estado != Eliminado {
      assert todo[b] == av[idx[b]];
    }
  }

  lemma VivaEnOrigen(av: seq<Aviso>, idx: seq<nat>, id: nat, t: nat)
    requires Camina(idx, |av|) && VivaEn(Entregado(av, idx), id, t)
    ensures VivaEn(av, id, idx[t])
  {
    var todo := Entregado(av, idx);
    forall b | idx[t] < b < |av| && av[b].id == id ensures av[b].estado != Eliminado {
      var u := PasaPor(idx, |av|, t, b);
      assert todo[u] == av[b] && u != t;
    }
  }

  lemma UltimoEnOrigen(av: seq<Aviso>, idx: seq<nat>, id: nat, u: nat)
    requires Camina(idx, |av|) && UltimoDe(Entregado(av, idx), id, u)
    ensures UltimoDe(av, id, idx[u])
  {
    var todo := Entregado(av, idx);
    forall b | idx[u] < b < |av| ensures av[b].id != id {
      var t := PasaPor(idx, |av|, u, b);
      assert todo[t] == av[b] && t != u;
    }
  }

  lemma {:induction false} PrimeraHay(av: seq<Aviso>, id: nat, j: nat) returns (i: nat)
    requires VivaEn(av, id, j)
    ensures PrimeraViva(av, id, i)
    decreases j
  {
    if h: nat :| h < j && VivaEn(av, id, h) {
      i := PrimeraHay(av, id, h);
    } else {
      i := j;
    }
  }

  lemma {:induction false} UltimoHay(av: seq<Aviso>, id: nat, j: nat) returns (u: nat)
    requires j < |av| && av[j].id == id
    ensures UltimoDe(av, id, u)
    decreases |av| - j
  {
    if h: nat :| j < h < |av| && av[h].id == id {
      u := UltimoHay(av, id, h);
    } else {
      u := j;
    }
  }

  lemma MismaPosicion(av: seq<Aviso>, id: nat, i: nat, j: nat)
    requires Coherente(av, id) && VivaEn(av, id, i) && VivaEn(av, id, j)
    ensures av[i].posicion == av[j].posicion
  {
    assert i < j || i == j || j < i;
  }

  lemma RecorridoInocuoEn(av: seq<Aviso>, idx: seq<nat>, id: nat)
    requires Camina(idx, |av|) && Coherente(av, id)
    ensures var m, m' := Seguir(map[], av), Seguir(map[], Entregado(av, idx));
      (id in m <==> id in m') && (id in m ==> m[id] == m'[id])
  {
    var todo := Entregado(av, idx);
    var m, m' := Seguir(map[], av), Seguir(map[], todo);
    MapaSegunAvisos(av, id);
    MapaSegunAvisos(todo, id);
    if id in m {
      var j: nat :| VivaEn(av, id, j);
      var t := VivaEntregada(av, idx, id, j);
      var i := PrimeraHay(av, id, j);
      var i' := PrimeraHay(todo, id, t);
      VivaEnOrigen(av, idx, id, i');
      MismaPosicion(av, id, i, idx[i']);
      var u := UltimoHay(todo, id, t);
      UltimoEnOrigen(av, idx, id, u);
    }
    if id in m' {
      var t: nat :| VivaEn(todo, id, t);
      VivaEnOrigen(av, idx, id, t);
    }
  }

  /** However coherent messages are delivered again, the map is the same. */
  lemma RecorridoInocuo(av: seq<Aviso>, idx: seq<nat>)
    requires Camina(idx, |av|) && forall id: nat :: Coherente(av, id)
    ensures Seguir(map[], Entregado(av, idx)) == Seguir(map[], av)
  {
    var m, m' := Seguir(map[], av), Seguir(map[], Entregado(av, idx));
    forall id: nat ensures (id in m <==> id in m') && (id in m ==> m[id] == m'[id]) {
      RecorridoInocuoEn(av, idx, id);
    }
    assert m == m';
  }

  // ----- the runs of the server -----

  /** What one run of the server delivers: the positions from `desde` to one before `hasta`. */
  datatype Tramo = Tramo(desde: nat, hasta: nat)

  function Posiciones(x: Tramo): seq<nat>
    requires x.desde <= x.hasta
  {
    seq(x.hasta - x.desde, i requires 0 <= i < x.hasta - x.desde => x.desde + i)
  }

  /** Each run goes back to what it has still to deliver, the first begins at the beginning, and the last one
      reaches the end of the stream, which grows meanwhile. */
  predicate Encadenados(xs: seq<Tramo>, n: nat) {
    SinHuecos(xs, n) && xs[|xs| - 1].hasta == n
  }

  function Recorrido(xs: seq<Tramo>): seq<nat>
    requires forall k :: 0 <= k < |xs| ==> xs[k].desde <= xs[k].hasta
  {
    if xs == [] then [] else Recorrido(xs[..|xs| - 1]) + Posiciones(xs[|xs| - 1])
  }

  /** A walk up to the end of the last run. */
  predicate CaminaHasta(idx: seq<nat>, n: nat, fin: nat) {
    && |idx| > 0 && idx[0] == 0 && idx[|idx| - 1] + 1 == fin
    && (forall t :: 0 <= t < |idx| ==> idx[t] < n)
    && forall t :: 0 <= t < |idx| - 1 ==> idx[t + 1] <= idx[t] + 1
  }

  lemma UnTramoMas(idx: seq<nat>, x: Tramo, n: nat, fin: nat)
    requires x.desde < x.hasta <= n && if idx == [] then x.desde == 0 else CaminaHasta(idx, n, fin) && x.desde <= fin
    ensures CaminaHasta(idx + Posiciones(x), n, x.hasta)
  {
    var todo, p := idx + Posiciones(x), Posiciones(x);
    forall t | 0 <= t < |todo| - 1 ensures todo[t + 1] <= todo[t] + 1 {
      if t + 1 < |idx| {
        assert idx[t + 1] <= idx[t] + 1;
      } else if t >= |idx| {
        assert p[t + 1 - |idx|] == p[t - |idx|] + 1;
      }
    }
  }

  /** The first runs begin at the beginning and leave no gap. */
  predicate SinHuecos(xs: seq<Tramo>, n: nat) {
    && |xs| > 0 && xs[0].desde == 0
    && (forall k :: 0 <= k < |xs| ==> xs[k].desde < xs[k].hasta <= n)
    && forall k :: 0 <= k < |xs| - 1 ==> xs[k + 1].desde <= xs[k].hasta
  }

  lemma {:induction false} RecorridoCamina(xs: seq<Tramo>, n: nat)
    requires SinHuecos(xs, n)
    ensures CaminaHasta(Recorrido(xs), n, xs[|xs| - 1].hasta)
  {
    var antes, x := xs[..|xs| - 1], xs[|xs| - 1];
    if antes == [] {
      UnTramoMas([], x, n, 0);
    } else {
      RecorridoCamina(antes, n);
      assert x.desde <= antes[|antes| - 1].hasta;
      UnTramoMas(Recorrido(antes), x, n, antes[|antes| - 1].hasta);
    }
  }

  // ----- the messages of the central are coherent -----

  /** What a run from `s` may still say about a camera. */
  predicate DesdeAqui(s: Estado, av: seq<Aviso>, id: nat) {
    && Coherente(av, id)
    && (id in s.tabla ==> forall i :: 0 <= i < |av| && av[i].id == id && av[i].estado == Ahorro ==> av[i].posicion == s.tabla[id].posicion)
    && (id !in s.tabla && id <= s.ultimoId ==> forall i :: 0 <= i < |av| ==> av[i].id != id)
  }

  /** Messages about cameras of the table, at their places, and no removals. */
  predicate DeLaTabla(t: Tabla, av: seq<Aviso>) {
    forall i :: 0 <= i < |av| ==> av[i].id in t && av[i].posicion == t[av[i].id].posicion && av[i].estado != Eliminado
  }

  lemma AvisosDeLaTabla(t: Tabla, x: set<nat>, e: EstadoAviso, av: seq<Aviso>)
    requires x <= t.Keys && e != Eliminado && Publica(av, AvisosDe(t, x, e))
    ensures DeLaTabla(t, av)
  {
    forall i | 0 <= i < |av|
      ensures av[i].id in t && av[i].posicion == t[av[i].id].posicion && av[i].estado != Eliminado
    {
      assert av[i] in av;
    }
  }

  lemma IncidenteDeLaTabla(t: Tabla, inc: Incidente, a: Areas, av: seq<Aviso>)
    requires Publica(av, AvisosIncidente(t, inc, a))
    ensures DeLaTabla(t, av)
  {
    if inc.estado == "pendiente" {
      AvisosDeLaTabla(t, Despiertan(t, TrasPendiente(t, inc, a)), Graba, av);
    } else if inc.estado == "cancelado" {
      CanceladoLugares(t, inc, a);
      AvisosDeLaTabla(t, BajanAlCancelar(t, inc, a), Ahorro, av);
    } else {
      NingunAviso(av);
    }
  }

  /** Messages of the table before a run that leaves the places as they are. */
  lemma AntepuestoIgual(s: Estado, s': Estado, av: seq<Aviso>, resto: seq<Aviso>, id: nat)
    requires DeLaTabla(s.tabla, av) && DesdeAqui(s', resto, id) && s'.ultimoId == s.ultimoId
    requires id in s.tabla <==> id in s'.tabla
    requires id in s.tabla ==> s'.tabla[id].posicion == s.tabla[id].posicion
    requires id in s.tabla ==> id <= s.ultimoId
    ensures DesdeAqui(s, av + resto, id)
  {
    var todo := av + resto;
    forall i | 0 <= i < |todo| ensures todo[i] == if i < |av| then av[i] else resto[i - |av|] {}
  }

  /** Messages that are not about the camera. */
  lemma AntepuestoAjeno(s: Estado, s': Estado, av: seq<Aviso>, resto: seq<Aviso>, id: nat)
    requires DesdeAqui(s', resto, id) && forall i :: 0 <= i < |av| ==> av[i].id != id
    requires id in s.tabla <==> id in s'.tabla
    requires id in s.tabla ==> s'.tabla[id].posicion == s.tabla[id].posicion
    requires id <= s.ultimoId ==> id <= s'.ultimoId
    ensures DesdeAqui(s, av + resto, id)
  {
    var todo := av + resto;
    forall i | 0 <= i < |todo| ensures todo[i] == if i < |av| then av[i] else resto[i - |av|] {}
  }

  lemma AntesDeAlta(s: Estado, p: Posicion, a: Areas, resto: seq<Aviso>, id: nat)
    requires Orden(s) && DesdeAqui(Paso(s, Alta(p), a), resto, id)
    ensures DesdeAqui(s, [Aviso(p, Ahorro, s.ultimoId + 1)] + resto, id)
  {
    var x := Aviso(p, Ahorro, s.ultimoId + 1);
    if id == s.ultimoId + 1 {
      var todo := [x] + resto;
      forall i | 0 <= i < |todo| ensures todo[i] == if i == 0 then x else resto[i - 1] {}
    } else {
      AntepuestoAjeno(s, Paso(s, Alta(p), a), [x], resto, id);
    }
  }

  /** A removal, before what is said once the camera is gone. */
  lemma AntesDeQuitar(s: Estado, k: nat, resto: seq<Aviso>, id: nat)
    requires k in s.tabla && k <= s.ultimoId && DesdeAqui(s.(tabla := s.tabla - {k}), resto, id)
    ensures DesdeAqui(s, [Aviso(Posicion(0.0, 0.0), Eliminado, k)] + resto, id)
  {
    var x := Aviso(Posicion(0.0, 0.0), Eliminado, k);
    if id == k {
      var todo := [x] + resto;
      forall i | 0 <= i < |todo| ensures todo[i] == if i == 0 then x else resto[i - 1] {}
    } else {
      AntepuestoAjeno(s, s.(tabla := s.tabla - {k}), [x], resto, id);
    }
  }

  lemma AntesDeBaja(s: Estado, k: nat, area: real, a: Areas, av: seq<Aviso>, resto: seq<Aviso>, id: nat)
    requires Orden(s) && k in s.tabla && PublicaPaso(s, Baja(k, Some(area)), a, av)
    requires DesdeAqui(Paso(s, Baja(k, Some(area)), a), resto, id)
    ensures DesdeAqui(s, av + resto, id)
  {
    var antes, x := av[..|av| - 1], av[|av| - 1];
    var c := s.tabla[k];
    var s1 := s.(tabla := TrasAvisar(s.tabla, c.posicion, area, |c.incidentes|));
    AvisosDeLaTabla(s.tabla, BajanAlAvisar(s.tabla, c.posicion, area, |c.incidentes|), Ahorro, antes);
    AntesDeQuitar(s1, k, resto, id);
    AntepuestoIgual(s, s1, antes, [x] + resto, id);
    assert av + resto == antes + ([x] + resto);
  }

  lemma AntesDeIncidente(s: Estado, inc: Incidente, a: Areas, av: seq<Aviso>, resto: seq<Aviso>, id: nat)
    requires Orden(s) && PublicaPaso(s, Mensaje(Some(inc)), a, av)
    requires DesdeAqui(Paso(s, Mensaje(Some(inc)), a), resto, id)
    ensures DesdeAqui(s, av + resto, id)
  {
    if !Ignorado(s.vistos, inc) {
      IncidenteDeLaTabla(s.tabla, inc, a, av);
      IncidenteNoMueve(s.tabla, inc, a);
    }
    AntepuestoIgual(s, Paso(s, Mensaje(Some(inc)), a), av, resto, id);
  }

  lemma AntesDeNada(s: Estado, av: seq<Aviso>, resto: seq<Aviso>, id: nat)
    requires av == [] && DesdeAqui(s, resto, id)
    ensures DesdeAqui(s, av + resto, id)
  {
    assert av + resto == resto;
  }

  lemma AntesDePaso(s: Estado, e: Suceso, a: Areas, av: seq<Aviso>, resto: seq<Aviso>, id: nat)
    requires Orden(s) && PublicaPaso(s, e, a, av) && DesdeAqui(Paso(s, e, a), resto, id)
    ensures DesdeAqui(s, av + resto, id)
  {
    match e
    case Mensaje(None) =>
      AntesDeNada(s, av, resto, id);
    case Mensaje(Some(inc)) =>
      AntesDeIncidente(s, inc, a, av, resto, id);
    case Alta(p) =>
      AntesDeAlta(s, p, a, resto, id);
    case Baja(k, archivo) =>
      if archivo.Some? && k in s.tabla {
        AntesDeBaja(s, k, archivo.value, a, av, resto, id);
      } else {
        AntesDeNada(s, av, resto, id);
      }
  }

  lemma {:induction false} CorridaCoherente(s: Estado, es: seq<Suceso>, a: Areas, log: seq<seq<Aviso>>, id: nat)
    requires Orden(s) && PublicaCorrida(s, es, a, log)
    ensures DesdeAqui(s, Todo(log), id)
    decreases es
  {
    if es != [] {
      OrdenPaso(s, es[0], a);
      CorridaCoherente(Paso(s, es[0], a), es[1..], a, log[1..], id);
      AntesDePaso(s, es[0], a, log[0], Todo(log[1..]), id);
    }
  }

  /** After any run of the central, and however many times the server was started again meanwhile: once
      the last of its runs has delivered the end of the stream, the monitor shows exactly the cameras
      of the central. */
  lemma ReplicaTrasReinicios(es: seq<Suceso>, a: Areas, log: seq<seq<Aviso>>, xs: seq<Tramo>)
    requires PublicaCorrida(INICIAL, es, a, log) && Encadenados(xs, |Todo(log)|)
    ensures Camina(Recorrido(xs), |Todo(log)|)
    ensures Seguir(map[], Entregado(Todo(log), Recorrido(xs))) == Vista(Correr(INICIAL, es, a).tabla)
  {
    RecorridoCamina(xs, |Todo(log)|);
    forall id: nat ensures Coherente(Todo(log), id) {
      CorridaCoherente(INICIAL, es, a, log, id);
    }
    RecorridoInocuo(Todo(log), Recorrido(xs));
    ReplicaCorrida(INICIAL, es, a, log);
    assert Vista(INICIAL.tabla) == map[];
  }

  /** In particular with any suffix of the stream delivered a second time. */
  lemma ReplicaTrasReinicio(es: seq<Suceso>, a: Areas, log: seq<seq<Aviso>>, k: nat)
    requires PublicaCorrida(INICIAL, es, a, log) && k <= |Todo(log)|
    ensures Seguir(map[], Todo(log) + Todo(log)[k..]) == Vista(Correr(INICIAL, es, a).tabla)
  {
    var av := Todo(log);
    if k < |av| {
      var xs := [Tramo(0, |av|), Tramo(k, |av|)];
      ReplicaTrasReinicios(es, a, log, xs);
      DosTramos(av, k);
    } else {
      assert av + av[k..] == av;
      ReplicaCorrida(INICIAL, es, a, log);
      assert Vista(INICIAL.tabla) == map[];
    }
  }

  lemma DosTramos(av: seq<Aviso>, k: nat)
    requires k < |av|
    ensures var idx := Recorrido([Tramo(0, |av|), Tramo(k, |av|)]);
      (forall t :: 0 <= t < |idx| ==> idx[t] < |av|) && Entregado(av, idx) == av + av[k..]
  {
    var x, y := Tramo(0, |av|), Tramo(k, |av|);
    assert [x, y][..1] == [x] && [x][..0] == [];
    assert Recorrido([x]) == [] + Posiciones(x);
    assert Recorrido([x, y]) == Posiciones(x) + Posiciones(y);
  }
}
