/** What the counters of the camera central mean: an incremental table against the one that
    would be recomputed from the live incidents. */
module CentralInvariante {
  import opened Camaras
  import opened CentralSpec

  /** Live incidents that reach a position. */
  function Alcanzados(vivos: map<int, Posicion>, p: Posicion, area: real): set<int> {
    set i | i in vivos && p.EnRango(vivos[i], area)
  }

  /** The other cameras that are neighbours of `c`. */
  function Vecinas(t: Tabla, c: nat, a: Areas): set<nat>
    requires c in t
  {
    Cercanas(t, t.Keys - {c}, c, a.lindante)
  }

  /** Pairs (other camera nearby, live incident that reaches it). */
  function Pares(t: Tabla, vivos: map<int, Posicion>, c: nat, a: Areas): set<(nat, int)>
    requires c in t
  {
    set r, i | r in Vecinas(t, c, a) && i in Alcanzados(vivos, t[r].posicion, a.incidente) :: (r, i)
  }

  ghost predicate CamaraBien(t: Tabla, vivos: map<int, Posicion>, c: nat, a: Areas)
    requires c in t
  {
    && SinRepetidos(t[c].incidentes)
    && (forall i :: i in t[c].incidentes <==> i in Alcanzados(vivos, t[c].posicion, a.incidente))
    && t[c].numlindantes == |Pares(t, vivos, c, a)|
    && (t[c].estado == Grabando <==> t[c].incidentes != [] || t[c].numlindantes > 0)
  }

  /** Every list, every counter and every state is the one recomputed from scratch. */
  ghost predicate Bien(t: Tabla, vivos: map<int, Posicion>, a: Areas) {
    forall c :: c in t ==> CamaraBien(t, vivos, c, a)
  }

  /** The intended meaning: a camera records iff a live incident reaches it or a neighbour
      (a camera is its own neighbour). */
  lemma {:induction false} GrabaSiiAlcanzada(t: Tabla, vivos: map<int, Posicion>, c: nat, a: Areas)
    requires a.lindante >= 0.0 && Bien(t, vivos, a) && c in t
    ensures t[c].estado == Grabando <==>
      exists r, i :: r in t && i in vivos && t[c].posicion.EnRango(t[r].posicion, a.lindante)
                     && t[r].posicion.EnRango(vivos[i], a.incidente)
  {
    assert CamaraBien(t, vivos, c, a);
    var P := Pares(t, vivos, c, a);
    if t[c].incidentes != [] {
      var i := t[c].incidentes[0];
      assert i in Alcanzados(vivos, t[c].posicion, a.incidente);
      assert t[c].posicion.EnRango(t[c].posicion, a.lindante);
    } else if |P| > 0 {
      var x :| x in P;
      assert x.0 in t && x.1 in vivos;
    }
    if r, i :| r in t && i in vivos && t[c].posicion.EnRango(t[r].posicion, a.lindante)
               && t[r].posicion.EnRango(vivos[i], a.incidente) {
      assert i in Alcanzados(vivos, t[r].posicion, a.incidente);
      if r == c {
        assert i in t[c].incidentes;
      } else {
        assert (r, i) in P;
      }
    }
  }

  /** The same on coordinates. */
  lemma GrabaSiiAlcanzadaEn(t: Tabla, vivos: map<int, Posicion>, c: nat, a: Areas)
    requires a.lindante >= 0.0 && Bien(t, vivos, a) && c in t
    ensures t[c].estado == Grabando <==>
      exists r, i :: r in t && i in vivos
        && -a.lindante <= t[c].posicion.lat - t[r].posicion.lat <= a.lindante
        && -a.lindante <= t[c].posicion.long - t[r].posicion.long <= a.lindante
        && -a.incidente <= t[r].posicion.lat - vivos[i].lat <= a.incidente
        && -a.incidente <= t[r].posicion.long - vivos[i].long <= a.incidente
  {
    GrabaSiiAlcanzada(t, vivos, c, a);
    forall r, i | r in t && i in vivos
      ensures t[c].posicion.EnRango(t[r].posicion, a.lindante) && t[r].posicion.EnRango(vivos[i], a.incidente) <==>
        && -a.lindante <= t[c].posicion.lat - t[r].posicion.lat <= a.lindante
        && -a.lindante <= t[c].posicion.long - t[r].posicion.long <= a.lindante
        && -a.incidente <= t[r].posicion.lat - vivos[i].lat <= a.incidente
        && -a.incidente <= t[r].posicion.long - vivos[i].long <= a.incidente
    {
      EnRangoEs(t[c].posicion, t[r].posicion, a.lindante);
      EnRangoEs(t[r].posicion, vivos[i], a.incidente);
    }
  }

  // ----- counting -----

  function ConUno(s: set<nat>, i: int): set<(nat, int)> {
    set r | r in s :: (r, i)
  }

  lemma {:induction false} CuantosConUno(s: set<nat>, i: int)
    ensures |ConUno(s, i)| == |s|
    decreases s
  {
    if s == {} {
      assert ConUno(s, i) == {};
    } else {
      var x :| x in s;
      CuantosConUno(s - {x}, i);
      assert ConUno(s, i) == ConUno(s - {x}, i) + {(x, i)};
      assert (x, i) !in ConUno(s - {x}, i);
    }
  }

  /** Cameras of `zona` near `c`, leaving `c` out. */
  function Cerca(t: Tabla, zona: set<nat>, c: nat, a: Areas): set<nat>
    requires c in t
  {
    Cercanas(t, zona - {c}, c, a.lindante)
  }

  /** A camera counts itself as a neighbour when it is in the zone. */
  lemma CercaConmigo(t: Tabla, zona: set<nat>, c: nat, a: Areas)
    requires c in t && zona <= t.Keys && a.lindante >= 0.0
    ensures |Cercanas(t, zona, c, a.lindante)| == |Cerca(t, zona, c, a)| + if c in zona then 1 else 0
  {
    var N := Cercanas(t, zona, c, a.lindante);
    if c in zona {
      assert N == Cerca(t, zona, c, a) + {c};
    } else {
      assert N == Cerca(t, zona, c, a);
    }
  }

  lemma LugaresBastan(t: Tabla, t': Tabla, vivos: map<int, Posicion>, c: nat, s: set<nat>, a: Areas)
    requires MismosLugares(t, t') && c in t
    ensures Pares(t, vivos, c, a) == Pares(t', vivos, c, a)
    ensures Cercanas(t, s, c, a.lindante) == Cercanas(t', s, c, a.lindante)
  {
    assert Vecinas(t, c, a) == Vecinas(t', c, a);
  }

  lemma ParesConUnoMas(t: Tabla, vivos: map<int, Posicion>, id: int, p: Posicion, c: nat, a: Areas)
    requires c in t && id !in vivos
    ensures var N := ConUno(Cerca(t, Zona(t, p, a.incidente), c, a), id);
      Pares(t, vivos[id := p], c, a) == Pares(t, vivos, c, a) + N && Pares(t, vivos, c, a) !! N
  {
    var N := ConUno(Cerca(t, Zona(t, p, a.incidente), c, a), id);
    var P, P' := Pares(t, vivos, c, a), Pares(t, vivos[id := p], c, a);
    forall r: nat, i: int ensures (r, i) in P' <==> (r, i) in P || (r, i) in N {
      if r in Vecinas(t, c, a) {
        assert i in Alcanzados(vivos[id := p], t[r].posicion, a.incidente)
          <==> i in Alcanzados(vivos, t[r].posicion, a.incidente) || (i == id && t[r].posicion.EnRango(p, a.incidente));
      }
    }
    forall x ensures x in P' <==> x in P + N {
      assert x == (x.0, x.1);
    }
  }

  lemma ParesConUno(t: Tabla, vivos: map<int, Posicion>, id: int, p: Posicion, c: nat, a: Areas)
    requires c in t && id !in vivos
    ensures |Pares(t, vivos[id := p], c, a)| == |Pares(t, vivos, c, a)| + |Cerca(t, Zona(t, p, a.incidente), c, a)|
  {
    ParesConUnoMas(t, vivos, id, p, c, a);
    CuantosConUno(Cerca(t, Zona(t, p, a.incidente), c, a), id);
  }

  lemma ParesSinUno(t: Tabla, vivos: map<int, Posicion>, id: int, c: nat, a: Areas)
    requires c in t && id in vivos
    ensures |Pares(t, vivos - {id}, c, a)| == |Pares(t, vivos, c, a)| - |Cerca(t, Zona(t, vivos[id], a.incidente), c, a)|
  {
    ParesConUno(t, vivos - {id}, id, vivos[id], c, a);
    assert (vivos - {id})[id := vivos[id]] == vivos;
  }

  // ----- pendiente -----

  lemma PendienteEn(t: Tabla, inc: Incidente, c: nat, a: Areas)
    requires c in t
    ensures TrasPendiente(t, inc, a).Keys == t.Keys
    ensures TrasPendiente(t, inc, a)[c]
         == Sumar(Anotar(t[c], inc, a.incidente), |Cercanas(t, Zona(t, inc.posicion, a.incidente), c, a.lindante)|)
  {
    LugaresBastan(t, TrasAnotar(t, inc, a), map[], c, Zona(t, inc.posicion, a.incidente), a);
  }

  lemma PendienteMismosLugares(t: Tabla, inc: Incidente, a: Areas)
    ensures MismosLugares(t, TrasPendiente(t, inc, a))
  {
  }

  lemma PendienteCuenta(t: Tabla, vivos: map<int, Posicion>, inc: Incidente, c: nat, a: Areas)
    requires a.lindante >= 0.0 && inc.id !in vivos && c in t && inc.id !in t[c].incidentes
    requires t[c].numlindantes == |Pares(t, vivos, c, a)|
    ensures c in TrasPendiente(t, inc, a)
    ensures TrasPendiente(t, inc, a)[c].numlindantes
         == |Pares(TrasPendiente(t, inc, a), vivos[inc.id := inc.posicion], c, a)|
  {
    PendienteEn(t, inc, c, a);
    CercaConmigo(t, Zona(t, inc.posicion, a.incidente), c, a);
    ParesConUno(t, vivos, inc.id, inc.posicion, c, a);
    PendienteMismosLugares(t, inc, a);
    LugaresBastan(t, TrasPendiente(t, inc, a), vivos[inc.id := inc.posicion], c, {}, a);
  }

  lemma AnotarLista(c: Foto, inc: Incidente, vivos: map<int, Posicion>, area: real)
    requires inc.id !in vivos && SinRepetidos(c.incidentes)
    requires forall i :: i in c.incidentes <==> i in Alcanzados(vivos, c.posicion, area)
    ensures var c' := Anotar(c, inc, area);
      && SinRepetidos(c'.incidentes) && c'.posicion == c.posicion
      && (forall i :: i in c'.incidentes <==> i in Alcanzados(vivos[inc.id := inc.posicion], c.posicion, area))
      && c'.numlindantes == c.numlindantes - (if c.posicion.EnRango(inc.posicion, area) then 1 else 0)
      && (c'.estado == Grabando <==> c.estado == Grabando || c.posicion.EnRango(inc.posicion, area))
      && (c.posicion.EnRango(inc.posicion, area) ==> c'.incidentes != [])
      && (!c.posicion.EnRango(inc.posicion, area) ==> c'.incidentes == c.incidentes)
  {
    assert inc.id !in Alcanzados(vivos, c.posicion, area);
  }

  lemma PendienteConservaEn(t: Tabla, vivos: map<int, Posicion>, inc: Incidente, c: nat, a: Areas)
    requires a.lindante >= 0.0 && inc.id !in vivos && c in t && CamaraBien(t, vivos, c, a)
    ensures c in TrasPendiente(t, inc, a)
    ensures CamaraBien(TrasPendiente(t, inc, a), vivos[inc.id := inc.posicion], c, a)
  {
    assert inc.id !in t[c].incidentes;
    PendienteCuenta(t, vivos, inc, c, a);
    PendienteEn(t, inc, c, a);
    AnotarLista(t[c], inc, vivos, a.incidente);
    CercaConmigo(t, Zona(t, inc.posicion, a.incidente), c, a);
  }

  /** A fresh "pendiente" brings the table to the one recomputed with the incident alive. */
  lemma PendienteConserva(t: Tabla, vivos: map<int, Posicion>, inc: Incidente, a: Areas)
    requires a.lindante >= 0.0 && Bien(t, vivos, a) && inc.id !in vivos
    ensures Bien(TrasPendiente(t, inc, a), vivos[inc.id := inc.posicion], a)
  {
    var t' := TrasPendiente(t, inc, a);
    forall c | c in t' ensures CamaraBien(t', vivos[inc.id := inc.posicion], c, a) {
      assert CamaraBien(t, vivos, c, a);
      PendienteConservaEn(t, vivos, inc, c, a);
    }
  }

  // ----- cancelado -----

  /** The cameras that a live incident reaches; none for one that is not alive. */
  function ZonaDe(t: Tabla, vivos: map<int, Posicion>, id: int, a: Areas): set<nat> {
    if id in vivos then Zona(t, vivos[id], a.incidente) else {}
  }

  /** When a "cancelado" does what it should: its position covers every camera that the incident
      reaches, and any further camera that it covers has no neighbour. */
  ghost predicate CancelaBien(t: Tabla, vivos: map<int, Posicion>, inc: Incidente, a: Areas) {
    var Z, Z' := ZonaDe(t, vivos, inc.id, a), Zona(t, inc.posicion, a.incidente);
    && Z <= Z'
    && forall r, c :: r in Z' - Z && c in t && c != r ==> !t[c].posicion.EnRango(t[r].posicion, a.lindante)
  }

  lemma CanceladoEn(t: Tabla, inc: Incidente, c: nat, a: Areas)
    requires c in t
    ensures MismosLugares(t, TrasCancelado(t, inc, a))
    ensures TrasCancelado(t, inc, a)[c]
         == Restar(Desanotar(t[c], inc, a.incidente), |Cercanas(t, Zona(t, inc.posicion, a.incidente), c, a.lindante)|)
  {
    LugaresBastan(t, TrasDesanotar(t, inc, a), map[], c, Zona(t, inc.posicion, a.incidente), a);
  }

  lemma DesanotarLista(c: Foto, inc: Incidente, area: real)
    requires SinRepetidos(c.incidentes)
    ensures var c' := Desanotar(c, inc, area);
      && SinRepetidos(c'.incidentes) && c'.posicion == c.posicion
      && (forall i :: i in c'.incidentes <==> i in c.incidentes && !(i == inc.id && c.posicion.EnRango(inc.posicion, area)))
      && c'.numlindantes == c.numlindantes + (if c.posicion.EnRango(inc.posicion, area) then 1 else 0)
      && (c.incidentes == [] ==> c'.incidentes == [])
      && (!c.posicion.EnRango(inc.posicion, area) ==> c' == c)
      && (c'.estado != c.estado ==> c'.numlindantes == 0)
  {
    QuitarPrimeroQuita(c.incidentes, inc.id);
  }

  lemma ParesTrasCancelar(t: Tabla, vivos: map<int, Posicion>, id: int, c: nat, a: Areas)
    requires c in t
    ensures |Pares(t, vivos - {id}, c, a)| == |Pares(t, vivos, c, a)| - |Cerca(t, ZonaDe(t, vivos, id, a), c, a)|
  {
    if id in vivos {
      ParesSinUno(t, vivos, id, c, a);
    } else {
      assert vivos - {id} == vivos;
      assert Cerca(t, {}, c, a) == {};
    }
  }

  /** The counters after a "cancelado", and the counters wanted. */
  lemma CanceladoCuenta(t: Tabla, vivos: map<int, Posicion>, inc: Incidente, c: nat, a: Areas)
    requires a.lindante >= 0.0 && c in t && SinRepetidos(t[c].incidentes)
    requires t[c].numlindantes == |Pares(t, vivos, c, a)|
    ensures c in TrasCancelado(t, inc, a)
    ensures TrasCancelado(t, inc, a)[c].numlindantes
         == t[c].numlindantes - |Cerca(t, Zona(t, inc.posicion, a.incidente), c, a)|
    ensures |Pares(TrasCancelado(t, inc, a), vivos - {inc.id}, c, a)|
         == t[c].numlindantes - |Cerca(t, ZonaDe(t, vivos, inc.id, a), c, a)|
  {
    CanceladoEn(t, inc, c, a);
    DesanotarLista(t[c], inc, a.incidente);
    CercaConmigo(t, Zona(t, inc.posicion, a.incidente), c, a);
    ParesTrasCancelar(t, vivos, inc.id, c, a);
    LugaresBastan(t, TrasCancelado(t, inc, a), vivos - {inc.id}, c, {}, a);
  }

  lemma CanceladoLista(t: Tabla, vivos: map<int, Posicion>, inc: Incidente, c: nat, a: Areas)
    requires c in t && CamaraBien(t, vivos, c, a)
    ensures var t' := TrasCancelado(t, inc, a);
      && c in t' && SinRepetidos(t'[c].incidentes)
      && ((c in ZonaDe(t, vivos, inc.id, a) ==> c in Zona(t, inc.posicion, a.incidente))
          <==> forall i :: i in t'[c].incidentes <==> i in Alcanzados(vivos - {inc.id}, t'[c].posicion, a.incidente))
  {
    var t' := TrasCancelado(t, inc, a);
    CanceladoEn(t, inc, c, a);
    DesanotarLista(t[c], inc, a.incidente);
    assert t'[c].posicion == t[c].posicion;
    assert forall i :: i in Alcanzados(vivos - {inc.id}, t[c].posicion, a.incidente)
                   <==> i != inc.id && i in t[c].incidentes;
    if c in ZonaDe(t, vivos, inc.id, a) && c !in Zona(t, inc.posicion, a.incidente) {
      assert inc.id in Alcanzados(vivos, t[c].posicion, a.incidente);
      assert inc.id in t'[c].incidentes;
    }
  }

  lemma CanceladoConservaEn(t: Tabla, vivos: map<int, Posicion>, inc: Incidente, c: nat, a: Areas)
    requires a.lindante >= 0.0 && c in t && CamaraBien(t, vivos, c, a)
    requires var Z, Z' := ZonaDe(t, vivos, inc.id, a), Zona(t, inc.posicion, a.incidente);
      (c in Z ==> c in Z') && Cerca(t, Z, c, a) == Cerca(t, Z', c, a)
    ensures c in TrasCancelado(t, inc, a) && CamaraBien(TrasCancelado(t, inc, a), vivos - {inc.id}, c, a)
  {
    CanceladoLista(t, vivos, inc, c, a);
    CanceladoCuenta(t, vivos, inc, c, a);
    CanceladoEn(t, inc, c, a);
    DesanotarLista(t[c], inc, a.incidente);
    CercaConmigo(t, Zona(t, inc.posicion, a.incidente), c, a);
  }

  lemma CanceladoConserva(t: Tabla, vivos: map<int, Posicion>, inc: Incidente, a: Areas)
    requires a.lindante >= 0.0 && Bien(t, vivos, a) && CancelaBien(t, vivos, inc, a)
    ensures Bien(TrasCancelado(t, inc, a), vivos - {inc.id}, a)
  {
    var t' := TrasCancelado(t, inc, a);
    var Z, Z' := ZonaDe(t, vivos, inc.id, a), Zona(t, inc.posicion, a.incidente);
    forall c | c in t' ensures CamaraBien(t', vivos - {inc.id}, c, a) {
      assert CamaraBien(t, vivos, c, a);
      CercaIguales(t, Z, Z', c, a);
      CanceladoConservaEn(t, vivos, inc, c, a);
    }
  }

  lemma CercaIguales(t: Tabla, z: set<nat>, z': set<nat>, c: nat, a: Areas)
    requires c in t && z <= z'
    requires forall r :: r in z' - z && c != r ==> r in t && !t[c].posicion.EnRango(t[r].posicion, a.lindante)
    ensures Cerca(t, z, c, a) == Cerca(t, z', c, a)
  {
  }

  /** A "cancelado" brings the table to the one recomputed without the incident exactly when its
      position suits: in particular whenever it repeats the position of the "pendiente". */
  lemma CanceladoExacto(t: Tabla, vivos: map<int, Posicion>, inc: Incidente, a: Areas)
    requires a.lindante >= 0.0 && Bien(t, vivos, a)
    ensures Bien(TrasCancelado(t, inc, a), vivos - {inc.id}, a) <==> CancelaBien(t, vivos, inc, a)
  {
    if CancelaBien(t, vivos, inc, a) {
      CanceladoConserva(t, vivos, inc, a);
    }
    if Bien(TrasCancelado(t, inc, a), vivos - {inc.id}, a) {
      CanceladoObliga(t, vivos, inc, a);
    }
  }

  lemma CanceladoObliga(t: Tabla, vivos: map<int, Posicion>, inc: Incidente, a: Areas)
    requires a.lindante >= 0.0 && Bien(t, vivos, a)
    requires Bien(TrasCancelado(t, inc, a), vivos - {inc.id}, a)
    ensures CancelaBien(t, vivos, inc, a)
  {
    var t' := TrasCancelado(t, inc, a);
    var Z, Z' := ZonaDe(t, vivos, inc.id, a), Zona(t, inc.posicion, a.incidente);
    forall c | c in Z ensures c in Z' {
      assert CamaraBien(t, vivos, c, a);
      CanceladoEn(t, inc, c, a);
      assert CamaraBien(t', vivos - {inc.id}, c, a);
      CanceladoLista(t, vivos, inc, c, a);
    }
    forall r, c | r in Z' - Z && c in t && c != r
      ensures !t[c].posicion.EnRango(t[r].posicion, a.lindante)
    {
      CanceladoEn(t, inc, c, a);
      assert CamaraBien(t, vivos, c, a) && CamaraBien(t', vivos - {inc.id}, c, a);
      CanceladoCuenta(t, vivos, inc, c, a);
      ContenidosIguales(Cerca(t, Z, c, a), Cerca(t, Z', c, a));
      assert r !in Cerca(t, Z, c, a);
    }
  }

  lemma ContenidosIguales(s: set<nat>, s': set<nat>)
    requires s <= s' && |s| == |s'|
    ensures s == s'
  {
    assert s' == s + (s' - s);
  }

  /** The position of the "pendiente" always suits. */
  lemma MismaPosicionCancelaBien(t: Tabla, vivos: map<int, Posicion>, inc: Incidente, a: Areas)
    requires inc.id in vivos && vivos[inc.id] == inc.posicion
    ensures CancelaBien(t, vivos, inc, a)
  {
  }

  // ----- nueva_camara -----

  function TrasAlta(t: Tabla, k: nat, p: Posicion): Tabla {
    t[k := Foto(p, AhorroDeEnergia, [], 0)]
  }

  /** The place is out of reach of the live incidents, directly and through a neighbour. */
  ghost predicate AltaBien(t: Tabla, vivos: map<int, Posicion>, p: Posicion, a: Areas) {
    && Alcanzados(vivos, p, a.incidente) == {}
    && forall r :: r in t && p.EnRango(t[r].posicion, a.lindante) ==> t[r].incidentes == []
  }

  lemma ParesTrasAlta(t: Tabla, vivos: map<int, Posicion>, k: nat, p: Posicion, c: nat, a: Areas)
    requires c in t && k !in t && Alcanzados(vivos, p, a.incidente) == {}
    ensures Pares(TrasAlta(t, k, p), vivos, c, a) == Pares(t, vivos, c, a)
  {
    var t' := TrasAlta(t, k, p);
    forall r: nat, i: int ensures (r, i) in Pares(t', vivos, c, a) <==> (r, i) in Pares(t, vivos, c, a) {
      assert r != k && r in t ==> t'[r] == t[r];
    }
  }

  lemma ListaVacia(t: Tabla, vivos: map<int, Posicion>, c: nat, a: Areas)
    requires c in t && CamaraBien(t, vivos, c, a)
    ensures Alcanzados(vivos, t[c].posicion, a.incidente) == {} <==> t[c].incidentes == []
  {
    if t[c].incidentes == [] {
      assert forall i :: i !in Alcanzados(vivos, t[c].posicion, a.incidente);
    } else {
      var i := t[c].incidentes[0];
      assert i in t[c].incidentes;
    }
  }

  lemma NadaEnVecinas(t: Tabla, vivos: map<int, Posicion>, k: nat, p: Posicion, a: Areas)
    requires Bien(t, vivos, a) && k !in t && AltaBien(t, vivos, p, a)
    ensures Pares(TrasAlta(t, k, p), vivos, k, a) == {}
  {
    var t' := TrasAlta(t, k, p);
    forall r | r in Vecinas(t', k, a) ensures Alcanzados(vivos, t'[r].posicion, a.incidente) == {} {
      assert CamaraBien(t, vivos, r, a);
      ListaVacia(t, vivos, r, a);
    }
  }

  lemma AltaConserva(t: Tabla, vivos: map<int, Posicion>, k: nat, p: Posicion, a: Areas)
    requires Bien(t, vivos, a) && k !in t && AltaBien(t, vivos, p, a)
    ensures Bien(TrasAlta(t, k, p), vivos, a)
  {
    var t' := TrasAlta(t, k, p);
    forall c | c in t' ensures CamaraBien(t', vivos, c, a) {
      if c == k {
        NadaEnVecinas(t, vivos, k, p, a);
      } else {
        assert CamaraBien(t, vivos, c, a);
        ParesTrasAlta(t, vivos, k, p, c, a);
      }
    }
  }

  lemma AltaObliga(t: Tabla, vivos: map<int, Posicion>, k: nat, p: Posicion, r: nat, a: Areas)
    requires k !in t && r in t && CamaraBien(t, vivos, r, a)
    requires CamaraBien(TrasAlta(t, k, p), vivos, k, a)
    ensures p.EnRango(t[r].posicion, a.lindante) ==> t[r].incidentes == []
  {
    var t' := TrasAlta(t, k, p);
    assert Pares(t', vivos, k, a) == {};
    if p.EnRango(t[r].posicion, a.lindante) {
      assert r in Vecinas(t', k, a);
      forall i ensures i !in Alcanzados(vivos, t[r].posicion, a.incidente) {
        assert (r, i) !in Pares(t', vivos, k, a);
      }
      ListaVacia(t, vivos, r, a);
    }
  }

  /** A new camera starts with nothing to record, which is right exactly when its place is out
      of reach. */
  lemma AltaExacta(t: Tabla, vivos: map<int, Posicion>, k: nat, p: Posicion, a: Areas)
    requires Bien(t, vivos, a) && k !in t
    ensures Bien(TrasAlta(t, k, p), vivos, a) <==> AltaBien(t, vivos, p, a)
  {
    if AltaBien(t, vivos, p, a) {
      AltaConserva(t, vivos, k, p, a);
    }
    if Bien(TrasAlta(t, k, p), vivos, a) {
      assert CamaraBien(TrasAlta(t, k, p), vivos, k, a);
      ListaVacia(TrasAlta(t, k, p), vivos, k, a);
      forall r | r in t ensures p.EnRango(t[r].posicion, a.lindante) ==> t[r].incidentes == [] {
        assert CamaraBien(t, vivos, r, a);
        AltaObliga(t, vivos, k, p, r, a);
      }
    }
  }

  // ----- eliminar_camara -----

  function TrasBaja(t: Tabla, k: nat, area: real): Tabla
    requires k in t
  {
    TrasAvisar(t, t[k].posicion, area, |t[k].incidentes|) - {k}
  }

  /** The area read from the file marks the same neighbours as the running one (or the camera
      holds no incident). */
  ghost predicate BajaBien(t: Tabla, k: nat, area: real, a: Areas)
    requires k in t
  {
    t[k].incidentes == []
    || forall c :: c in t && c != k ==>
         (t[c].posicion.EnRango(t[k].posicion, area) <==> t[c].posicion.EnRango(t[k].posicion, a.lindante))
  }

  function UnoCon(k: nat, s: set<int>): set<(nat, int)> {
    set i | i in s :: (k, i)
  }

  lemma {:induction false} CuantosUnoCon(k: nat, s: seq<int>, e: set<int>)
    requires SinRepetidos(s) && forall i :: i in s <==> i in e
    ensures |UnoCon(k, e)| == |s|
  {
    if s == [] {
      assert forall i :: i in e ==> i in s;
      assert e == {};
      assert UnoCon(k, e) == {};
    } else {
      assert s == [s[0]] + s[1..];
      CuantosUnoCon(k, s[1..], e - {s[0]});
      assert UnoCon(k, e) == UnoCon(k, e - {s[0]}) + {(k, s[0])};
    }
  }

  lemma ParesTrasBaja(t: Tabla, vivos: map<int, Posicion>, k: nat, area: real, c: nat, a: Areas)
    requires k in t && c in t && c != k && CamaraBien(t, vivos, k, a)
    ensures c in TrasBaja(t, k, area)
    ensures |Pares(TrasBaja(t, k, area), vivos, c, a)| == |Pares(t, vivos, c, a)|
         - if t[c].posicion.EnRango(t[k].posicion, a.lindante) then |t[k].incidentes| else 0
  {
    var t' := TrasBaja(t, k, area);
    var P, P' := Pares(t, vivos, c, a), Pares(t', vivos, c, a);
    var N := if t[c].posicion.EnRango(t[k].posicion, a.lindante)
             then UnoCon(k, Alcanzados(vivos, t[k].posicion, a.incidente)) else {};
    CuantosUnoCon(k, t[k].incidentes, Alcanzados(vivos, t[k].posicion, a.incidente));
    assert Vecinas(t', c, a) == Vecinas(t, c, a) - {k};
    forall r: nat, i: int ensures (r, i) in P <==> (r, i) in P' || (r, i) in N {
      assert r in t' ==> t'[r].posicion == t[r].posicion;
    }
    PartesDe(P, P', N);
  }

  lemma PartesDe(p: set<(nat, int)>, p': set<(nat, int)>, n: set<(nat, int)>)
    requires forall r: nat, i: int :: (r, i) in p <==> (r, i) in p' || (r, i) in n
    requires p' !! n
    ensures |p| == |p'| + |n|
  {
    forall x: (nat, int) ensures x in p <==> x in p' + n {
      var r, i := x.0, x.1;
      assert x == (r, i);
      assert (r, i) in p <==> (r, i) in p' || (r, i) in n;
    }
    assert p == p' + n;
  }

  lemma BajaConservaEn(t: Tabla, vivos: map<int, Posicion>, k: nat, area: real, c: nat, a: Areas)
    requires Bien(t, vivos, a) && k in t && c in t && c != k && BajaBien(t, k, area, a)
    ensures c in TrasBaja(t, k, area) && CamaraBien(TrasBaja(t, k, area), vivos, c, a)
  {
    assert CamaraBien(t, vivos, c, a) && CamaraBien(t, vivos, k, a);
    ParesTrasBaja(t, vivos, k, area, c, a);
    assert TrasBaja(t, k, area)[c] == RestarSiCerca(t[c], t[k].posicion, area, |t[k].incidentes|);
  }

  /** Removing a camera, whatever its neighbours are doing, takes away exactly its share. */
  lemma BajaExacta(t: Tabla, vivos: map<int, Posicion>, k: nat, area: real, a: Areas)
    requires Bien(t, vivos, a) && k in t
    ensures Bien(TrasBaja(t, k, area), vivos, a) <==> BajaBien(t, k, area, a)
  {
    var t' := TrasBaja(t, k, area);
    if BajaBien(t, k, area, a) {
      forall c | c in t' ensures CamaraBien(t', vivos, c, a) {
        BajaConservaEn(t, vivos, k, area, c, a);
      }
    }
    if Bien(t', vivos, a) && t[k].incidentes != [] {
      forall c | c in t && c != k
        ensures t[c].posicion.EnRango(t[k].posicion, area) <==> t[c].posicion.EnRango(t[k].posicion, a.lindante)
      {
        assert CamaraBien(t, vivos, c, a) && CamaraBien(t, vivos, k, a);
        ParesTrasBaja(t, vivos, k, area, c, a);
        assert CamaraBien(t', vivos, c, a);
        assert t'[c] == RestarSiCerca(t[c], t[k].posicion, area, |t[k].incidentes|);
      }
    }
  }

  // ----- states -----

  /** A "pendiente" only wakes cameras. */
  lemma PendienteNoDuerme(t: Tabla, inc: Incidente, a: Areas)
    ensures Duermen(t, TrasPendiente(t, inc, a)) == {}
  {
    forall c | c in t ensures c !in Duermen(t, TrasPendiente(t, inc, a)) {
      PendienteEn(t, inc, c, a);
    }
  }

  lemma BajanCancelado(t: Tabla, inc: Incidente, k: nat, a: Areas)
    requires k in t && k in TrasCancelado(t, inc, a)
    ensures TrasCancelado(t, inc, a)[k].estado == if k in BajanAlCancelar(t, inc, a) then AhorroDeEnergia else t[k].estado
  {
  }
}
