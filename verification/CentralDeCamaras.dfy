/** The camera central as it runs: hash maps walked in an arbitrary order, cameras changed one
    at a time, a message published at each change of state. */
module CentralDeCamaras {
  import opened Wrappers
  import opened Camaras
  import opened CentralSpec

  datatype Error = ErrorAlProcesarIncidente | NoSePudoBorrarLaCamara

  // ----- bookkeeping of what has been published -----

  lemma SinRepetirJuntos(av: seq<Aviso>, av': seq<Aviso>)
    requires forall i, j :: 0 <= i < j < |av| ==> av[i] != av[j]
    requires forall i, j :: 0 <= i < j < |av'| ==> av'[i] != av'[j]
    requires forall x, y :: x in av && y in av' ==> x != y
    ensures forall i, j :: 0 <= i < j < |av + av'| ==> (av + av')[i] != (av + av')[j]
  {
    forall i, j | 0 <= i < j < |av + av'| ensures (av + av')[i] != (av + av')[j] {
      if i < |av| <= j {
        assert av[i] in av && av'[j - |av|] in av';
      }
    }
  }

  lemma PublicaJuntos(t: Tabla, t': Tabla, s: set<nat>, s': set<nat>, e: EstadoAviso, av: seq<Aviso>, av': seq<Aviso>)
    requires MismosLugares(t, t') && s !! s'
    requires Publica(av, AvisosDe(t, s, e)) && Publica(av', AvisosDe(t', s', e))
    ensures Publica(av + av', AvisosDe(t, s + s', e))
  {
    var A, B := AvisosDe(t, s, e), AvisosDe(t', s', e);
    assert AvisosDe(t, s + s', e) == A + B by {
      forall x ensures x in AvisosDe(t, s + s', e) <==> x in A + B {
        if x in A + B {
          var k :| k in s + s' && k in t && x == AvisoDe(t[k], k, e);
        }
      }
    }
    forall x, y | x in av && y in av' ensures x != y {
      assert x in A && y in B;
    }
    SinRepetirJuntos(av, av');
  }

  lemma PublicaUno(t: Tabla, k: nat, e: EstadoAviso)
    requires k in t
    ensures Publica([AvisoDe(t[k], k, e)], AvisosDe(t, {k}, e))
    ensures Publica([], AvisosDe(t, {}, e))
  {
    assert AvisosDe(t, {k}, e) == {AvisoDe(t[k], k, e)} by {
      assert k in {k};
    }
    assert AvisosDe(t, {}, e) == {};
  }

  lemma PublicaUnaMas(t: Tabla, s: set<nat>, hechas: set<nat>, k: nat, e: EstadoAviso, av: seq<Aviso>, nuevos: seq<Aviso>)
    requires k in t && k !in hechas
    requires Publica(av, AvisosDe(t, s * hechas, e))
    requires nuevos == if k in s then [AvisoDe(t[k], k, e)] else []
    ensures Publica(av + nuevos, AvisosDe(t, s * (hechas + {k}), e))
  {
    PublicaUno(t, k, e);
    var mas := if k in s then {k} else {};
    PublicaJuntos(t, t, s * hechas, mas, e, av, nuevos);
    assert s * hechas + mas == s * (hechas + {k});
  }

  lemma PublicaUnaMasNada(t: Tabla, s: set<nat>, e: EstadoAviso)
    ensures Publica([], AvisosDe(t, s * {}, e))
  {
    assert AvisosDe(t, s * {}, e) == {};
  }

  /** `t` with the cameras of `hechas` already as in `t'`. */
  ghost function AMedias(t: Tabla, t': Tabla, hechas: set<nat>): Tabla {
    map k | k in t :: if k in hechas && k in t' then t'[k] else t[k]
  }

  lemma AMediasUnaMas(t: Tabla, t': Tabla, hechas: set<nat>, k: nat)
    requires t.Keys == t'.Keys && k in t && k !in hechas
    ensures AMedias(t, t', hechas + {k}) == AMedias(t, t', hechas)[k := t'[k]]
    ensures AMedias(t, t', hechas)[k] == t[k]
  {
  }

  /** A walk over the cameras is under way: those of `hechas` are as in `t'`, and the messages
      "e" so far are those of the cameras of `s` walked already. */
  ghost predicate EnCurso(t: Tabla, t': Tabla, s: set<nat>, e: EstadoAviso, hechas: set<nat>, ahora: Tabla, av: seq<Aviso>) {
    && t.Keys == t'.Keys && hechas <= t.Keys
    && ahora == AMedias(t, t', hechas)
    && Publica(av, AvisosDe(t, s * hechas, e))
  }

  lemma EnCursoUnaMas(t: Tabla, t': Tabla, s: set<nat>, e: EstadoAviso, hechas: set<nat>, ahora: Tabla, av: seq<Aviso>,
                      k: nat, nuevos: seq<Aviso>)
    requires EnCurso(t, t', s, e, hechas, ahora, av)
    requires k in t && k !in hechas
    requires nuevos == if k in s then [AvisoDe(t[k], k, e)] else []
    ensures ahora.Keys == t.Keys && ahora[k] == t[k]
    ensures EnCurso(t, t', s, e, hechas + {k}, ahora[k := t'[k]], av + nuevos)
  {
    AMediasUnaMas(t, t', hechas, k);
    PublicaUnaMas(t, s, hechas, k, e, av, nuevos);
  }

  lemma EnCursoEmpieza(t: Tabla, t': Tabla, s: set<nat>, e: EstadoAviso)
    requires t.Keys == t'.Keys
    ensures EnCurso(t, t', s, e, {}, t, [])
  {
    AMediasExtremos(t, t');
    PublicaUnaMasNada(t, s, e);
  }

  lemma EnCursoTermina(t: Tabla, t': Tabla, s: set<nat>, e: EstadoAviso, ahora: Tabla, av: seq<Aviso>)
    requires EnCurso(t, t', s, e, t.Keys, ahora, av) && s <= t.Keys
    ensures ahora == t' && Publica(av, AvisosDe(t, s, e))
  {
    AMediasExtremos(t, t');
    assert s * t.Keys == s;
  }

  lemma AMediasExtremos(t: Tabla, t': Tabla)
    requires t.Keys == t'.Keys
    ensures AMedias(t, t', {}) == t && AMedias(t, t', t.Keys) == t'
  {
  }

  lemma UnaVecinaMas(t: Tabla, s: set<nat>, r: nat, k: nat, area: real)
    requires k in t && r in t && r !in s
    ensures |Cercanas(t, s + {r}, k, area)|
         == |Cercanas(t, s, k, area)| + if t[k].posicion.EnRango(t[r].posicion, area) then 1 else 0
  {
    if t[k].posicion.EnRango(t[r].posicion, area) {
      assert Cercanas(t, s + {r}, k, area) == Cercanas(t, s, k, area) + {r};
    } else {
      assert Cercanas(t, s + {r}, k, area) == Cercanas(t, s, k, area);
    }
  }

  /** One more camera of the zone has told its neighbours. */
  ghost function SumarCerca(t: Tabla, p: Posicion, area: real): Tabla {
    map k | k in t :: SumarSiCerca(t[k], p, area)
  }

  ghost function SumarSiCerca(c: Foto, p: Posicion, area: real): Foto {
    if c.posicion.EnRango(p, area) then Sumar(c, 1) else c
  }

  lemma SumarUnaMas(t: Tabla, s: set<nat>, r: nat, a: Areas)
    requires r in t && r !in s
    ensures SumarCerca(TrasSumar(t, s, a), t[r].posicion, a.lindante) == TrasSumar(t, s + {r}, a)
  {
    var t1 := TrasSumar(t, s, a);
    forall k | k in t
      ensures SumarCerca(t1, t[r].posicion, a.lindante)[k] == TrasSumar(t, s + {r}, a)[k]
    {
      var n := |Cercanas(t, s, k, a.lindante)|;
      UnaVecinaMas(t, s, r, k, a.lindante);
      assert t1[k] == Sumar(t[k], n);
      assert Sumar(t1[k], 1) == Sumar(t[k], n + 1);
    }
    MapasIguales(SumarCerca(t1, t[r].posicion, a.lindante), TrasSumar(t, s + {r}, a));
  }

  lemma MapasIguales(m: Tabla, m': Tabla)
    requires m.Keys == m'.Keys && forall k :: k in m ==> m[k] == m'[k]
    ensures m == m'
  {
  }

  /** Discounting `n` times and once more is discounting `n + 1` times, and a camera falls to
      saving energy on at most one of those calls. */
  lemma RestarYRestar(c: Foto, n: nat)
    ensures Restar(Restar(c, n), 1) == Restar(c, n + 1)
    ensures BajaAlRestar(c, n + 1) <==> BajaAlRestar(c, n) || BajaAlRestar(Restar(c, n), 1)
    ensures !(BajaAlRestar(c, n) && BajaAlRestar(Restar(c, n), 1))
  {
  }

  /** Cameras that the first loop for a "cancelado" sends an "ahorro" for. */
  ghost function BajanAlDesanotar(t: Tabla, inc: Incidente, a: Areas): set<nat> {
    set k | k in t && BajaAlDesanotar(t[k], inc, a.incidente)
  }

  /** Cameras that have sent an "ahorro" once the cameras of `s` have told their neighbours. */
  ghost function BajasAlRestar(t: Tabla, s: set<nat>, a: Areas): set<nat> {
    set k | k in t && BajaAlRestar(t[k], |Cercanas(t, s, k, a.lindante)|)
  }

  lemma RestarUnaMasEn(t: Tabla, s: set<nat>, r: nat, k: nat, a: Areas)
    requires r in t && r !in s && k in t
    ensures var t1 := TrasRestar(t, s, a);
      && TrasAvisar(t1, t[r].posicion, a.lindante, 1)[k] == TrasRestar(t, s + {r}, a)[k]
      && (k in BajasAlRestar(t, s + {r}, a)
          <==> k in BajasAlRestar(t, s, a) || k in BajanAlAvisar(t1, t[r].posicion, a.lindante, 1))
      && !(k in BajasAlRestar(t, s, a) && k in BajanAlAvisar(t1, t[r].posicion, a.lindante, 1))
  {
    var t1 := TrasRestar(t, s, a);
    var n := |Cercanas(t, s, k, a.lindante)|;
    assert t1[k] == Restar(t[k], n);
    UnaVecinaMas(t, s, r, k, a.lindante);
    RestarYRestar(t[k], n);
  }

  lemma RestarUnaMas(t: Tabla, s: set<nat>, r: nat, a: Areas)
    requires r in t && r !in s
    ensures var t1 := TrasRestar(t, s, a);
      && TrasAvisar(t1, t[r].posicion, a.lindante, 1) == TrasRestar(t, s + {r}, a)
      && BajasAlRestar(t, s, a) !! BajanAlAvisar(t1, t[r].posicion, a.lindante, 1)
      && BajasAlRestar(t, s + {r}, a)
         == BajasAlRestar(t, s, a) + BajanAlAvisar(t1, t[r].posicion, a.lindante, 1)
  {
    var t1 := TrasRestar(t, s, a);
    var A, A', B := BajasAlRestar(t, s, a), BajasAlRestar(t, s + {r}, a), BajanAlAvisar(t1, t[r].posicion, a.lindante, 1);
    forall k | k in t
      ensures TrasAvisar(t1, t[r].posicion, a.lindante, 1)[k] == TrasRestar(t, s + {r}, a)[k]
      ensures k in A' <==> k in A || k in B
      ensures !(k in A && k in B)
    {
      RestarUnaMasEn(t, s, r, k, a);
    }
    MapasIguales(TrasAvisar(t1, t[r].posicion, a.lindante, 1), TrasRestar(t, s + {r}, a));
    ConjuntosPartidos(t.Keys, A', A, B);
  }

  lemma ConjuntosPartidos(u: set<nat>, c: set<nat>, a: set<nat>, b: set<nat>)
    requires a <= u && b <= u && c <= u
    requires forall k :: k in u ==> (k in c <==> k in a || k in b) && !(k in a && k in b)
    ensures c == a + b && a !! b
  {
  }

  lemma AvisarUnaMas(t: Tabla, p: Posicion, area: real, n: nat)
    ensures TrasAvisar(TrasAvisar(t, p, area, n), p, area, 1) == TrasAvisar(t, p, area, n + 1)
    ensures BajanAlAvisar(t, p, area, n) !! BajanAlAvisar(TrasAvisar(t, p, area, n), p, area, 1)
    ensures BajanAlAvisar(t, p, area, n + 1)
         == BajanAlAvisar(t, p, area, n) + BajanAlAvisar(TrasAvisar(t, p, area, n), p, area, 1)
  {
  }

  lemma UnaMenos(todas: set<nat>, resto: set<nat>, hechas: set<nat>, k: nat, z: set<nat>)
    requires resto !! hechas && resto + hechas == todas && k in resto
    ensures resto - {k} !! hechas + {k} && (resto - {k}) + (hechas + {k}) == todas
    ensures z * (hechas + {k}) == if k in z then z * hechas + {k} else z * hechas
  {
  }

  lemma Asocia(a: seq<Aviso>, b: seq<Aviso>, c: seq<Aviso>)
    ensures a + b + c == a + (b + c)
  {
  }

  lemma SumarNinguna(t: Tabla, a: Areas)
    ensures TrasSumar(t, {}, a) == t
  {
    forall k | k in t ensures TrasSumar(t, {}, a)[k] == t[k] {
      assert Cercanas(t, {}, k, a.lindante) == {};
    }
  }

  lemma RestarNinguna(t: Tabla, a: Areas)
    ensures TrasRestar(t, {}, a) == t && BajasAlRestar(t, {}, a) == {}
  {
    forall k | k in t ensures TrasRestar(t, {}, a)[k] == t[k] && k !in BajasAlRestar(t, {}, a) {
      assert Cercanas(t, {}, k, a.lindante) == {};
    }
  }

  lemma AvisarCero(t: Tabla, p: Posicion, area: real)
    ensures TrasAvisar(t, p, area, 0) == t
    ensures Publica([], AvisosDe(t, BajanAlAvisar(t, p, area, 0), Ahorro))
  {
    assert BajanAlAvisar(t, p, area, 0) == {};
    assert AvisosDe(t, {}, Ahorro) == {};
  }

  /** Nobody goes back to sleep during a "pendiente", so the two loops wake disjoint sets. */
  lemma DespiertanJuntas(t0: Tabla, t1: Tabla, t2: Tabla, av: seq<Aviso>, nuevos: seq<Aviso>)
    requires MismosLugares(t0, t1) && MismosLugares(t1, t2)
    requires Duermen(t0, t1) == {} && Duermen(t1, t2) == {}
    requires Publica(av, AvisosDe(t0, Despiertan(t0, t1), Graba))
    requires Publica(nuevos, AvisosDe(t1, Despiertan(t1, t2), Graba))
    ensures Publica(av + nuevos, AvisosDe(t0, Despiertan(t0, t2), Graba))
    ensures Duermen(t0, t2) == {}
  {
    forall k | k in t0
      ensures k in Despiertan(t0, t2) <==> k in Despiertan(t0, t1) || k in Despiertan(t1, t2)
      ensures !(k in Despiertan(t0, t1) && k in Despiertan(t1, t2))
      ensures k !in Duermen(t0, t2)
    {
      assert k !in Duermen(t0, t1) && k !in Duermen(t1, t2);
    }
    ConjuntosPartidos(t0.Keys, Despiertan(t0, t2), Despiertan(t0, t1), Despiertan(t1, t2));
    PublicaJuntos(t0, t1, Despiertan(t0, t1), Despiertan(t1, t2), Graba, av, nuevos);
  }

  lemma SumarNoDuerme(t: Tabla, p: Posicion, area: real)
    ensures MismosLugares(t, SumarCerca(t, p, area)) && Duermen(t, SumarCerca(t, p, area)) == {}
  {
  }

  lemma AnotarNoDuerme(t: Tabla, inc: Incidente, a: Areas)
    ensures MismosLugares(t, TrasAnotar(t, inc, a)) && Duermen(t, TrasAnotar(t, inc, a)) == {}
  {
  }

  /** The cameras of `s` have told their neighbours to discount. */
  ghost predicate Restando(t: Tabla, s: set<nat>, a: Areas, ahora: Tabla, av: seq<Aviso>) {
    ahora == TrasRestar(t, s, a) && Publica(av, AvisosDe(t, BajasAlRestar(t, s, a), Ahorro))
  }

  lemma RestandoUnaMas(t: Tabla, s: set<nat>, r: nat, a: Areas, antes: Tabla, ahora: Tabla, av: seq<Aviso>, nuevos: seq<Aviso>)
    requires r in t && r !in s && Restando(t, s, a, antes, av)
    requires ahora == TrasAvisar(antes, t[r].posicion, a.lindante, 1)
    requires Publica(nuevos, AvisosDe(antes, BajanAlAvisar(antes, t[r].posicion, a.lindante, 1), Ahorro))
    ensures Restando(t, s + {r}, a, ahora, av + nuevos)
  {
    RestarUnaMas(t, s, r, a);
    PublicaJuntos(t, antes, BajasAlRestar(t, s, a), BajanAlAvisar(antes, t[r].posicion, a.lindante, 1), Ahorro, av, nuevos);
  }

  /** No camera sends "ahorro" in both loops of a "cancelado". */
  lemma BajanPartidas(t: Tabla, inc: Incidente, a: Areas)
    ensures var t1 := TrasDesanotar(t, inc, a);
      var D, R := BajanAlDesanotar(t, inc, a), BajasAlRestar(t1, Zona(t, inc.posicion, a.incidente), a);
      D !! R && D + R == BajanAlCancelar(t, inc, a)
  {
    var t1 := TrasDesanotar(t, inc, a);
    forall k | k in BajanAlDesanotar(t, inc, a)
      ensures k !in BajasAlRestar(t1, Zona(t, inc.posicion, a.incidente), a)
    {
      assert t1[k].numlindantes == 0;
    }
  }

  class Central {
    const areas: Areas
    var camaras: map<nat, Camara>
    var incidentes: set<(int, string)>
    var id: nat
    var publicado: seq<Aviso>
    ghost var objetos: set<Camara>
    ghost var vivos: map<int, Posicion>
    ghost var tabla: Tabla  // the values of the cameras

    constructor (areas: Areas)
      ensures Valida() && this.areas == areas
      ensures Estado() == CentralSpec.Estado(map[], {}, 0, map[]) && publicado == []
    {
      this.areas := areas;
      camaras := map[];
      incidentes := {};
      id := 0;
      publicado := [];
      objetos := {};
      vivos := map[];
      tabla := map[];
    }

    /** Each camera sits under its own identifier, so no camera sits under two keys. */
    ghost predicate Valida()
      reads this, objetos
    {
      && tabla.Keys == camaras.Keys
      && (forall k :: k in camaras ==> camaras[k] in objetos && camaras[k].id == k && k <= id)
      && (forall k :: k in camaras ==> camaras[k].Valor() == tabla[k])
    }

    ghost function Estado(): Estado
      requires Valida()
      reads this, objetos
    {
      CentralSpec.Estado(tabla, incidentes, id, vivos)
    }

    method PublicarCamara(cam: Camara, e: EstadoAviso)
      modifies this`publicado
      ensures publicado == old(publicado) + [AvisoDe(cam.Valor(), cam.id, e)]
    {
      publicado := publicado + [Aviso(cam.posicion, e, cam.id)];
    }

    /** Body of the first loop for a "pendiente", filter included (central_de_camaras.rs:80-105). */
    method AnotarUna(cam: Camara, inc: Incidente) returns (alcanzada: bool)
      modifies this`publicado, cam
      ensures cam.Valor() == Anotar(old(cam.Valor()), inc, areas.incidente)
      ensures alcanzada == cam.posicion.EnRango(inc.posicion, areas.incidente)
      ensures publicado == old(publicado) + if old(cam.estado) != cam.estado then [AvisoDe(cam.Valor(), cam.id, Graba)] else []
    {
      alcanzada := cam.posicion.EnRango(inc.posicion, areas.incidente);
      if alcanzada && !cam.ContieneIncidente(inc.id) {
        cam.AgregarIncidente(inc.id);
        cam.numlindantes := cam.numlindantes - 1;
        if cam.estado == AhorroDeEnergia {
          cam.SetEstadoGrabar();
          PublicarCamara(cam, Graba);
        }
      }
    }

    /** Body of the inner loop for a "pendiente", filter included (central_de_camaras.rs:110-135). */
    method SumarUna(cam: Camara, p: Posicion)
      modifies this`publicado, cam
      ensures cam.Valor() == SumarSiCerca(old(cam.Valor()), p, areas.lindante)
      ensures publicado == old(publicado) + if old(cam.estado) != cam.estado then [AvisoDe(cam.Valor(), cam.id, Graba)] else []
    {
      if cam.posicion.EnRango(p, areas.lindante) {
        cam.numlindantes := cam.numlindantes + 1;
        if cam.estado == AhorroDeEnergia {
          cam.SetEstadoGrabar();
          PublicarCamara(cam, Graba);
        }
      }
    }

    /** Body of the first loop for a "cancelado", filter included (central_de_camaras.rs:80-83, 140-157). */
    method DesanotarUna(cam: Camara, inc: Incidente) returns (alcanzada: bool)
      modifies this`publicado, cam
      ensures cam.Valor() == Desanotar(old(cam.Valor()), inc, areas.incidente)
      ensures alcanzada == cam.posicion.EnRango(inc.posicion, areas.incidente)
      ensures publicado == old(publicado) +
        if BajaAlDesanotar(old(cam.Valor()), inc, areas.incidente) then [AvisoDe(cam.Valor(), cam.id, Ahorro)] else []
    {
      alcanzada := cam.posicion.EnRango(inc.posicion, areas.incidente);
      if alcanzada {
        cam.numlindantes := cam.numlindantes + 1;
        if cam.ContieneIncidente(inc.id) {
          cam.QuitarIncidente(inc.id);
          if cam.CantidadIncidentes() == 0 && cam.numlindantes == 0 {
            cam.SetEstadoAhorroDeEnergia();
            PublicarCamara(cam, Ahorro);
          }
        }
      }
    }

    /** Body of the loop that discounts, filter included (central_de_camaras.rs:190-205). */
    method RestarUna(cam: Camara, p: Posicion, area: real)
      modifies this`publicado, cam
      ensures cam.Valor() == RestarSiCerca(old(cam.Valor()), p, area, 1)
      ensures publicado == old(publicado) +
        if cam.posicion.EnRango(p, area) && BajaAlRestar(old(cam.Valor()), 1) then [AvisoDe(cam.Valor(), cam.id, Ahorro)] else []
    {
      if cam.posicion.EnRango(p, area) {
        cam.numlindantes := cam.numlindantes - 1;
        if cam.CantidadIncidentes() == 0 && cam.numlindantes == 0 {
          cam.SetEstadoAhorroDeEnergia();
          PublicarCamara(cam, Ahorro);
        }
      }
    }

    /** Records in `tabla` that the camera under `k` has changed. */
    ghost method Anotado(k: nat)
      requires k in camaras && tabla.Keys == camaras.Keys
      requires forall j :: j in camaras ==> camaras[j] in objetos && camaras[j].id == j && j <= id
      requires forall j :: j in camaras && j != k ==> camaras[j].Valor() == tabla[j]
      modifies this`tabla
      ensures Valida() && tabla == old(tabla)[k := camaras[k].Valor()]
    {
      tabla := tabla[k := camaras[k].Valor()];
    }

    method AnotarEn(k: nat, inc: Incidente) returns (alcanzada: bool)
      requires Valida() && k in camaras
      modifies this`publicado, this`tabla, camaras[k]
      ensures Valida() && tabla == old(tabla)[k := Anotar(old(tabla)[k], inc, areas.incidente)]
      ensures alcanzada == old(tabla)[k].posicion.EnRango(inc.posicion, areas.incidente)
      ensures publicado == old(publicado) + if old(tabla)[k].estado != tabla[k].estado then [AvisoDe(old(tabla)[k], k, Graba)] else []
    {
      alcanzada := AnotarUna(camaras[k], inc);
      Anotado(k);
    }

    method SumarEn(k: nat, p: Posicion)
      requires Valida() && k in camaras
      modifies this`publicado, this`tabla, camaras[k]
      ensures Valida() && tabla == old(tabla)[k := SumarSiCerca(old(tabla)[k], p, areas.lindante)]
      ensures publicado == old(publicado) + if old(tabla)[k].estado != tabla[k].estado then [AvisoDe(old(tabla)[k], k, Graba)] else []
    {
      SumarUna(camaras[k], p);
      Anotado(k);
    }

    method DesanotarEn(k: nat, inc: Incidente) returns (alcanzada: bool)
      requires Valida() && k in camaras
      modifies this`publicado, this`tabla, camaras[k]
      ensures Valida() && tabla == old(tabla)[k := Desanotar(old(tabla)[k], inc, areas.incidente)]
      ensures alcanzada == old(tabla)[k].posicion.EnRango(inc.posicion, areas.incidente)
      ensures publicado == old(publicado) +
        if BajaAlDesanotar(old(tabla)[k], inc, areas.incidente) then [AvisoDe(old(tabla)[k], k, Ahorro)] else []
    {
      alcanzada := DesanotarUna(camaras[k], inc);
      Anotado(k);
    }

    method RestarEn(k: nat, p: Posicion, area: real)
      requires Valida() && k in camaras
      modifies this`publicado, this`tabla, camaras[k]
      ensures Valida() && tabla == old(tabla)[k := RestarSiCerca(old(tabla)[k], p, area, 1)]
      ensures publicado == old(publicado) +
        if old(tabla)[k].posicion.EnRango(p, area) && BajaAlRestar(old(tabla)[k], 1) then [AvisoDe(old(tabla)[k], k, Ahorro)] else []
    {
      RestarUna(camaras[k], p, area);
      Anotado(k);
    }

    /** First loop for a "pendiente": which cameras the incident reaches, whatever the order. */
    method AnotarTodas(inc: Incidente) returns (zona: set<nat>, ghost av: seq<Aviso>)
      requires Valida()
      modifies this`publicado, this`tabla, objetos
      ensures Valida() && zona == Zona(old(tabla), inc.posicion, areas.incidente)
      ensures tabla == TrasAnotar(old(tabla), inc, areas)
      ensures publicado == old(publicado) + av
      ensures Publica(av, AvisosDe(old(tabla), Despiertan(old(tabla), tabla), Graba))
    {
      ghost var t0 := tabla;
      ghost var t1 := TrasAnotar(t0, inc, areas);
      ghost var D := Despiertan(t0, t1);
      ghost var Z := Zona(t0, inc.posicion, areas.incidente);
      av := [];
      zona := {};
      var resto := camaras.Keys;
      ghost var hechas := {};
      EnCursoEmpieza(t0, t1, D, Graba);
      while resto != {}
        invariant Valida() && t0.Keys == camaras.Keys
        invariant resto !! hechas && resto + hechas == t0.Keys
        invariant zona == Z * hechas
        invariant EnCurso(t0, t1, D, Graba, hechas, tabla, av)
        invariant publicado == old(publicado) + av
        decreases resto
      {
        var k :| k in resto;
        ghost var nuevos := if k in D then [AvisoDe(t0[k], k, Graba)] else [];
        EnCursoUnaMas(t0, t1, D, Graba, hechas, tabla, av, k, nuevos);
        UnaMenos(t0.Keys, resto, hechas, k, Z);
        Asocia(old(publicado), av, nuevos);
        var alcanzada := AnotarEn(k, inc);
        if alcanzada {
          zona := zona + {k};
        }
        resto, hechas, av := resto - {k}, hechas + {k}, av + nuevos;
      }
      EnCursoTermina(t0, t1, D, Graba, tabla, av);
    }

    /** Inner loop for a "pendiente": every neighbour of `p` counts one incident more. */
    method SumarCercanas(p: Posicion) returns (ghost av: seq<Aviso>)
      requires Valida()
      modifies this`publicado, this`tabla, objetos
      ensures Valida() && tabla == SumarCerca(old(tabla), p, areas.lindante)
      ensures publicado == old(publicado) + av
      ensures Publica(av, AvisosDe(old(tabla), Despiertan(old(tabla), tabla), Graba))
    {
      ghost var t0 := tabla;
      ghost var t1 := SumarCerca(t0, p, areas.lindante);
      ghost var D := Despiertan(t0, t1);
      av := [];
      var resto := camaras.Keys;
      ghost var hechas := {};
      EnCursoEmpieza(t0, t1, D, Graba);
      while resto != {}
        invariant Valida() && t0.Keys == camaras.Keys
        invariant resto !! hechas && resto + hechas == t0.Keys
        invariant EnCurso(t0, t1, D, Graba, hechas, tabla, av)
        invariant publicado == old(publicado) + av
        decreases resto
      {
        var k :| k in resto;
        ghost var nuevos := if k in D then [AvisoDe(t0[k], k, Graba)] else [];
        EnCursoUnaMas(t0, t1, D, Graba, hechas, tabla, av, k, nuevos);
        UnaMenos(t0.Keys, resto, hechas, k, {});
        Asocia(old(publicado), av, nuevos);
        SumarEn(k, p);
        resto, hechas, av := resto - {k}, hechas + {k}, av + nuevos;
      }
      EnCursoTermina(t0, t1, D, Graba, tabla, av);
    }

    /** First loop for a "cancelado". */
    method DesanotarTodas(inc: Incidente) returns (zona: set<nat>, ghost av: seq<Aviso>)
      requires Valida()
      modifies this`publicado, this`tabla, objetos
      ensures Valida() && zona == Zona(old(tabla), inc.posicion, areas.incidente)
      ensures tabla == TrasDesanotar(old(tabla), inc, areas)
      ensures publicado == old(publicado) + av
      ensures Publica(av, AvisosDe(old(tabla), BajanAlDesanotar(old(tabla), inc, areas), Ahorro))
    {
      ghost var t0 := tabla;
      ghost var t1 := TrasDesanotar(t0, inc, areas);
      ghost var D := BajanAlDesanotar(t0, inc, areas);
      ghost var Z := Zona(t0, inc.posicion, areas.incidente);
      av := [];
      zona := {};
      var resto := camaras.Keys;
      ghost var hechas := {};
      EnCursoEmpieza(t0, t1, D, Ahorro);
      while resto != {}
        invariant Valida() && t0.Keys == camaras.Keys
        invariant resto !! hechas && resto + hechas == t0.Keys
        invariant zona == Z * hechas
        invariant EnCurso(t0, t1, D, Ahorro, hechas, tabla, av)
        invariant publicado == old(publicado) + av
        decreases resto
      {
        var k :| k in resto;
        ghost var nuevos := if k in D then [AvisoDe(t0[k], k, Ahorro)] else [];
        EnCursoUnaMas(t0, t1, D, Ahorro, hechas, tabla, av, k, nuevos);
        UnaMenos(t0.Keys, resto, hechas, k, Z);
        Asocia(old(publicado), av, nuevos);
        var alcanzada := DesanotarEn(k, inc);
        if alcanzada {
          zona := zona + {k};
        }
        resto, hechas, av := resto - {k}, hechas + {k}, av + nuevos;
      }
      EnCursoTermina(t0, t1, D, Ahorro, tabla, av);
    }

    /** `avisa_lindantes_incidente_cancelado`: every neighbour of `p` counts one incident less. */
    method AvisaLindantesIncidenteCancelado(p: Posicion, area: real) returns (ghost av: seq<Aviso>)
      requires Valida()
      modifies this`publicado, this`tabla, objetos
      ensures Valida() && tabla == TrasAvisar(old(tabla), p, area, 1)
      ensures publicado == old(publicado) + av
      ensures Publica(av, AvisosDe(old(tabla), BajanAlAvisar(old(tabla), p, area, 1), Ahorro))
    {
      ghost var t0 := tabla;
      ghost var t1 := TrasAvisar(t0, p, area, 1);
      ghost var D := BajanAlAvisar(t0, p, area, 1);
      av := [];
      var resto := camaras.Keys;
      ghost var hechas := {};
      EnCursoEmpieza(t0, t1, D, Ahorro);
      while resto != {}
        invariant Valida() && t0.Keys == camaras.Keys
        invariant resto !! hechas && resto + hechas == t0.Keys
        invariant EnCurso(t0, t1, D, Ahorro, hechas, tabla, av)
        invariant publicado == old(publicado) + av
        decreases resto
      {
        var k :| k in resto;
        ghost var nuevos := if k in D then [AvisoDe(t0[k], k, Ahorro)] else [];
        EnCursoUnaMas(t0, t1, D, Ahorro, hechas, tabla, av, k, nuevos);
        UnaMenos(t0.Keys, resto, hechas, k, {});
        Asocia(old(publicado), av, nuevos);
        RestarEn(k, p, area);
        resto, hechas, av := resto - {k}, hechas + {k}, av + nuevos;
      }
      EnCursoTermina(t0, t1, D, Ahorro, tabla, av);
    }

    /** Second loop for a "pendiente" (central_de_camaras.rs:107-137). */
    method SumarZona(zona: set<nat>) returns (ghost av: seq<Aviso>)
      requires Valida() && zona <= camaras.Keys
      modifies this`publicado, this`tabla, objetos
      ensures Valida() && tabla == TrasSumar(old(tabla), zona, areas)
      ensures MismosLugares(old(tabla), tabla) && Duermen(old(tabla), tabla) == {}
      ensures publicado == old(publicado) + av
      ensures Publica(av, AvisosDe(old(tabla), Despiertan(old(tabla), tabla), Graba))
    {
      ghost var t0 := tabla;
      var resto := zona;
      ghost var hechas := {};
      av := [];
      SumarNinguna(t0, areas);
      while resto != {}
        invariant Valida() && zona <= t0.Keys == camaras.Keys
        invariant resto !! hechas && resto + hechas == zona
        invariant tabla == TrasSumar(t0, hechas, areas)
        invariant publicado == old(publicado) + av
        invariant MismosLugares(t0, tabla) && Duermen(t0, tabla) == {}
        invariant Publica(av, AvisosDe(t0, Despiertan(t0, tabla), Graba))
        decreases resto
      {
        var r :| r in resto;
        ghost var t1 := tabla;
        SumarUnaMas(t0, hechas, r, areas);
        UnaMenos(zona, resto, hechas, r, {});
        ghost var nuevos := SumarCercanas(camaras[r].posicion);
        SumarNoDuerme(t1, t0[r].posicion, areas.lindante);
        DespiertanJuntas(t0, t1, tabla, av, nuevos);
        Asocia(old(publicado), av, nuevos);
        resto, hechas, av := resto - {r}, hechas + {r}, av + nuevos;
      }
    }

    method ProcesarPendiente(inc: Incidente) returns (ghost av: seq<Aviso>)
      requires Valida()
      modifies this`publicado, this`tabla, objetos
      ensures Valida() && tabla == TrasPendiente(old(tabla), inc, areas)
      ensures publicado == old(publicado) + av
      ensures Publica(av, AvisosDe(old(tabla), Despiertan(old(tabla), tabla), Graba))
    {
      ghost var t0 := tabla;
      var zona;
      zona, av := AnotarTodas(inc);
      ghost var t1 := tabla;
      AnotarNoDuerme(t0, inc, areas);
      ghost var nuevos := SumarZona(zona);
      DespiertanJuntas(t0, t1, tabla, av, nuevos);
      Asocia(old(publicado), av, nuevos);
      av := av + nuevos;
    }

    /** One camera of the zone tells its neighbours to discount. */
    method RestarVecinas(r: nat, ghost t0: Tabla, ghost hechas: set<nat>, ghost av: seq<Aviso>) returns (ghost nuevos: seq<Aviso>)
      requires Valida() && r in camaras && r in t0 && r !in hechas
      requires Restando(t0, hechas, areas, tabla, av)
      modifies this`publicado, this`tabla, objetos
      ensures Valida() && Restando(t0, hechas + {r}, areas, tabla, av + nuevos)
      ensures publicado == old(publicado) + nuevos
    {
      ghost var t1 := tabla;
      nuevos := AvisaLindantesIncidenteCancelado(camaras[r].posicion, areas.lindante);
      RestandoUnaMas(t0, hechas, r, areas, t1, tabla, av, nuevos);
    }

    /** Second loop for a "cancelado" (central_de_camaras.rs:162-173). */
    method RestarZona(zona: set<nat>) returns (ghost av: seq<Aviso>)
      requires Valida() && zona <= camaras.Keys
      modifies this`publicado, this`tabla, objetos
      ensures Valida() && tabla == TrasRestar(old(tabla), zona, areas)
      ensures publicado == old(publicado) + av
      ensures Publica(av, AvisosDe(old(tabla), BajasAlRestar(old(tabla), zona, areas), Ahorro))
    {
      ghost var t0 := tabla;
      var resto := zona;
      ghost var hechas := {};
      av := [];
      RestarNinguna(t0, areas);
      while resto != {}
        invariant Valida() && zona <= t0.Keys == camaras.Keys
        invariant resto !! hechas && resto + hechas == zona
        invariant Restando(t0, hechas, areas, tabla, av)
        invariant publicado == old(publicado) + av
        decreases resto
      {
        var r :| r in resto;
        UnaMenos(zona, resto, hechas, r, {});
        ghost var nuevos := RestarVecinas(r, t0, hechas, av);
        Asocia(old(publicado), av, nuevos);
        resto, hechas, av := resto - {r}, hechas + {r}, av + nuevos;
      }
    }

    method ProcesarCancelado(inc: Incidente) returns (ghost av: seq<Aviso>)
      requires Valida()
      modifies this`publicado, this`tabla, objetos
      ensures Valida() && tabla == TrasCancelado(old(tabla), inc, areas)
      ensures publicado == old(publicado) + av
      ensures Publica(av, AvisosDe(old(tabla), BajanAlCancelar(old(tabla), inc, areas), Ahorro))
    {
      ghost var t0 := tabla;
      var zona;
      zona, av := DesanotarTodas(inc);
      ghost var t1 := tabla;
      ghost var nuevos := RestarZona(zona);
      BajanPartidas(t0, inc, areas);
      PublicaJuntos(t0, t1, BajanAlDesanotar(t0, inc, areas), BajasAlRestar(t1, zona, areas), Ahorro, av, nuevos);
      Asocia(old(publicado), av, nuevos);
      av := av + nuevos;
    }

    /** An incident message that is not ignored. */
    method ProcesarNuevo(inc: Incidente) returns (ghost av: seq<Aviso>)
      requires Valida()
      modifies this`publicado, this`tabla, objetos
      ensures Valida() && tabla == TrasIncidente(old(tabla), inc, areas)
      ensures publicado == old(publicado) + av
      ensures Publica(av, AvisosIncidente(old(tabla), inc, areas))
    {
      av := [];
      if inc.estado == "pendiente" {
        av := ProcesarPendiente(inc);
      } else if inc.estado == "cancelado" {
        av := ProcesarCancelado(inc);
      }
    }

    /** `process_incidents`, on a parsed payload. */
    method ProcessIncidents(payload: Option<Incidente>) returns (r: Result<(), Error>, ghost av: seq<Aviso>)
      requires Valida()
      modifies this`publicado, this`incidentes, this`vivos, this`tabla, objetos
      ensures Valida() && Estado() == Paso(old(Estado()), Mensaje(payload), areas)
      ensures publicado == old(publicado) + av && PublicaPaso(old(Estado()), Mensaje(payload), areas, av)
      ensures r == if payload.None? then Err(ErrorAlProcesarIncidente) else Ok(())
    {
      av := [];
      if payload.None? {
        return Err(ErrorAlProcesarIncidente), av;
      }
      var inc := payload.value;
      if (inc.id, inc.estado) in incidentes || inc.estado == "activo" {
        return Ok(()), av;
      }
      incidentes := incidentes + {(inc.id, inc.estado)};
      vivos := TrasVivir(vivos, inc);
      av := ProcesarNuevo(inc);
      r := Ok(());
    }

    /** `nueva_camara`. */
    method NuevaCamara(lat: real, long: real) returns (nueva: nat, ghost av: seq<Aviso>)
      requires Valida()
      modifies this`publicado, this`id, this`camaras, this`objetos, this`tabla
      ensures Valida() && fresh(objetos - old(objetos))
      ensures Estado() == Paso(old(Estado()), Alta(Posicion(lat, long)), areas) && nueva == id
      ensures publicado == old(publicado) + av && PublicaPaso(old(Estado()), Alta(Posicion(lat, long)), areas, av)
    {
      id := id + 1;
      var cam := new Camara(id, Posicion(lat, long));
      objetos := objetos + {cam};
      camaras := camaras[id := cam];
      tabla := tabla[id := cam.Valor()];
      PublicarCamara(cam, Ahorro);
      av := [Aviso(Posicion(lat, long), Ahorro, id)];
      nueva := id;
    }

    /** The loop of `eliminar_camara` (central_de_camaras.rs:381-389). */
    method AvisarVeces(pos: Posicion, area: real, cantidad: nat) returns (ghost av: seq<Aviso>)
      requires Valida()
      modifies this`publicado, this`tabla, objetos
      ensures Valida() && tabla == TrasAvisar(old(tabla), pos, area, cantidad)
      ensures publicado == old(publicado) + av
      ensures Publica(av, AvisosDe(old(tabla), BajanAlAvisar(old(tabla), pos, area, cantidad), Ahorro))
    {
      ghost var t0 := tabla;
      av := [];
      AvisarCero(t0, pos, area);
      for n := 0 to cantidad
        invariant Valida() && tabla == TrasAvisar(t0, pos, area, n)
        invariant publicado == old(publicado) + av
        invariant Publica(av, AvisosDe(t0, BajanAlAvisar(t0, pos, area, n), Ahorro))
      {
        ghost var t1 := tabla;
        AvisarUnaMas(t0, pos, area, n);
        ghost var nuevos := AvisaLindantesIncidenteCancelado(pos, area);
        PublicaJuntos(t0, t1, BajanAlAvisar(t0, pos, area, n), BajanAlAvisar(t1, pos, area, 1), Ahorro, av, nuevos);
        Asocia(old(publicado), av, nuevos);
        av := av + nuevos;
      }
    }

    /** `eliminar_camara`: the neighbours discount, one by one, every incident that the camera
        holds, with the neighbour area found in the configuration file. */
    method EliminarCamara(k: nat, archivo: Option<real>) returns (r: Result<(), Error>, ghost av: seq<Aviso>)
      requires Valida()
      modifies this`publicado, this`camaras, this`tabla, objetos
      ensures Valida() && Estado() == Paso(old(Estado()), Baja(k, archivo), areas)
      ensures publicado == old(publicado) + av && PublicaPaso(old(Estado()), Baja(k, archivo), areas, av)
      ensures r == if archivo.None? || k !in old(camaras) then Err(NoSePudoBorrarLaCamara) else Ok(())
    {
      av := [];
      if archivo.None? || k !in camaras {
        return Err(NoSePudoBorrarLaCamara), av;
      }
      var cantidad := camaras[k].CantidadIncidentes();
      av := AvisarVeces(camaras[k].posicion, archivo.value, cantidad);
      camaras := camaras - {k};
      tabla := tabla - {k};
      ghost var fin := [Aviso(Posicion(0.0, 0.0), Eliminado, k)];
      publicado := publicado + [Aviso(Posicion(0.0, 0.0), Eliminado, k)];
      assert (av + fin)[..|av + fin| - 1] == av;
      Asocia(old(publicado), av, fin);
      av := av + fin;
      r := Ok(());
    }
  }
}
