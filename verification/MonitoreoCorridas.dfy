/** Every interleaving of the monitor's locked sections. */
module MonitoreoCorridas {
  import opened Wrappers
  import opened Camaras
  import opened Monitoreo

  // ----- what was published -----

  function Abiertos(pub: seq<Publicacion>): set<nat> {
    if pub == [] then {}
    else Abiertos(pub[..|pub| - 1]) + if pub[|pub| - 1].aviso.AvisoPendiente? then {pub[|pub| - 1].id} else {}
  }

  function Cerrados(pub: seq<Publicacion>): set<nat> {
    if pub == [] then {}
    else Cerrados(pub[..|pub| - 1]) + if pub[|pub| - 1].aviso.AvisoCancelado? then {pub[|pub| - 1].id} else {}
  }

  /** Incidents published as active, with their two drones. */
  function Activos(pub: seq<Publicacion>): set<(nat, string, string)> {
    if pub == [] then {}
    else
      var p := pub[|pub| - 1];
      Activos(pub[..|pub| - 1]) + if p.aviso.AvisoActivo? then {(p.id, p.aviso.dron1, p.aviso.dron2)} else {}
  }

  /** Each incident is opened once, and only then active or cancelled. */
  predicate EnOrden(pub: seq<Publicacion>) {
    pub == [] ||
    (EnOrden(pub[..|pub| - 1]) && (pub[|pub| - 1].aviso.AvisoPendiente? <==> pub[|pub| - 1].id !in Abiertos(pub[..|pub| - 1])))
  }

  lemma UnaMas(pub: seq<Publicacion>, p: Publicacion)
    ensures Abiertos(pub + [p]) == Abiertos(pub) + if p.aviso.AvisoPendiente? then {p.id} else {}
    ensures Cerrados(pub + [p]) == Cerrados(pub) + if p.aviso.AvisoCancelado? then {p.id} else {}
    ensures Activos(pub + [p]) == Activos(pub) + if p.aviso.AvisoActivo? then {(p.id, p.aviso.dron1, p.aviso.dron2)} else {}
    ensures EnOrden(pub + [p]) <==> EnOrden(pub) && (p.aviso.AvisoPendiente? <==> p.id !in Abiertos(pub))
  {
    assert (pub + [p])[..|pub|] == pub;
  }

  // ----- the invariant -----

  /** The incident was opened and its creation is over or one section short of it. */
  predicate Vivido(s: Sistema, x: nat) {
    x in Abiertos(s.publicado) && (x in s.altas ==> s.altas[x].etapa == Listado)
  }

  /** At most two distinct drones, which reported the incident. */
  predicate ParReportado(ds: seq<string>, x: nat, reportes: set<(string, nat)>) {
    && |ds| <= 2 && (|ds| == 2 ==> ds[0] != ds[1])
    && (|ds| >= 1 ==> (ds[0], x) in reportes) && (|ds| >= 2 ==> (ds[1], x) in reportes)
  }

  predicate EnUso(s: Sistema, x: nat) {
    x in s.lista || x in s.drones || x in s.bajas || x in s.porCerrar || x in Cerrados(s.publicado)
  }

  /** What holds of one number: if it is in use it was handed out and opened; if it is listed it has
      its drones' entry, unless its creation is one section short; if it is cancelled or on its way
      to it, it is not listed. */
  predicate BienEn(s: Sistema, x: nat) {
    && (x in s.altas || x in Abiertos(s.publicado) ==> x < s.idCount)
    && (x in s.altas ==> (x in Abiertos(s.publicado) <==> s.altas[x].etapa != Reservado))
    && (EnUso(s, x) ==> Vivido(s, x))
    && (x in s.lista ==> x in s.drones || x in s.altas)
    && (x in s.drones ==> x !in s.altas && ParReportado(s.drones[x], x, s.reportes))
    && (x in Cerrados(s.publicado) || x in s.bajas || x in s.porCerrar ==> x !in s.lista)
  }

  /** An active incident names two distinct drones that reported it; as long as the entry exists it
      holds this pair. */
  predicate ActivoBien(s: Sistema, a: (nat, string, string)) {
    && a.1 != a.2 && (a.1, a.0) in s.reportes && (a.2, a.0) in s.reportes
    && a.0 !in s.altas && a.0 in Abiertos(s.publicado)
    && (a.0 in s.drones ==> s.drones[a.0] == [a.1, a.2])
  }

  predicate UnSoloPar(activos: set<(nat, string, string)>) {
    forall a, b :: a in activos && b in activos && a.0 == b.0 ==> a == b
  }

  predicate RelojesBien(s: Sistema) {
    && (s.enCurso.Some? ==> Vivido(s, s.enCurso.value.id))
    && forall k :: 0 <= k < |s.relojes| ==> Vivido(s, s.relojes[k].id)
  }

  ghost predicate Bien(s: Sistema) {
    && (forall x: nat :: BienEn(s, x))
    && EnOrden(s.publicado) && RelojesBien(s)
    && (forall a :: a in Activos(s.publicado) ==> ActivoBien(s, a)) && UnSoloPar(Activos(s.publicado))
  }

  // ----- every section keeps it -----

  /** The incident that a section works on. */
  function Objeto(s: Sistema, p: Paso): nat {
    match p
    case Reservar(_) => s.idCount
    case PublicarAlta(id, _) => id
    case Listar(id) => id
    case Anotar(id) => id
    case Reportar(_, id, _, _) => id
    case Marcar => if s.enCurso.Some? then s.enCurso.value.id else 0
    case Sonar(k, _) => if k < |s.relojes| then s.relojes[k].id else 0
    case Quitar(id) => id
    case Soltar(id) => id
    case PublicarBaja(id, _) => id
  }

  /** What a section publishes. */
  function Publicaciones(s: Sistema, p: Paso): Option<Publicacion> {
    match p
    case PublicarAlta(id, ok) =>
      if id in s.altas && s.altas[id].etapa == Reservado && ok
      then Some(Publicacion(id, s.altas[id].incidente.posicion, AvisoPendiente)) else None
    case Reportar(_, id, posicion, ok) => if s.enCurso.None? && ok then Respuesta(s, id, posicion) else None
    case Sonar(k, ok) =>
      if k < |s.relojes| && ok then Some(Publicacion(s.relojes[k].id, s.relojes[k].posicion, AvisoCancelado)) else None
    case PublicarBaja(id, ok) =>
      if id in s.porCerrar && ok then Some(Publicacion(id, s.porCerrar[id].posicion, AvisoCancelado)) else None
    case _ => None
  }

  lemma PublicadoTras(s: Sistema, p: Paso)
    ensures Tras(s, p).publicado == s.publicado + if Publicaciones(s, p).Some? then [Publicaciones(s, p).value] else []
    ensures Publicaciones(s, p).Some? ==> Publicaciones(s, p).value.id == Objeto(s, p)
  {
    assert s.publicado + [] == s.publicado;
  }

  /** The sets of published incidents after a section. */
  lemma ConjuntosTras(s: Sistema, p: Paso)
    ensures var q := Publicaciones(s, p);
      var pub := Tras(s, p).publicado;
      && Abiertos(pub) == Abiertos(s.publicado) + (if q.Some? && q.value.aviso.AvisoPendiente? then {q.value.id} else {})
      && Cerrados(pub) == Cerrados(s.publicado) + (if q.Some? && q.value.aviso.AvisoCancelado? then {q.value.id} else {})
      && Activos(pub) == Activos(s.publicado)
        + (if q.Some? && q.value.aviso.AvisoActivo? then {(q.value.id, q.value.aviso.dron1, q.value.aviso.dron2)} else {})
  {
    PublicadoTras(s, p);
    if Publicaciones(s, p).Some? {
      UnaMas(s.publicado, Publicaciones(s, p).value);
    } else {
      assert s.publicado + [] == s.publicado;
    }
  }

  /** The number a section works on, when it publishes or sounds a timer, is alive. */
  predicate ObjetoVivo(s: Sistema, p: Paso) {
    (p.Marcar? && s.enCurso.Some?) || (p.Sonar? && p.reloj < |s.relojes|) ==> Vivido(s, Objeto(s, p))
  }

  predicate DeAlta(p: Paso) {
    p.Reservar? || p.PublicarAlta? || p.Listar? || p.Anotar?
  }

  predicate DeReloj(p: Paso) {
    p.Marcar? || p.Sonar?
  }

  predicate DeBaja(p: Paso) {
    p.Quitar? || p.Soltar? || p.PublicarBaja?
  }

  /** The tables hold the same about a number. */
  predicate Igual(s: Sistema, s': Sistema, x: nat) {
    && (x in s'.lista <==> x in s.lista)
    && (x in s'.drones <==> x in s.drones) && (x in s.drones ==> s'.drones[x] == s.drones[x])
    && (x in s'.altas <==> x in s.altas) && (x in s.altas ==> s'.altas[x] == s.altas[x])
    && (x in s'.bajas <==> x in s.bajas) && (x in s'.porCerrar <==> x in s.porCerrar)
    && (x < s'.idCount <==> x < s.idCount) && s.reportes <= s'.reportes
  }

  predicate MismasPublicaciones(s: Sistema, s': Sistema, x: nat) {
    && (x in Abiertos(s'.publicado) <==> x in Abiertos(s.publicado))
    && (x in Cerrados(s'.publicado) <==> x in Cerrados(s.publicado))
  }

  lemma IgualBien(s: Sistema, s': Sistema, x: nat)
    requires BienEn(s, x) && Igual(s, s', x) && MismasPublicaciones(s, s', x)
    ensures BienEn(s', x)
  {
  }

  lemma PublicaOtro(s: Sistema, p: Paso, x: nat)
    requires x != Objeto(s, p)
    ensures MismasPublicaciones(s, Tras(s, p), x)
  {
    ConjuntosTras(s, p);
  }

  lemma AltaOtro(s: Sistema, p: Paso, x: nat)
    requires DeAlta(p) && x != Objeto(s, p)
    ensures Igual(s, Tras(s, p), x)
  {
  }

  lemma ReporteOtro(s: Sistema, p: Paso, x: nat)
    requires p.Reportar? && x != p.id
    ensures Igual(s, Tras(s, p), x)
  {
  }

  lemma RelojOtro(s: Sistema, p: Paso, x: nat)
    requires DeReloj(p) && x != Objeto(s, p)
    ensures Igual(s, Tras(s, p), x)
  {
  }

  lemma BajaOtro(s: Sistema, p: Paso, x: nat)
    requires DeBaja(p) && x != Objeto(s, p)
    ensures Igual(s, Tras(s, p), x)
  {
  }

  /** Other numbers are not touched. */
  lemma PasoEnOtro(s: Sistema, p: Paso, x: nat)
    requires BienEn(s, x) && x != Objeto(s, p)
    ensures BienEn(Tras(s, p), x)
  {
    if DeAlta(p) { AltaOtro(s, p, x); }
    if p.Reportar? { ReporteOtro(s, p, x); }
    if DeReloj(p) { RelojOtro(s, p, x); }
    if DeBaja(p) { BajaOtro(s, p, x); }
    PublicaOtro(s, p, x);
    IgualBien(s, Tras(s, p), x);
  }

  lemma AltaEnObjeto(s: Sistema, p: Paso)
    requires DeAlta(p) && BienEn(s, Objeto(s, p)) && BienEn(s, s.idCount)
    ensures BienEn(Tras(s, p), Objeto(s, p))
  {
    ConjuntosTras(s, p);
  }

  lemma ReporteConjuntos(s: Sistema, p: Paso)
    requires p.Reportar?
    ensures Abiertos(Tras(s, p).publicado) == Abiertos(s.publicado)
    ensures Cerrados(Tras(s, p).publicado) == Cerrados(s.publicado)
  {
    ConjuntosTras(s, p);
  }

  lemma ReporteTablas(s: Sistema, p: Paso)
    requires p.Reportar?
    ensures var s' := Tras(s, p);
      (p.id in s'.lista <==> p.id in s.lista) && (p.id in s'.drones <==> p.id in s.drones)
  {
  }

  lemma ReporteResto(s: Sistema, p: Paso)
    requires p.Reportar?
    ensures var s' := Tras(s, p);
      s'.altas == s.altas && s'.bajas == s.bajas && s'.porCerrar == s.porCerrar && s'.idCount == s.idCount
  {
  }

  lemma ReporteDrones(s: Sistema, p: Paso)
    requires p.Reportar? && p.id in s.drones && ParReportado(s.drones[p.id], p.id, s.reportes)
    ensures p.id in Tras(s, p).drones && ParReportado(Tras(s, p).drones[p.id], p.id, Tras(s, p).reportes)
  {
  }

  lemma ReporteEnObjeto(s: Sistema, p: Paso)
    requires p.Reportar? && BienEn(s, p.id)
    ensures BienEn(Tras(s, p), p.id)
  {
    ReporteConjuntos(s, p);
    ReporteTablas(s, p);
    ReporteResto(s, p);
    if p.id in s.drones {
      ReporteDrones(s, p);
    }
    ReporteIgual(s, Tras(s, p), p.id);
  }

  lemma ReporteIgual(s: Sistema, s': Sistema, x: nat)
    requires BienEn(s, x) && MismasPublicaciones(s, s', x)
    requires (x in s'.lista <==> x in s.lista) && (x in s'.drones <==> x in s.drones)
    requires s'.altas == s.altas && s'.bajas == s.bajas && s'.porCerrar == s.porCerrar && s'.idCount == s.idCount
    requires x in s.drones ==> ParReportado(s'.drones[x], x, s'.reportes)
    ensures BienEn(s', x)
  {
  }

  lemma RelojEnObjeto(s: Sistema, p: Paso)
    requires DeReloj(p) && BienEn(s, Objeto(s, p)) && ObjetoVivo(s, p)
    ensures BienEn(Tras(s, p), Objeto(s, p))
  {
    ConjuntosTras(s, p);
  }

  lemma BajaEnObjeto(s: Sistema, p: Paso)
    requires DeBaja(p) && BienEn(s, Objeto(s, p))
    ensures BienEn(Tras(s, p), Objeto(s, p))
  {
    ConjuntosTras(s, p);
  }

  lemma PasoEn(s: Sistema, p: Paso, x: nat)
    requires BienEn(s, x) && BienEn(s, Objeto(s, p)) && BienEn(s, s.idCount) && ObjetoVivo(s, p)
    ensures BienEn(Tras(s, p), x)
  {
    if x == Objeto(s, p) {
      if DeAlta(p) { AltaEnObjeto(s, p); }
      if p.Reportar? { ReporteEnObjeto(s, p); }
      if DeReloj(p) { RelojEnObjeto(s, p); }
      if DeBaja(p) { BajaEnObjeto(s, p); }
    } else {
      PasoEnOtro(s, p, x);
    }
  }

  lemma AbiertosCrecen(s: Sistema, p: Paso)
    ensures Abiertos(s.publicado) <= Abiertos(Tras(s, p).publicado)
  {
    ConjuntosTras(s, p);
  }

  /** Only the sections of a creation change `altas`. */
  lemma AltasIguales(s: Sistema, p: Paso)
    requires !DeAlta(p)
    ensures Tras(s, p).altas == s.altas
  {
  }

  lemma VividoTrasAlta(s: Sistema, p: Paso, x: nat)
    requires DeAlta(p) && Vivido(s, x) && BienEn(s, s.idCount) && BienEn(s, x)
    ensures Vivido(Tras(s, p), x)
  {
    ConjuntosTras(s, p);
  }

  /** Who was alive stays alive. */
  lemma VividoSigue(s: Sistema, p: Paso, x: nat)
    requires Vivido(s, x) && BienEn(s, s.idCount) && BienEn(s, x)
    ensures Vivido(Tras(s, p), x)
  {
    if DeAlta(p) {
      VividoTrasAlta(s, p, x);
    } else {
      AltasIguales(s, p);
      AbiertosCrecen(s, p);
    }
  }

  lemma ListadoVivido(s: Sistema, dron: string, id: nat, posicion: Posicion, ok: bool)
    requires BienEn(s, id) && s.enCurso.None? && Tras(s, Reportar(dron, id, posicion, ok)).enCurso.Some?
    ensures Vivido(s, id)
  {
  }

  /** An incident begins to be resolved by a report about it. */
  lemma EnCursoTras(s: Sistema, p: Paso)
    requires Tras(s, p).enCurso.Some?
    ensures if s.enCurso.Some? then Tras(s, p).enCurso == s.enCurso
            else p.Reportar? && Tras(s, p).enCurso.value.id == p.id
  {
  }

  lemma EnCursoSigue(s: Sistema, p: Paso)
    requires BienEn(s, Objeto(s, p)) && (s.enCurso.Some? ==> Vivido(s, s.enCurso.value.id))
    requires Tras(s, p).enCurso.Some?
    ensures Vivido(s, Tras(s, p).enCurso.value.id)
  {
    EnCursoTras(s, p);
    if s.enCurso.None? {
      ListadoVivido(s, p.dron, p.id, p.posicion, p.ok);
    }
  }

  lemma RelojesSiguen(s: Sistema, p: Paso)
    requires Bien(s)
    ensures RelojesBien(Tras(s, p))
  {
    var s' := Tras(s, p);
    assert BienEn(s, s.idCount) && BienEn(s, Objeto(s, p));
    if s'.enCurso.Some? {
      var x := s'.enCurso.value.id;
      assert BienEn(s, x);
      EnCursoSigue(s, p);
      VividoSigue(s, p, x);
    }
    forall k | 0 <= k < |s'.relojes| ensures Vivido(s', s'.relojes[k].id) {
      var x := s'.relojes[k].id;
      assert BienEn(s, x);
      RelojDeAntes(s, p, k);
      VividoSigue(s, p, x);
    }
  }

  lemma MismosRelojes(s: Sistema, p: Paso)
    requires !DeReloj(p)
    ensures Tras(s, p).relojes == s.relojes
  {
  }

  /** What the sections of the drones' callback and of the timers do to the timers. */
  lemma RelojesTras(s: Sistema, p: Paso)
    requires DeReloj(p)
    ensures Tras(s, p).relojes == (
      if p.Marcar? && s.enCurso.Some? && s.enCurso.value.id in s.lista then s.relojes + [s.enCurso.value]
      else if p.Sonar? && p.reloj < |s.relojes| then s.relojes[..p.reloj] + s.relojes[p.reloj + 1..]
      else s.relojes)
  {
  }

  /** Every timer is one of before, or that of the incident being resolved. */
  lemma RelojDeAntes(s: Sistema, p: Paso, k: nat)
    requires RelojesBien(s) && k < |Tras(s, p).relojes|
    ensures Vivido(s, Tras(s, p).relojes[k].id)
  {
    if DeReloj(p) {
      RelojesTras(s, p);
    } else {
      MismosRelojes(s, p);
    }
  }

  lemma OrdenSigue(s: Sistema, p: Paso)
    requires Bien(s)
    ensures EnOrden(Tras(s, p).publicado)
  {
    PublicadoTras(s, p);
    var q := Publicaciones(s, p);
    assert BienEn(s, Objeto(s, p));
    if q.Some? {
      UnaMas(s.publicado, q.value);
      assert p.Sonar? ==> Vivido(s, s.relojes[p.reloj].id);
    } else {
      assert s.publicado + [] == s.publicado;
    }
  }

  lemma ActivoTrasAlta(s: Sistema, p: Paso, a: (nat, string, string))
    requires DeAlta(p) && ActivoBien(s, a) && BienEn(s, a.0) && BienEn(s, s.idCount)
    ensures ActivoBien(Tras(s, p), a)
  {
    ConjuntosTras(s, p);
  }

  /** After the creation the entry of an incident with two drones can only be removed. */
  lemma EntradaSigue(s: Sistema, p: Paso, x: nat)
    requires !DeAlta(p) && x in Tras(s, p).drones
    ensures x in s.drones && (|s.drones[x]| >= 2 ==> Tras(s, p).drones[x] == s.drones[x])
  {
  }

  lemma ReportesSiguen(s: Sistema, p: Paso)
    ensures s.reportes <= Tras(s, p).reportes
  {
  }

  lemma ActivoSigue(s: Sistema, p: Paso, a: (nat, string, string))
    requires ActivoBien(s, a) && BienEn(s, a.0) && BienEn(s, s.idCount)
    ensures ActivoBien(Tras(s, p), a)
  {
    if DeAlta(p) {
      ActivoTrasAlta(s, p, a);
    } else {
      AltasIguales(s, p);
      AbiertosCrecen(s, p);
      ReportesSiguen(s, p);
      if a.0 in Tras(s, p).drones {
        EntradaSigue(s, p, a.0);
      }
    }
  }

  /** What a report publishes is right, and agrees with what was published before. */
  lemma ActivoNuevo(s: Sistema, p: Paso)
    requires p.Reportar? && Publicaciones(s, p).Some? && BienEn(s, p.id)
    ensures var q := Publicaciones(s, p).value;
      ActivoBien(Tras(s, p), (q.id, q.aviso.dron1, q.aviso.dron2))
    ensures var q := Publicaciones(s, p).value;
      forall b :: ActivoBien(s, b) && b.0 == q.id ==> b == (q.id, q.aviso.dron1, q.aviso.dron2)
  {
    ConjuntosTras(s, p);
  }

  lemma ActivosDeAntes(s: Sistema, p: Paso)
    requires Bien(s)
    ensures forall a :: a in Activos(s.publicado) ==> ActivoBien(Tras(s, p), a)
  {
    assert BienEn(s, s.idCount) && BienEn(s, Objeto(s, p));
    forall a | a in Activos(s.publicado) ensures ActivoBien(Tras(s, p), a) {
      assert BienEn(s, a.0);
      ActivoSigue(s, p, a);
    }
  }

  lemma ActivosSiguen(s: Sistema, p: Paso)
    requires Bien(s)
    ensures forall a :: a in Activos(Tras(s, p).publicado) ==> ActivoBien(Tras(s, p), a)
    ensures UnSoloPar(Activos(Tras(s, p).publicado))
  {
    ActivosDeAntes(s, p);
    ConjuntosTras(s, p);
    var q := Publicaciones(s, p);
    if q.Some? && q.value.aviso.AvisoActivo? {
      assert BienEn(s, Objeto(s, p));
      ActivoNuevo(s, p);
    }
  }

  lemma PasoBien(s: Sistema, p: Paso)
    requires Bien(s)
    ensures Bien(Tras(s, p))
  {
    forall x: nat ensures BienEn(Tras(s, p), x) {
      assert BienEn(s, x) && BienEn(s, Objeto(s, p)) && BienEn(s, s.idCount);
      PasoEn(s, p, x);
    }
    OrdenSigue(s, p);
    RelojesSiguen(s, p);
    ActivosSiguen(s, p);
  }

  // ----- runs -----

  lemma {:induction false} CorridaBien(s: Sistema, pasos: seq<Paso>)
    requires Bien(s)
    ensures Bien(Correr(s, pasos))
    decreases pasos
  {
    if pasos != [] {
      PasoBien(s, pasos[0]);
      CorridaBien(Tras(s, pasos[0]), pasos[1..]);
    }
  }

  /** Over every interleaving: all publications of an incident as active name the same two distinct
      drones, in the same order, and both reported it. */
  lemma UnParPorIncidente(pasos: seq<Paso>, a: (nat, string, string), b: (nat, string, string))
    requires a in Activos(Correr(INICIAL, pasos).publicado) && b in Activos(Correr(INICIAL, pasos).publicado)
    ensures a.1 != a.2 && (a.1, a.0) in Correr(INICIAL, pasos).reportes && (a.2, a.0) in Correr(INICIAL, pasos).reportes
    ensures a.0 == b.0 ==> a == b
  {
    CorridaBien(INICIAL, pasos);
    assert ActivoBien(Correr(INICIAL, pasos), a);
  }

  /** Over every interleaving a listed incident has its entry of at most two distinct drones, but
      for the last section of its creation, and a cancelled one is not listed. */
  lemma ListadosConEntrada(pasos: seq<Paso>, id: nat)
    ensures var s := Correr(INICIAL, pasos);
      && (id in s.lista && id !in s.altas ==> id in s.drones)
      && (id in s.drones ==> ParReportado(s.drones[id], id, s.reportes))
      && (id in Cerrados(s.publicado) ==> id !in s.lista)
  {
    CorridaBien(INICIAL, pasos);
    assert BienEn(Correr(INICIAL, pasos), id);
  }

  /** Over every interleaving a number is opened once, before anything else is published about it,
      and the number handed out next was never used. */
  lemma NumerosUnicos(pasos: seq<Paso>)
    ensures var s := Correr(INICIAL, pasos);
      && EnOrden(s.publicado)
      && s.idCount !in Abiertos(s.publicado) && !EnUso(s, s.idCount) && s.idCount !in s.altas
  {
    CorridaBien(INICIAL, pasos);
    assert BienEn(Correr(INICIAL, pasos), Correr(INICIAL, pasos).idCount);
  }

  // ----- how often an incident is published as active -----

  function CuentaActivos(pub: seq<Publicacion>, id: nat): nat {
    if pub == [] then 0
    else CuentaActivos(pub[..|pub| - 1], id) + if pub[|pub| - 1].id == id && pub[|pub| - 1].aviso.AvisoActivo? then 1 else 0
  }

  /** The incident is listed and has its two drones. */
  predicate ConPar(s: Sistema, id: nat) {
    id in s.lista && id in s.drones && |s.drones[id]| >= 2
  }

  /** A report of the incident arrives while it is listed with two drones, and the publication goes
      well. */
  predicate LlegaConPar(s: Sistema, p: Paso, id: nat) {
    p.Reportar? && p.id == id && p.ok && s.enCurso.None? && ConPar(s, id)
  }

  function ReportesConPar(s: Sistema, pasos: seq<Paso>, id: nat): nat
    decreases pasos
  {
    if pasos == [] then 0
    else (if LlegaConPar(s, pasos[0], id) then 1 else 0) + ReportesConPar(Tras(s, pasos[0]), pasos[1..], id)
  }

  /** An incident in creation is pending, and a listed one is cancelled only between the two locked
      sections of the callback that resolves it. */
  predicate EstadoEn(s: Sistema, x: nat) {
    && (x in s.altas ==> s.altas[x].incidente.estado == Pendiente)
    && (x in s.lista && s.lista[x].estado == Cancelado ==> s.enCurso.Some? && s.enCurso.value.id == x)
  }

  ghost predicate EstadosBien(s: Sistema) {
    forall x: nat :: EstadoEn(s, x)
  }

  lemma EstadoTrasAlta(s: Sistema, p: Paso, x: nat)
    requires DeAlta(p) && EstadoEn(s, x)
    ensures EstadoEn(Tras(s, p), x)
  {
  }

  lemma EstadoTrasReporte(s: Sistema, p: Paso, x: nat)
    requires p.Reportar? && EstadoEn(s, x)
    ensures EstadoEn(Tras(s, p), x)
  {
  }

  lemma EstadoTrasOtro(s: Sistema, p: Paso, x: nat)
    requires !DeAlta(p) && !p.Reportar? && EstadoEn(s, x)
    ensures EstadoEn(Tras(s, p), x)
  {
  }

  lemma EstadosSiguen(s: Sistema, p: Paso)
    requires EstadosBien(s)
    ensures EstadosBien(Tras(s, p))
  {
    forall x: nat ensures EstadoEn(Tras(s, p), x) {
      assert EstadoEn(s, x);
      if DeAlta(p) {
        EstadoTrasAlta(s, p, x);
      } else if p.Reportar? {
        EstadoTrasReporte(s, p, x);
      } else {
        EstadoTrasOtro(s, p, x);
      }
    }
  }

  /** The guard on cancelled incidents never holds a report back. */
  lemma ReportePublica(s: Sistema, p: Paso, id: nat)
    requires EstadosBien(s)
    ensures Publicaciones(s, p).Some? && Publicaciones(s, p).value.id == id && Publicaciones(s, p).value.aviso.AvisoActivo?
      <==> LlegaConPar(s, p, id)
  {
    assert EstadoEn(s, id);
  }

  lemma UnActivoMas(s: Sistema, p: Paso, id: nat)
    requires EstadosBien(s)
    ensures CuentaActivos(Tras(s, p).publicado, id) == CuentaActivos(s.publicado, id) + if LlegaConPar(s, p, id) then 1 else 0
  {
    PublicadoTras(s, p);
    ReportePublica(s, p, id);
    var q := Publicaciones(s, p);
    if q.Some? {
      assert (s.publicado + [q.value])[..|s.publicado|] == s.publicado;
    } else {
      assert s.publicado + [] == s.publicado;
    }
  }

  lemma {:induction false} ActivosContados(s: Sistema, pasos: seq<Paso>, id: nat)
    requires EstadosBien(s)
    ensures CuentaActivos(Correr(s, pasos).publicado, id) == CuentaActivos(s.publicado, id) + ReportesConPar(s, pasos, id)
    decreases pasos
  {
    if pasos != [] {
      UnActivoMas(s, pasos[0], id);
      EstadosSiguen(s, pasos[0]);
      ActivosContados(Tras(s, pasos[0]), pasos[1..], id);
    }
  }

  /** Over every interleaving an incident is published as active once for each report that arrives
      while it is listed with two drones: so at most once iff at most one such report arrives. */
  lemma ActivoUnaVezExacto(pasos: seq<Paso>, id: nat)
    ensures CuentaActivos(Correr(INICIAL, pasos).publicado, id) == ReportesConPar(INICIAL, pasos, id)
  {
    ActivosContados(INICIAL, pasos, id);
  }

  // ----- an incident published as active twice -----

  lemma {:induction false} CorrerJuntos(s: Sistema, a: seq<Paso>, b: seq<Paso>)
    ensures Correr(s, a + b) == Correr(Correr(s, a), b)
    decreases a
  {
    if a == [] {
      assert a + b == b;
    } else {
      assert (a + b)[1..] == a[1..] + b;
      CorrerJuntos(Tras(s, a[0]), a[1..], b);
    }
  }

  /** A report about an incident with its pair, and what follows it. */
  lemma ActivoDeNuevo(s: Sistema, dron: string, id: nat, posicion: Posicion)
    requires s.enCurso.None? && ConPar(s, id) && s.lista[id].estado != Cancelado
    ensures var s' := Correr(s, [Reportar(dron, id, posicion, true), Marcar]);
      && s'.enCurso.None? && ConPar(s', id) && s'.lista[id].estado == Activo
      && CuentaActivos(s'.publicado, id) == CuentaActivos(s.publicado, id) + 1
      && s'.relojes == s.relojes + [Resuelto(id, posicion)]
      && Respuesta(s, id, posicion).Some? && s'.publicado == s.publicado + [Respuesta(s, id, posicion).value]
  {
    CorrerDos(s, Reportar(dron, id, posicion, true), Marcar);
    var q := Respuesta(s, id, posicion).value;
    assert (s.publicado + [q])[..|s.publicado|] == s.publicado;
  }

  lemma DosDrones(s: Sistema, a: string, b: string, id: nat, posicion: Posicion)
    requires s.enCurso.None? && id in s.lista && s.lista[id].estado != Cancelado
    requires id in s.drones && s.drones[id] == [] && a != b
    ensures var s' := Correr(s, [Reportar(a, id, posicion, true), Reportar(b, id, posicion, true)]);
      && s'.enCurso.None? && ConPar(s', id) && s'.lista == s.lista && s'.publicado == s.publicado && s'.relojes == s.relojes
  {
    CorrerDos(s, Reportar(a, id, posicion, true), Reportar(b, id, posicion, true));
  }

  /** Two drones report an incident twice each: it is published as active twice, and will be
      cancelled by two timers. */
  lemma ActivoDosVeces(inc: Incidente, a: string, b: string, posicion: Posicion) returns (pasos: seq<Paso>)
    requires inc.estado == Pendiente && a != b
    ensures CuentaActivos(Correr(INICIAL, pasos).publicado, 0) == 2 && |Correr(INICIAL, pasos).relojes| >= 2
  {
    var crear := Creacion(0, inc, true);
    var dos := [Reportar(a, 0, posicion, true), Reportar(b, 0, posicion, true)];
    var una, otra := [Reportar(a, 0, posicion, true), Marcar], [Reportar(b, 0, posicion, true), Marcar];
    pasos := crear + (dos + (una + otra));
    CorrerJuntos(INICIAL, crear, dos + (una + otra));
    CorrerCreacion(INICIAL, inc, true);
    var s1 := Correr(INICIAL, crear);
    CreadoSinActivos(inc);
    CorrerJuntos(s1, dos, una + otra);
    DosDrones(s1, a, b, 0, posicion);
    var s2 := Correr(s1, dos);
    CorrerJuntos(s2, una, otra);
    ActivoDeNuevo(s2, a, 0, posicion);
    ActivoDeNuevo(Correr(s2, una), b, 0, posicion);
  }

  lemma CreadoSinActivos(inc: Incidente)
    requires inc.estado == Pendiente
    ensures CuentaActivos(Correr(INICIAL, Creacion(0, inc, true)).publicado, 0) == 0
  {
    CorrerCreacion(INICIAL, inc, true);
    var p := Publicacion(0, inc.posicion, AvisoPendiente);
    assert [] + [p] == [p] && [p][..0] == [];
  }

  // ----- after a timer -----

  /** Opened, past its creation and not listed. */
  predicate Terminado(s: Sistema, x: nat) {
    Vivido(s, x) && x !in s.lista
  }

  lemma TerminadoSigue(s: Sistema, p: Paso, x: nat)
    requires Terminado(s, x) && BienEn(s, x) && BienEn(s, s.idCount)
    ensures Terminado(Tras(s, p), x)
  {
    VividoSigue(s, p, x);
    SinListar(s, p, x);
  }

  lemma SinListar(s: Sistema, p: Paso, x: nat)
    requires x !in s.lista && (x in s.altas ==> s.altas[x].etapa == Listado)
    ensures x !in Tras(s, p).lista
  {
  }

  lemma {:induction false} TerminadoSiempre(s: Sistema, pasos: seq<Paso>, x: nat)
    requires Bien(s) && EstadosBien(s) && Terminado(s, x)
    ensures Terminado(Correr(s, pasos), x) && CuentaActivos(Correr(s, pasos).publicado, x) == CuentaActivos(s.publicado, x)
    decreases pasos
  {
    if pasos != [] {
      assert BienEn(s, x) && BienEn(s, s.idCount);
      TerminadoSigue(s, pasos[0], x);
      UnActivoMas(s, pasos[0], x);
      EstadosSiguen(s, pasos[0]);
      PasoBien(s, pasos[0]);
      TerminadoSiempre(Tras(s, pasos[0]), pasos[1..], x);
    }
  }

  lemma {:induction false} CorridaEstados(s: Sistema, pasos: seq<Paso>)
    requires EstadosBien(s)
    ensures EstadosBien(Correr(s, pasos))
    decreases pasos
  {
    if pasos != [] {
      EstadosSiguen(s, pasos[0]);
      CorridaEstados(Tras(s, pasos[0]), pasos[1..]);
    }
  }

  /** Over every interleaving: once a timer has woken, its incident is never listed again and never
      again published as active, whatever its other timers and the drones do. */
  lemma RelojTermina(antes: seq<Paso>, k: nat, ok: bool, luego: seq<Paso>)
    requires k < |Correr(INICIAL, antes).relojes|
    ensures var s := Correr(INICIAL, antes);
      var id := s.relojes[k].id;
      var fin := Correr(Tras(s, Sonar(k, ok)), luego);
      && id !in fin.lista && CuentaActivos(fin.publicado, id) == CuentaActivos(s.publicado, id)
  {
    CorridaBien(INICIAL, antes);
    CorridaEstados(INICIAL, antes);
    var s := Correr(INICIAL, antes);
    var id := s.relojes[k].id;
    assert BienEn(s, id) && BienEn(s, s.idCount);
    VividoSigue(s, Sonar(k, ok), id);
    UnActivoMas(s, Sonar(k, ok), id);
    EstadosSiguen(s, Sonar(k, ok));
    PasoBien(s, Sonar(k, ok));
    TerminadoSiempre(Tras(s, Sonar(k, ok)), luego, id);
  }
}
