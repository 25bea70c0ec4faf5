/** The locks of the monitor: which of its threads can end up waiting for each other. */
module Cerrojos {
  datatype Cerrojo = Drones | DronesDeIncidentes | Cliente | Lista | Contador

  datatype Accion = Tomar(cerrojo: Cerrojo) | Soltar(cerrojo: Cerrojo)

  /** A thread: what it still has to do and the locks that it holds. */
  datatype Hilo = Hilo(resta: seq<Accion>, tomados: set<Cerrojo>)

  predicate Libre(hs: seq<Hilo>, c: Cerrojo) {
    forall i :: 0 <= i < |hs| ==> c !in hs[i].tomados
  }

  predicate Puede(hs: seq<Hilo>, i: nat) {
    && i < |hs| && hs[i].resta != []
    && (hs[i].resta[0].Tomar? ==> Libre(hs, hs[i].resta[0].cerrojo))
  }

  function Avanzado(h: Hilo): Hilo
    requires h.resta != []
  {
    var c := h.resta[0].cerrojo;
    Hilo(h.resta[1..], if h.resta[0].Tomar? then h.tomados + {c} else h.tomados - {c})
  }

  /** The scheduler lets a thread make its next step, if it can. */
  function Mover(hs: seq<Hilo>, i: nat): (r: seq<Hilo>)
    ensures |r| == |hs|
  {
    if Puede(hs, i) then hs[i := Avanzado(hs[i])] else hs
  }

  function Correr(hs: seq<Hilo>, turnos: seq<nat>): (r: seq<Hilo>)
    ensures |r| == |hs|
    decreases turnos
  {
    if turnos == [] then hs else Correr(Mover(hs, turnos[0]), turnos[1..])
  }

  // ----- threads that wait for each other -----

  predicate Espera(hs: seq<Hilo>, i: nat, j: nat) {
    && i < |hs| && j < |hs| && hs[i].resta != [] && hs[i].resta[0].Tomar?
    && hs[i].resta[0].cerrojo in hs[j].tomados
  }

  predicate EsperaAlguno(hs: seq<Hilo>, ds: set<nat>, i: nat) {
    exists j :: j in ds && Espera(hs, i, j)
  }

  /** Each of the threads waits for one of them. */
  predicate Trabados(hs: seq<Hilo>, ds: set<nat>) {
    ds != {} && forall i {:trigger EsperaAlguno(hs, ds, i)} :: i in ds ==> EsperaAlguno(hs, ds, i)
  }

  lemma QuienEsperaNoAvanza(hs: seq<Hilo>, ds: set<nat>, k: nat, i: nat)
    requires EsperaAlguno(hs, ds, i)
    ensures i < |hs| && Mover(hs, k)[i] == hs[i]
  {
    var j :| j in ds && Espera(hs, i, j);
  }

  lemma EsperaSigue(hs: seq<Hilo>, ds: set<nat>, k: nat, i: nat)
    requires Trabados(hs, ds) && EsperaAlguno(hs, ds, i)
    ensures EsperaAlguno(Mover(hs, k), ds, i)
  {
    var j :| j in ds && Espera(hs, i, j);
    assert EsperaAlguno(hs, ds, j);
    QuienEsperaNoAvanza(hs, ds, k, i);
    QuienEsperaNoAvanza(hs, ds, k, j);
    assert Espera(Mover(hs, k), i, j);
  }

  predicate SinAvanzar(hs: seq<Hilo>, hs': seq<Hilo>, ds: set<nat>) {
    forall i :: i in ds ==> i < |hs| && i < |hs'| && hs'[i] == hs[i]
  }

  lemma TrabaSigue(hs: seq<Hilo>, ds: set<nat>, k: nat)
    requires Trabados(hs, ds)
    ensures Trabados(Mover(hs, k), ds) && SinAvanzar(hs, Mover(hs, k), ds)
  {
    forall i | i in ds ensures EsperaAlguno(Mover(hs, k), ds, i) {
      assert EsperaAlguno(hs, ds, i);
      EsperaSigue(hs, ds, k, i);
    }
    forall i | i in ds ensures i < |hs| && Mover(hs, k)[i] == hs[i] {
      assert EsperaAlguno(hs, ds, i);
      QuienEsperaNoAvanza(hs, ds, k, i);
    }
  }

  /** They wait for ever, whatever the scheduler does. */
  lemma {:induction false} TrabaParaSiempre(hs: seq<Hilo>, ds: set<nat>, turnos: seq<nat>)
    requires Trabados(hs, ds)
    ensures Trabados(Correr(hs, turnos), ds) && SinAvanzar(hs, Correr(hs, turnos), ds)
    decreases turnos
  {
    if turnos == [] {
      TrabaSigue(hs, ds, |hs|);
    } else {
      TrabaSigue(hs, ds, turnos[0]);
      TrabaParaSiempre(Mover(hs, turnos[0]), ds, turnos[1..]);
    }
  }

  // ----- an order among the locks -----

  type Rango = Cerrojo -> nat

  /** Every lock is taken after those of lower rank only. */
  predicate Asciende(resta: seq<Accion>, tomados: set<Cerrojo>, r: Rango)
    decreases resta
  {
    resta == [] ||
    var c := resta[0].cerrojo;
    if resta[0].Tomar? then (forall d :: d in tomados ==> r(d) < r(c)) && Asciende(resta[1..], tomados + {c}, r)
    else Asciende(resta[1..], tomados - {c}, r)
  }

  predicate Ordenados(hs: seq<Hilo>, r: Rango) {
    forall i :: 0 <= i < |hs| ==> Asciende(hs[i].resta, hs[i].tomados, r)
  }

  lemma {:induction false} OrdenSigue(hs: seq<Hilo>, r: Rango, turnos: seq<nat>)
    requires Ordenados(hs, r)
    ensures Ordenados(Correr(hs, turnos), r)
    decreases turnos
  {
    if turnos != [] {
      OrdenSigue(Mover(hs, turnos[0]), r, turnos[1..]);
    }
  }

  const COTA := 3

  /** Whoever is waited for waits for a lock of higher rank. */
  lemma {:induction false} EsperaSube(hs: seq<Hilo>, ds: set<nat>, r: Rango, i: nat, j: nat)
    requires Ordenados(hs, r) && Trabados(hs, ds) && j in ds && Espera(hs, i, j)
    requires forall c :: r(c) <= COTA
    ensures false
    decreases COTA - r(hs[i].resta[0].cerrojo)
  {
    assert EsperaAlguno(hs, ds, j);
    var k :| k in ds && Espera(hs, j, k);
    EsperaSube(hs, ds, r, j, k);
  }

  lemma OrdenSinTraba(hs: seq<Hilo>, ds: set<nat>, r: Rango)
    requires Ordenados(hs, r) && forall c :: r(c) <= COTA
    ensures !Trabados(hs, ds)
  {
    if Trabados(hs, ds) {
      var i :| i in ds;
      assert EsperaAlguno(hs, ds, i);
      var j :| j in ds && Espera(hs, i, j);
      EsperaSube(hs, ds, r, i, j);
    }
  }

  // ----- the threads of the monitor -----

  /** What runs in a thread of its own: the callback for a drone that is resolving (with an answer or
      without) and for any other, the callback of the image detector (which may fail to publish), a
      timer, and the calls of the user interface. */
  datatype Tarea = ResuelveYResponde | Resuelve | OtroAviso | Detecta | DetectaSinPublicar | Temporizador | Nuevo | Eliminar | Consulta(c: Cerrojo)

  function Breve(c: Cerrojo): seq<Accion> {
    [Tomar(c), Soltar(c)]
  }

  function Programa(t: Tarea): seq<Accion> {
    match t
    case ResuelveYResponde =>
      [Tomar(Drones), Tomar(DronesDeIncidentes), Tomar(Cliente)] + Breve(Lista) + [Soltar(Cliente)] + Breve(Lista)
      + [Soltar(DronesDeIncidentes), Soltar(Drones)]
    case Resuelve =>
      [Tomar(Drones), Tomar(DronesDeIncidentes), Tomar(Cliente)] + Breve(Lista)
      + [Soltar(Cliente), Soltar(DronesDeIncidentes), Soltar(Drones)]
    case OtroAviso => Breve(Drones)
    case Detecta =>
      [Tomar(Contador), Tomar(Cliente)] + Breve(Lista) + Breve(DronesDeIncidentes) + [Soltar(Cliente), Soltar(Contador)]
    case DetectaSinPublicar => [Tomar(Contador), Tomar(Cliente), Soltar(Cliente), Soltar(Contador)]
    case Temporizador => [Tomar(Cliente)] + Breve(Lista) + [Soltar(Cliente)]
    case Nuevo => Breve(Contador) + Breve(Cliente) + Breve(Lista) + Breve(DronesDeIncidentes)
    case Eliminar => Breve(Lista) + Breve(DronesDeIncidentes) + Breve(Cliente)
    case Consulta(c) => Breve(c)
  }

  function Inicio(ts: seq<Tarea>): seq<Hilo> {
    seq(|ts|, i requires 0 <= i < |ts| => Hilo(Programa(ts[i]), {}))
  }

  predicate DeDron(t: Tarea) {
    t.ResuelveYResponde? || t.Resuelve?
  }

  /** The order in which the drones' callback takes its locks. */
  function SinDetector(c: Cerrojo): (n: nat)
    ensures n <= COTA
  {
    match c
    case Contador => 0
    case Drones => 0
    case DronesDeIncidentes => 1
    case Cliente => 2
    case Lista => 3
  }

  /** The order in which the detector's callback does. */
  function SinDrones(c: Cerrojo): (n: nat)
    ensures n <= COTA
  {
    match c
    case Contador => 0
    case Drones => 0
    case Cliente => 1
    case Lista => 2
    case DronesDeIncidentes => 3
  }

  lemma Toma(p: seq<Accion>, k: nat, t: set<Cerrojo>, c: Cerrojo, r: Rango)
    requires k < |p| && p[k] == Tomar(c) && (forall d :: d in t ==> r(d) < r(c)) && Asciende(p[k + 1..], t + {c}, r)
    ensures Asciende(p[k..], t, r)
  {
  }

  lemma Suelta(p: seq<Accion>, k: nat, t: set<Cerrojo>, c: Cerrojo, r: Rango)
    requires k < |p| && p[k] == Soltar(c) && c in t && Asciende(p[k + 1..], t - {c}, r)
    ensures Asciende(p[k..], t, r)
  {
  }

  lemma TomaYSuelta(p: seq<Accion>, k: nat, t: set<Cerrojo>, c: Cerrojo, r: Rango)
    requires k + 1 < |p| && p[k..k + 2] == Breve(c) && c !in t && (forall d :: d in t ==> r(d) < r(c))
    requires Asciende(p[k + 2..], t, r)
    ensures Asciende(p[k..], t, r)
  {
    assert p[k] == p[k..k + 2][0] && p[k + 1] == p[k..k + 2][1];
    assert t + {c} - {c} == t;
    Suelta(p, k + 1, t + {c}, c, r);
    Toma(p, k, t, c, r);
  }

  lemma AsciendeResponde(p: seq<Accion>, r: Rango)
    requires p == Programa(ResuelveYResponde) && r(Drones) < r(DronesDeIncidentes) < r(Cliente) < r(Lista)
    ensures Asciende(p[0..], {}, r)
  {
    assert {Drones} - {Drones} == {} && {Drones, DronesDeIncidentes} - {DronesDeIncidentes} == {Drones};
    Suelta(p, 9, {Drones}, Drones, r);
    Suelta(p, 8, {Drones, DronesDeIncidentes}, DronesDeIncidentes, r);
    TomaYSuelta(p, 6, {Drones, DronesDeIncidentes}, Lista, r);
    assert {Drones, DronesDeIncidentes, Cliente} - {Cliente} == {Drones, DronesDeIncidentes};
    Suelta(p, 5, {Drones, DronesDeIncidentes, Cliente}, Cliente, r);
    TomaYSuelta(p, 3, {Drones, DronesDeIncidentes, Cliente}, Lista, r);
    TomaTres(p, r);
  }

  lemma TomaTres(p: seq<Accion>, r: Rango)
    requires |p| >= 3 && p[..3] == [Tomar(Drones), Tomar(DronesDeIncidentes), Tomar(Cliente)]
    requires r(Drones) < r(DronesDeIncidentes) < r(Cliente) && Asciende(p[3..], {Drones, DronesDeIncidentes, Cliente}, r)
    ensures Asciende(p[0..], {}, r)
  {
    assert p[0] == p[..3][0] && p[1] == p[..3][1] && p[2] == p[..3][2];
    assert {Drones, DronesDeIncidentes} + {Cliente} == {Drones, DronesDeIncidentes, Cliente};
    Toma(p, 2, {Drones, DronesDeIncidentes}, Cliente, r);
    assert {Drones} + {DronesDeIncidentes} == {Drones, DronesDeIncidentes} && {} + {Drones} == {Drones};
    Toma(p, 1, {Drones}, DronesDeIncidentes, r);
    Toma(p, 0, {}, Drones, r);
  }

  lemma AsciendeResuelve(p: seq<Accion>, r: Rango)
    requires p == Programa(Resuelve) && r(Drones) < r(DronesDeIncidentes) < r(Cliente) < r(Lista)
    ensures Asciende(p[0..], {}, r)
  {
    assert {Drones} - {Drones} == {} && {Drones, DronesDeIncidentes} - {DronesDeIncidentes} == {Drones};
    Suelta(p, 7, {Drones}, Drones, r);
    Suelta(p, 6, {Drones, DronesDeIncidentes}, DronesDeIncidentes, r);
    assert {Drones, DronesDeIncidentes, Cliente} - {Cliente} == {Drones, DronesDeIncidentes};
    Suelta(p, 5, {Drones, DronesDeIncidentes, Cliente}, Cliente, r);
    TomaYSuelta(p, 3, {Drones, DronesDeIncidentes, Cliente}, Lista, r);
    TomaTres(p, r);
  }

  lemma AsciendeDetecta(p: seq<Accion>, r: Rango)
    requires p == Programa(Detecta) && r(Contador) < r(Cliente) < r(Lista) && r(Cliente) < r(DronesDeIncidentes)
    ensures Asciende(p[0..], {}, r)
  {
    assert {Contador} - {Contador} == {} && {Contador, Cliente} - {Cliente} == {Contador};
    Suelta(p, 7, {Contador}, Contador, r);
    Suelta(p, 6, {Contador, Cliente}, Cliente, r);
    TomaYSuelta(p, 4, {Contador, Cliente}, DronesDeIncidentes, r);
    TomaYSuelta(p, 2, {Contador, Cliente}, Lista, r);
    assert {Contador} + {Cliente} == {Contador, Cliente} && {} + {Contador} == {Contador};
    Toma(p, 1, {Contador}, Cliente, r);
    Toma(p, 0, {}, Contador, r);
  }

  lemma AsciendeSinPublicar(p: seq<Accion>, r: Rango)
    requires p == Programa(DetectaSinPublicar) && r(Contador) < r(Cliente)
    ensures Asciende(p[0..], {}, r)
  {
    assert {Contador} - {Contador} == {} && {} + {Contador} == {Contador};
    Suelta(p, 3, {Contador}, Contador, r);
    TomaYSuelta(p, 1, {Contador}, Cliente, r);
    Toma(p, 0, {}, Contador, r);
  }

  lemma AsciendeTemporizador(p: seq<Accion>, r: Rango)
    requires p == Programa(Temporizador) && r(Cliente) < r(Lista)
    ensures Asciende(p[0..], {}, r)
  {
    assert {Cliente} - {Cliente} == {} && {} + {Cliente} == {Cliente};
    Suelta(p, 3, {Cliente}, Cliente, r);
    TomaYSuelta(p, 1, {Cliente}, Lista, r);
    Toma(p, 0, {}, Cliente, r);
  }

  /** Nothing is held from one call to the next. */
  lemma AsciendeInterfaz(t: Tarea, p: seq<Accion>, r: Rango)
    requires p == Programa(t) && (t.Nuevo? || t.Eliminar? || t.Consulta? || t.OtroAviso?)
    ensures Asciende(p[0..], {}, r)
  {
    match t
    case Nuevo =>
      TomaYSuelta(p, 6, {}, DronesDeIncidentes, r);
      TomaYSuelta(p, 4, {}, Lista, r);
      TomaYSuelta(p, 2, {}, Cliente, r);
      TomaYSuelta(p, 0, {}, Contador, r);
    case Eliminar =>
      TomaYSuelta(p, 4, {}, Cliente, r);
      TomaYSuelta(p, 2, {}, DronesDeIncidentes, r);
      TomaYSuelta(p, 0, {}, Lista, r);
    case Consulta(c) =>
      TomaYSuelta(p, 0, {}, c, r);
    case OtroAviso =>
      TomaYSuelta(p, 0, {}, Drones, r);
  }

  lemma AsciendeOtros(t: Tarea, r: Rango)
    requires !DeDron(t) && !t.Detecta? && r(Contador) < r(Cliente) < r(Lista)
    ensures Asciende(Programa(t), {}, r)
  {
    var p := Programa(t);
    assert p[0..] == p;
    if t.DetectaSinPublicar? {
      AsciendeSinPublicar(p, r);
    } else if t.Temporizador? {
      AsciendeTemporizador(p, r);
    } else {
      AsciendeInterfaz(t, p, r);
    }
  }

  lemma AsciendeSinDetector(t: Tarea)
    requires !t.Detecta?
    ensures Asciende(Programa(t), {}, SinDetector)
  {
    var p := Programa(t);
    assert p[0..] == p;
    if t.ResuelveYResponde? {
      AsciendeResponde(p, SinDetector);
    } else if t.Resuelve? {
      AsciendeResuelve(p, SinDetector);
    } else {
      AsciendeOtros(t, SinDetector);
    }
  }

  lemma AsciendeSinDrones(t: Tarea)
    requires !DeDron(t)
    ensures Asciende(Programa(t), {}, SinDrones)
  {
    var p := Programa(t);
    assert p[0..] == p;
    if t.Detecta? {
      AsciendeDetecta(p, SinDrones);
    } else {
      AsciendeOtros(t, SinDrones);
    }
  }

  /** Some schedule leads to threads that wait for each other. */
  ghost predicate PuedeTrabarse(ts: seq<Tarea>) {
    exists turnos, ds :: Trabados(Correr(Inicio(ts), turnos), ds)
  }

  predicate Cruzados(ts: seq<Tarea>, i: nat, j: nat) {
    i < |ts| && j < |ts| && DeDron(ts[i]) && ts[j].Detecta?
  }

  /** The threads `i` and `j` so far, all others not begun. */
  predicate SoloDos(ts: seq<Tarea>, hs: seq<Hilo>, i: nat, j: nat) {
    && |hs| == |ts| && i < |ts| && j < |ts|
    && forall k :: 0 <= k < |ts| && k != i && k != j ==> hs[k] == Hilo(Programa(ts[k]), {})
  }

  /** The thread `i` goes one step further. */
  lemma UnPasoMas(ts: seq<Tarea>, hs: seq<Hilo>, i: nat, j: nat)
    requires i != j && SoloDos(ts, hs, i, j) && hs[i].resta != []
    requires hs[i].resta[0].Tomar? ==> hs[i].resta[0].cerrojo !in hs[i].tomados + hs[j].tomados
    ensures Mover(hs, i) == hs[i := Avanzado(hs[i])] && SoloDos(ts, Mover(hs, i), i, j) && Mover(hs, i)[j] == hs[j]
  {
  }

  lemma DosPasosDelDron(ts: seq<Tarea>, i: nat, j: nat)
    requires Cruzados(ts, i, j)
    ensures var hs := Mover(Mover(Inicio(ts), i), i);
      && SoloDos(ts, hs, i, j) && hs[i] == Hilo(Programa(ts[i])[2..], {Drones, DronesDeIncidentes})
      && hs[j] == Hilo(Programa(Detecta), {})
  {
    var hs := Inicio(ts);
    UnPasoMas(ts, hs, i, j);
    assert {} + {Drones} == {Drones} && {Drones} + {DronesDeIncidentes} == {Drones, DronesDeIncidentes};
    UnPasoMas(ts, Mover(hs, i), i, j);
    assert Programa(ts[i])[1..][1..] == Programa(ts[i])[2..];
  }

  lemma CuatroPasosDelDetector(ts: seq<Tarea>, hs: seq<Hilo>, i: nat, j: nat)
    requires i != j && SoloDos(ts, hs, i, j) && hs[i].tomados == {Drones, DronesDeIncidentes}
    requires hs[j] == Hilo(Programa(Detecta), {})
    ensures var hs' := Mover(Mover(Mover(Mover(hs, j), j), j), j);
      && SoloDos(ts, hs', i, j) && hs'[i] == hs[i] && hs'[j] == Hilo(Programa(Detecta)[4..], {Contador, Cliente})
  {
    var p := Programa(Detecta);
    var h1 := Mover(hs, j);
    UnPasoMas(ts, hs, j, i);
    assert h1[j] == Hilo(p[1..], {Contador});
    var h2 := Mover(h1, j);
    UnPasoMas(ts, h1, j, i);
    assert p[1..][1..] == p[2..] && {Contador} + {Cliente} == {Contador, Cliente};
    assert h2[j] == Hilo(p[2..], {Contador, Cliente});
    var h3 := Mover(h2, j);
    UnPasoMas(ts, h2, j, i);
    assert p[2..][1..] == p[3..] && h3[j] == Hilo(p[3..], {Contador, Cliente, Lista});
    UnPasoMas(ts, h3, j, i);
    assert p[3..][1..] == p[4..] && {Contador, Cliente, Lista} - {Lista} == {Contador, Cliente};
  }

  lemma CorrerDos(hs: seq<Hilo>, i: nat, turnos: seq<nat>)
    ensures Correr(hs, [i, i] + turnos) == Correr(Mover(Mover(hs, i), i), turnos)
  {
    assert ([i, i] + turnos)[1..] == [i] + turnos && ([i] + turnos)[1..] == turnos;
    assert Correr(Mover(hs, i), [i] + turnos) == Correr(Mover(Mover(hs, i), i), turnos);
  }

  lemma DosSeEsperan(hs: seq<Hilo>, i: nat, j: nat)
    requires Espera(hs, i, j) && Espera(hs, j, i)
    ensures Trabados(hs, {i, j})
  {
    assert EsperaAlguno(hs, {i, j}, i) && EsperaAlguno(hs, {i, j}, j);
  }

  lemma CorrerSeis(hs: seq<Hilo>, i: nat, j: nat)
    ensures var h := Mover(Mover(hs, i), i);
      Correr(hs, [i, i] + ([j, j] + ([j, j] + []))) == Mover(Mover(Mover(Mover(h, j), j), j), j)
  {
    var h := Mover(Mover(hs, i), i);
    CorrerDos(hs, i, [j, j] + ([j, j] + []));
    CorrerDos(h, j, [j, j] + []);
    CorrerDos(Mover(Mover(h, j), j), j, []);
  }

  /** The drone's callback holds the table of drones and waits for the client, the detector's the
      other way round. */
  lemma EnCruz(t: Tarea, hs: seq<Hilo>, i: nat, j: nat)
    requires DeDron(t) && i < |hs| && j < |hs|
    requires hs[i] == Hilo(Programa(t)[2..], {Drones, DronesDeIncidentes})
    requires hs[j] == Hilo(Programa(Detecta)[4..], {Contador, Cliente})
    ensures Espera(hs, i, j) && Espera(hs, j, i)
  {
    assert hs[i].resta[0] == Tomar(Cliente) && hs[j].resta[0] == Tomar(DronesDeIncidentes);
  }

  lemma CruzadosSeTraban(ts: seq<Tarea>, i: nat, j: nat)
    requires Cruzados(ts, i, j)
    ensures PuedeTrabarse(ts)
  {
    var h := Mover(Mover(Inicio(ts), i), i);
    var hs := Mover(Mover(Mover(Mover(h, j), j), j), j);
    DosPasosDelDron(ts, i, j);
    CuatroPasosDelDetector(ts, h, i, j);
    CorrerSeis(Inicio(ts), i, j);
    EnCruz(ts[i], hs, i, j);
    DosSeEsperan(hs, i, j);
  }

  /** Whatever threads there are and however they are scheduled, some can come to wait for each other
      exactly when among them are a callback of a drone that is resolving and one of the image
      detector that publishes. */
  lemma TrabaExacta(ts: seq<Tarea>)
    ensures PuedeTrabarse(ts) <==> exists i, j :: Cruzados(ts, i, j)
  {
    if i, j :| Cruzados(ts, i, j) {
      CruzadosSeTraban(ts, i, j);
    } else {
      forall turnos, ds ensures !Trabados(Correr(Inicio(ts), turnos), ds) {
        SinCruceSinTraba(ts, turnos, ds);
      }
    }
  }

  lemma SinCruceSinTraba(ts: seq<Tarea>, turnos: seq<nat>, ds: set<nat>)
    requires forall i, j :: !Cruzados(ts, i, j)
    ensures !Trabados(Correr(Inicio(ts), turnos), ds)
  {
    var r: Rango := SinDrones;
    if i :| 0 <= i < |ts| && DeDron(ts[i]) {
      r := SinDetector;
      forall k | 0 <= k < |ts| ensures Asciende(Programa(ts[k]), {}, r) {
        assert !Cruzados(ts, i, k);
        AsciendeSinDetector(ts[k]);
      }
    } else {
      forall k | 0 <= k < |ts| ensures Asciende(Programa(ts[k]), {}, r) {
        AsciendeSinDrones(ts[k]);
      }
    }
    OrdenSigue(Inicio(ts), r, turnos);
    OrdenSinTraba(Correr(Inicio(ts), turnos), ds, r);
  }
}
