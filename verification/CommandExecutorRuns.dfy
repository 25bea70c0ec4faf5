/** Runs of the broker: what a subscription receives until its limit, and what it does to others. */
module CommandExecutorRuns {
  import opened Wrappers
  import opened Text
  import opened Subjects
  import opened Coverage
  import opened CommandExecutors

  // ----- parts of the table -----

  function Named(connection: nat, sid: string): Suscription -> bool {
    (s: Suscription) => s.Is(connection, sid)
  }

  function NotNamed(connection: nat, sid: string): Suscription -> bool {
    (s: Suscription) => !s.Is(connection, sid)
  }

  /** Does not look at the limit. */
  ghost predicate Nominal(f: Suscription -> bool) {
    forall s: Suscription, m: Option<nat> :: f(s) == f(s.(maxMsgs := m))
  }

  /** The writes to one name, or to all others. */
  function WritesTo(out: seq<Delivery>, connection: nat, sid: string, yes: bool): seq<Delivery> {
    if out == [] then []
    else
      var d := out[|out| - 1];
      WritesTo(out[..|out| - 1], connection, sid, yes)
      + if (d.connection == connection && d.sid == sid) == yes then [d] else []
  }

  lemma {:induction false} WritesToConcat(a: seq<Delivery>, b: seq<Delivery>, connection: nat, sid: string, yes: bool)
    ensures WritesTo(a + b, connection, sid, yes) == WritesTo(a, connection, sid, yes) + WritesTo(b, connection, sid, yes)
  {
    if b == [] {
      assert a + b == a;
    } else {
      var rest := b[..|b| - 1];
      WritesToConcat(a, rest, connection, sid, yes);
      assert (a + b)[..|a + b| - 1] == a + rest;
    }
  }

  lemma KeepHead(s: Suscription, rest: seq<Suscription>, f: Suscription -> bool)
    ensures Keep([s] + rest, f) == if f(s) then [s] + Keep(rest, f) else Keep(rest, f)
  {
    assert ([s] + rest)[1..] == rest;
  }

  lemma {:induction false} KeepSwap(subs: seq<Suscription>, f: Suscription -> bool, g: Suscription -> bool)
    ensures Keep(Keep(subs, f), g) == Keep(Keep(subs, g), f)
  {
    if subs != [] {
      KeepSwap(subs[1..], f, g);
      KeepHead(subs[0], Keep(subs[1..], f), g);
      KeepHead(subs[0], Keep(subs[1..], g), f);
    }
  }

  lemma {:induction false} KeepConcat(a: seq<Suscription>, b: seq<Suscription>, f: Suscription -> bool)
    ensures Keep(a + b, f) == Keep(a, f) + Keep(b, f)
  {
    if a == [] {
      assert a + b == b;
    } else {
      assert (a + b)[1..] == a[1..] + b;
      KeepConcat(a[1..], b, f);
    }
  }

  lemma {:induction false} KeepCountable(subs: seq<Suscription>, f: Suscription -> bool, connected: set<nat>, subject: string)
    requires Countable(subs, connected, subject)
    ensures Countable(Keep(subs, f), connected, subject)
  {
    if subs != [] {
      KeepCountable(subs[1..], f, connected, subject);
    }
  }

  lemma CountedHead(subs: seq<Suscription>, connected: set<nat>, subject: string)
    requires subs != [] && Countable(subs, connected, subject)
    ensures Countable(subs[1..], connected, subject)
    ensures Counted(subs, connected, subject)
         == [if Hit(subs[0], connected, subject) then Decreased(subs[0]) else subs[0]] + Counted(subs[1..], connected, subject)
  {
  }

  /** Counting down and choosing by name can be exchanged. */
  lemma {:induction false} KeepCounted(subs: seq<Suscription>, f: Suscription -> bool, connected: set<nat>, subject: string)
    requires Countable(subs, connected, subject) && Nominal(f)
    ensures Countable(Keep(subs, f), connected, subject)
    ensures Keep(Counted(subs, connected, subject), f) == Counted(Keep(subs, f), connected, subject)
  {
    KeepCountable(subs, f, connected, subject);
    if subs != [] {
      CountedHead(subs, connected, subject);
      KeepCounted(subs[1..], f, connected, subject);
      var rest := Keep(subs[1..], f);
      assert Keep(subs, f) == if f(subs[0]) then [subs[0]] + rest else rest;
      if f(subs[0]) {
        assert ([subs[0]] + rest)[1..] == rest;
        CountedHead([subs[0]] + rest, connected, subject);
      }
    }
  }

  lemma WritesToOne(d: Delivery, connection: nat, sid: string, yes: bool)
    ensures WritesTo([d], connection, sid, yes) == if (d.connection == connection && d.sid == sid) == yes then [d] else []
  {
    assert [d][..0] == [];
  }

  lemma WritesHead(s: Suscription, rest: seq<Suscription>, connected: set<nat>, subject: string, payload: string)
    ensures Writes([s] + rest, connected, subject, payload)
         == (if Hit(s, connected, subject) then [Delivery(s.connection, s.sid, subject, payload)] else [])
            + Writes(rest, connected, subject, payload)
  {
    assert ([s] + rest)[1..] == rest;
  }

  lemma {:induction false} WritesOfKeep(subs: seq<Suscription>, connected: set<nat>, subject: string, payload: string,
                                        connection: nat, sid: string, yes: bool)
    ensures WritesTo(Writes(subs, connected, subject, payload), connection, sid, yes)
         == Writes(Keep(subs, if yes then Named(connection, sid) else NotNamed(connection, sid)), connected, subject, payload)
  {
    if subs != [] {
      var s, d := subs[0], Delivery(subs[0].connection, subs[0].sid, subject, payload);
      WritesOfKeep(subs[1..], connected, subject, payload, connection, sid, yes);
      WritesToConcat([d], Writes(subs[1..], connected, subject, payload), connection, sid, yes);
      WritesToOne(d, connection, sid, yes);
      WritesHead(s, Keep(subs[1..], if yes then Named(connection, sid) else NotNamed(connection, sid)), connected, subject, payload);
    }
  }

  lemma FirstOfHead(subs: seq<Suscription>, connection: nat, sid: string)
    requires subs != []
    ensures FirstOf(subs, connection, sid) == if subs[0].Is(connection, sid) then 0 else 1 + FirstOf(subs[1..], connection, sid)
  {
  }

  lemma ChangeAfterHead(subs: seq<Suscription>, i: nat, s: Suscription)
    requires 0 < i < |subs|
    ensures subs[i := s] == [subs[0]] + subs[1..][i - 1 := s]
    ensures subs[..i] + subs[i + 1..] == [subs[0]] + (subs[1..][..i - 1] + subs[1..][i..])
  {
  }

  lemma UnsubscribedHead(subs: seq<Suscription>, connection: nat, sid: string, maxMsgs: Option<nat>)
    requires subs != []
    ensures Unsubscribed(subs, connection, sid, maxMsgs)
         == if subs[0].Is(connection, sid) then (if maxMsgs.Some? then [subs[0].(maxMsgs := maxMsgs)] else []) + subs[1..]
            else [subs[0]] + Unsubscribed(subs[1..], connection, sid, maxMsgs)
  {
    FirstOfHead(subs, connection, sid);
    var i := FirstOf(subs, connection, sid);
    if i == 0 {
      assert subs[..0] + subs[1..] == [] + subs[1..];
    } else if i < |subs| {
      ChangeAfterHead(subs, i, subs[i].(maxMsgs := maxMsgs));
    } else {
      assert subs == [subs[0]] + subs[1..];
    }
  }

  /** `UNSUB` of one name leaves all other names alone. */
  lemma {:induction false} UnsubscribedOthers(subs: seq<Suscription>, connection: nat, sid: string, maxMsgs: Option<nat>)
    ensures Keep(Unsubscribed(subs, connection, sid, maxMsgs), NotNamed(connection, sid)) == Keep(subs, NotNamed(connection, sid))
  {
    if subs != [] {
      UnsubscribedHead(subs, connection, sid, maxMsgs);
      var f := NotNamed(connection, sid);
      if subs[0].Is(connection, sid) {
        KeepConcat(if maxMsgs.Some? then [subs[0].(maxMsgs := maxMsgs)] else [], subs[1..], f);
      } else {
        UnsubscribedOthers(subs[1..], connection, sid, maxMsgs);
        var rest := Unsubscribed(subs[1..], connection, sid, maxMsgs);
        assert ([subs[0]] + rest)[1..] == rest;
      }
    }
  }

  /** `UNSUB` of another name can be exchanged with choosing by name. */
  lemma {:induction false} KeepUnsubscribed(subs: seq<Suscription>, f: Suscription -> bool, connection: nat, sid: string, maxMsgs: Option<nat>)
    requires Nominal(f) && forall s: Suscription :: s.Is(connection, sid) ==> f(s)
    ensures Keep(Unsubscribed(subs, connection, sid, maxMsgs), f) == Unsubscribed(Keep(subs, f), connection, sid, maxMsgs)
  {
    if subs != [] {
      UnsubscribedHead(subs, connection, sid, maxMsgs);
      var kept := Keep(subs[1..], f);
      assert ([subs[0]] + kept)[1..] == kept;
      UnsubscribedHead([subs[0]] + kept, connection, sid, maxMsgs);
      if subs[0].Is(connection, sid) {
        KeepConcat(if maxMsgs.Some? then [subs[0].(maxMsgs := maxMsgs)] else [], subs[1..], f);
      } else {
        KeepUnsubscribed(subs[1..], f, connection, sid, maxMsgs);
        var rest := Unsubscribed(subs[1..], connection, sid, maxMsgs);
        assert ([subs[0]] + rest)[1..] == rest;
      }
    }
  }

  // ----- runs -----

  predicate AllCountable(b: Broker, run: seq<Command>)
    decreases run
  {
    run == [] ||
    ((run[0].Pub? ==> Countable(b.subs, b.connected, run[0].subject)) && AllCountable(Step(b, run[0]), run[1..]))
  }

  function Run(b: Broker, run: seq<Command>): Broker
    requires AllCountable(b, run)
    decreases run
  {
    if run == [] then b else Run(Step(b, run[0]), run[1..])
  }

  /** The broker without the entries of one name and without what was written to it. */
  function Without(b: Broker, connection: nat, sid: string): Broker {
    b.(subs := Keep(b.subs, NotNamed(connection, sid)), out := WritesTo(b.out, connection, sid, false))
  }

  predicate SubscribesAs(c: Command, connection: nat, sid: string) {
    c.Sub? && c.connection == connection && c.sid == sid
  }

  lemma PublishedWithout(b: Broker, client: nat, subject: string, payload: string, connection: nat, sid: string)
    requires Countable(b.subs, b.connected, subject)
    ensures Countable(Without(b, connection, sid).subs, b.connected, subject)
    ensures Without(Published(b, client, subject, payload), connection, sid)
         == Published(Without(b, connection, sid), client, subject, payload)
  {
    var f := NotNamed(connection, sid);
    KeepCounted(b.subs, f, b.connected, subject);
    KeepSwap(Counted(b.subs, b.connected, subject), Remaining(), f);
    WritesOfKeep(b.subs, b.connected, subject, payload, connection, sid, false);
    WritesToConcat(b.out, Writes(b.subs, b.connected, subject, payload), connection, sid, false);
  }

  lemma StepWithout(b: Broker, c: Command, connection: nat, sid: string)
    requires c.Pub? ==> Countable(b.subs, b.connected, c.subject)
    requires !SubscribesAs(c, connection, sid)
    ensures c.Pub? ==> Countable(Without(b, connection, sid).subs, b.connected, c.subject)
    ensures Without(Step(b, c), connection, sid)
         == if c.Unsub? && c.connection == connection && c.sid == sid then Without(b, connection, sid)
            else Step(Without(b, connection, sid), c)
  {
    var f := NotNamed(connection, sid);
    match c
    case Accept(_) =>
    case Sub(connection', subject, sid') => KeepConcat(b.subs, [Suscription(connection', subject, None, sid')], f);
    case Unsub(connection', sid', maxMsgs) =>
      if connection' == connection && sid' == sid {
        UnsubscribedOthers(b.subs, connection, sid, maxMsgs);
      } else {
        KeepUnsubscribed(b.subs, f, connection', sid', maxMsgs);
      }
    case Pub(client, subject, payload) => PublishedWithout(b, client, subject, payload, connection, sid);
    case Shutdown(connection') => KeepSwap(b.subs, f, OthersThan(connection'));
    case Quit(_) =>
  }

  /** The run without the commands that unsubscribe a name. */
  function WithoutUnsubs(run: seq<Command>, connection: nat, sid: string): seq<Command> {
    if run == [] then []
    else if run[0].Unsub? && run[0].connection == connection && run[0].sid == sid then WithoutUnsubs(run[1..], connection, sid)
    else [run[0]] + WithoutUnsubs(run[1..], connection, sid)
  }

  /** A subscription does not matter to any other: over every run in which it is not made again,
      the rest of the table, its order and all other writes are as if it had never been there. */
  lemma {:induction false} NonInterference(b: Broker, run: seq<Command>, connection: nat, sid: string)
    requires AllCountable(b, run)
    requires forall i :: 0 <= i < |run| ==> !SubscribesAs(run[i], connection, sid)
    ensures AllCountable(Without(b, connection, sid), WithoutUnsubs(run, connection, sid))
    ensures Without(Run(b, run), connection, sid)
         == Run(Without(b, connection, sid), WithoutUnsubs(run, connection, sid))
    decreases run
  {
    if run != [] {
      StepWithout(b, run[0], connection, sid);
      NonInterference(Step(b, run[0]), run[1..], connection, sid);
      var rest := WithoutUnsubs(run[1..], connection, sid);
      assert ([run[0]] + rest)[1..] == rest;
    }
  }

  // ----- what one subscription receives -----

  /** The subscription is left alone: its name is neither subscribed nor unsubscribed, its connection
      stays, and who publishes is connected. */
  predicate Undisturbed(b: Broker, c: Command, connection: nat, sid: string) {
    match c
    case Accept(_) => true
    case Sub(connection', _, sid') => !(connection' == connection && sid' == sid)
    case Unsub(connection', sid', _) => !(connection' == connection && sid' == sid)
    case Pub(client, subject, _) => client == 0 || client in b.connected
    case Shutdown(connection') => connection' != connection
    case Quit(connection') => connection' != connection
  }

  predicate AllUndisturbed(b: Broker, run: seq<Command>, connection: nat, sid: string)
    requires AllCountable(b, run)
    decreases run
  {
    run == [] || (Undisturbed(b, run[0], connection, sid) && AllUndisturbed(Step(b, run[0]), run[1..], connection, sid))
  }

  /** The messages that the run publishes for a pattern, in order. */
  function Due(b: Broker, run: seq<Command>, pattern: string, connection: nat, sid: string): seq<Delivery> {
    if run == [] then []
    else if run[0].Pub? && MayPublish(b, run[0].client, run[0].subject) && Matches(pattern, run[0].subject)
    then [Delivery(connection, sid, run[0].subject, run[0].payload)] + Due(b, run[1..], pattern, connection, sid)
    else Due(b, run[1..], pattern, connection, sid)
  }

  function FirstFew<T>(s: seq<T>, n: Option<nat>): seq<T> {
    if n.Some? && n.value < |s| then s[..n.value] else s
  }

  /** What is left of an entry after it got so many messages. */
  function LeftOf(e: Suscription, got: nat): seq<Suscription> {
    if e.maxMsgs.None? then [e]
    else if e.maxMsgs.value <= got then []
    else [e.(maxMsgs := Some(e.maxMsgs.value - got))]
  }

  function Entries(b: Broker, connection: nat, sid: string): seq<Suscription> {
    Keep(b.subs, Named(connection, sid))
  }

  function Received(b: Broker, connection: nat, sid: string): seq<Delivery> {
    WritesTo(b.out, connection, sid, true)
  }

  lemma {:induction false} KeepIsNone(subs: seq<Suscription>, f: Suscription -> bool, s: Suscription)
    requires !f(s)
    ensures Keep(subs + [s], f) == Keep(subs, f)
  {
    KeepConcat(subs, [s], f);
    assert [s][1..] == [];
  }

  lemma {:induction false} UnsubscribedNamed(subs: seq<Suscription>, f: Suscription -> bool, connection: nat, sid: string, maxMsgs: Option<nat>)
    requires Nominal(f) && forall s: Suscription :: s.Is(connection, sid) ==> !f(s)
    ensures Keep(Unsubscribed(subs, connection, sid, maxMsgs), f) == Keep(subs, f)
  {
    if subs != [] {
      UnsubscribedHead(subs, connection, sid, maxMsgs);
      if subs[0].Is(connection, sid) {
        KeepConcat(if maxMsgs.Some? then [subs[0].(maxMsgs := maxMsgs)] else [], subs[1..], f);
      } else {
        UnsubscribedNamed(subs[1..], f, connection, sid, maxMsgs);
        var rest := Unsubscribed(subs[1..], connection, sid, maxMsgs);
        assert ([subs[0]] + rest)[1..] == rest;
      }
    }
  }

  lemma {:induction false} ShutdownOthers(subs: seq<Suscription>, connection: nat, sid: string, other: nat)
    requires other != connection
    ensures Keep(Keep(subs, OthersThan(other)), Named(connection, sid)) == Keep(subs, Named(connection, sid))
  {
    if subs != [] {
      ShutdownOthers(subs[1..], connection, sid, other);
      KeepHead(subs[0], Keep(subs[1..], OthersThan(other)), Named(connection, sid));
    }
  }

  /** A publication seen by one name. */
  lemma PublishedNamed(b: Broker, client: nat, subject: string, payload: string, connection: nat, sid: string)
    requires Countable(b.subs, b.connected, subject) && MayPublish(b, client, subject)
    requires client == 0 || client in b.connected
    ensures Countable(Entries(b, connection, sid), b.connected, subject)
    ensures var b' := Published(b, client, subject, payload);
      && Entries(b', connection, sid) == Keep(Counted(Entries(b, connection, sid), b.connected, subject), Remaining())
      && Received(b', connection, sid) == Received(b, connection, sid) + Writes(Entries(b, connection, sid), b.connected, subject, payload)
  {
    var f := Named(connection, sid);
    KeepCounted(b.subs, f, b.connected, subject);
    KeepSwap(Counted(b.subs, b.connected, subject), Remaining(), f);
    WritesOfKeep(b.subs, b.connected, subject, payload, connection, sid, true);
    WritesToConcat(b.out, Writes(b.subs, b.connected, subject, payload), connection, sid, true);
  }

  /** A command that is not a publication does not change the entries of an undisturbed name. */
  lemma OtherCommandNamed(b: Broker, c: Command, connection: nat, sid: string)
    requires !c.Pub? && Undisturbed(b, c, connection, sid)
    ensures Entries(Step(b, c), connection, sid) == Entries(b, connection, sid)
    ensures Step(b, c).out == b.out && Step(b, c).permissions == b.permissions
    ensures connection in b.connected ==> connection in Step(b, c).connected
  {
    var f := Named(connection, sid);
    match c
    case Accept(_) =>
    case Sub(connection', subject, sid') => KeepIsNone(b.subs, f, Suscription(connection', subject, None, sid'));
    case Unsub(connection', sid', maxMsgs) => UnsubscribedNamed(b.subs, f, connection', sid', maxMsgs);
    case Shutdown(connection') => ShutdownOthers(b.subs, connection, sid, connection');
    case Quit(_) =>
  }

  lemma PublishedToOne(b: Broker, client: nat, subject: string, payload: string, e: Suscription)
    requires Countable(b.subs, b.connected, subject) && MayPublish(b, client, subject)
    requires (client == 0 || client in b.connected) && e.connection in b.connected
    requires Entries(b, e.connection, e.sid) == [e] && e.maxMsgs != Some(0)
    ensures var b' := Published(b, client, subject, payload);
      if Matches(e.subject, subject) then
        && Entries(b', e.connection, e.sid) == LeftOf(e, 1)
        && Received(b', e.connection, e.sid) == Received(b, e.connection, e.sid) + [Delivery(e.connection, e.sid, subject, payload)]
      else
        Entries(b', e.connection, e.sid) == [e] && Received(b', e.connection, e.sid) == Received(b, e.connection, e.sid)
  {
    PublishedNamed(b, client, subject, payload, e.connection, e.sid);
    assert [e][1..] == [];
  }

  lemma PublishedToNone(b: Broker, client: nat, subject: string, payload: string, connection: nat, sid: string)
    requires Countable(b.subs, b.connected, subject) && MayPublish(b, client, subject)
    requires (client == 0 || client in b.connected) && Entries(b, connection, sid) == []
    ensures var b' := Published(b, client, subject, payload);
      Entries(b', connection, sid) == [] && Received(b', connection, sid) == Received(b, connection, sid)
  {
    PublishedNamed(b, client, subject, payload, connection, sid);
  }

  lemma {:induction false} NothingReceived(b: Broker, run: seq<Command>, connection: nat, sid: string)
    requires AllCountable(b, run) && AllUndisturbed(b, run, connection, sid) && Entries(b, connection, sid) == []
    ensures Entries(Run(b, run), connection, sid) == [] && Received(Run(b, run), connection, sid) == Received(b, connection, sid)
    decreases run
  {
    if run != [] {
      var c := run[0];
      if c.Pub? {
        if MayPublish(b, c.client, c.subject) {
          PublishedToNone(b, c.client, c.subject, c.payload, connection, sid);
        }
      } else {
        OtherCommandNamed(b, c, connection, sid);
      }
      NothingReceived(Step(b, c), run[1..], connection, sid);
    }
  }

  lemma {:induction false} DueDependsOnPermissions(a: Broker, b: Broker, run: seq<Command>, pattern: string, connection: nat, sid: string)
    requires a.permissions == b.permissions
    ensures Due(a, run, pattern, connection, sid) == Due(b, run, pattern, connection, sid)
    decreases run
  {
    if run != [] {
      DueDependsOnPermissions(a, b, run[1..], pattern, connection, sid);
    }
  }

  lemma FirstFewStep<T>(x: T, rest: seq<T>, n: Option<nat>)
    requires n != Some(0)
    ensures n.None? ==> FirstFew([x] + rest, n) == [x] + FirstFew(rest, n)
    ensures n.Some? ==> FirstFew([x] + rest, n) == [x] + FirstFew(rest, Some(n.value - 1))
  {
  }

  /** The run gave the entry its first due messages and left the rest of its limit. */
  ghost predicate Served(b: Broker, run: seq<Command>, e: Suscription)
    requires AllCountable(b, run)
  {
    var due := Due(b, run, e.subject, e.connection, e.sid);
    && Received(Run(b, run), e.connection, e.sid) == Received(b, e.connection, e.sid) + FirstFew(due, e.maxMsgs)
    && Entries(Run(b, run), e.connection, e.sid) == LeftOf(e, |due|)
  }

  ghost predicate Quiet(b: Broker, run: seq<Command>, e: Suscription)
    requires AllCountable(b, run)
  {
    && AllUndisturbed(b, run, e.connection, e.sid)
    && Entries(b, e.connection, e.sid) == [e] && e.maxMsgs != Some(0) && e.connection in b.connected
  }

  /** Over a whole run an undisturbed subscription with a limit receives exactly the first messages
      published for it, as many as the limit or all there are, and is then removed. One without a
      limit receives them all and stays. */
  lemma {:induction false} QuotaExact(b: Broker, run: seq<Command>, e: Suscription)
    requires AllCountable(b, run) && Quiet(b, run, e)
    ensures Served(b, run, e)
    decreases run
  {
    if run != [] {
      var c := run[0];
      DueDependsOnPermissions(b, Step(b, c), run[1..], e.subject, e.connection, e.sid);
      if c.Pub? && MayPublish(b, c.client, c.subject) {
        PublishedToOne(b, c.client, c.subject, c.payload, e);
        if !Matches(e.subject, c.subject) {
          QuotaExact(Step(b, c), run[1..], e);
        } else if e.maxMsgs == Some(1) {
          LastOneServed(b, run, e);
        } else {
          QuotaExact(Step(b, c), run[1..], LeftOf(e, 1)[0]);
          OneMoreServed(b, run, e);
        }
      } else {
        if !c.Pub? {
          OtherCommandNamed(b, c, e.connection, e.sid);
        }
        QuotaExact(Step(b, c), run[1..], e);
      }
    }
  }

  predicate FirstIsFor(b: Broker, run: seq<Command>, e: Suscription) {
    run != [] && run[0].Pub? && MayPublish(b, run[0].client, run[0].subject) && Matches(e.subject, run[0].subject)
  }

  lemma LastOneServed(b: Broker, run: seq<Command>, e: Suscription)
    requires AllCountable(b, run) && Quiet(b, run, e) && FirstIsFor(b, run, e) && e.maxMsgs == Some(1)
    ensures Served(b, run, e)
  {
    var c := run[0];
    PublishedToOne(b, c.client, c.subject, c.payload, e);
    NothingReceived(Step(b, c), run[1..], e.connection, e.sid);
    var due := Due(b, run, e.subject, e.connection, e.sid);
    assert FirstFew(due, e.maxMsgs) == [due[0]];
  }

  lemma FirstOfDue(b: Broker, run: seq<Command>, e: Suscription)
    requires FirstIsFor(b, run, e) && (Countable(b.subs, b.connected, run[0].subject))
    ensures Due(b, run, e.subject, e.connection, e.sid)
      == [Delivery(e.connection, e.sid, run[0].subject, run[0].payload)] + Due(Step(b, run[0]), run[1..], e.subject, e.connection, e.sid)
  {
    DueDependsOnPermissions(b, Step(b, run[0]), run[1..], e.subject, e.connection, e.sid);
  }

  lemma OneMoreServed(b: Broker, run: seq<Command>, e: Suscription)
    requires AllCountable(b, run) && Quiet(b, run, e) && FirstIsFor(b, run, e) && e.maxMsgs != Some(1)
    requires Served(Step(b, run[0]), run[1..], LeftOf(e, 1)[0])
    ensures Served(b, run, e)
  {
    var c := run[0];
    FirstOfDue(b, run, e);
    PublishedToOne(b, c.client, c.subject, c.payload, e);
    OneMoreFirst(Received(b, e.connection, e.sid), Delivery(e.connection, e.sid, c.subject, c.payload),
                 Due(Step(b, c), run[1..], e.subject, e.connection, e.sid), e);
  }

  lemma OneMoreFirst(got: seq<Delivery>, d: Delivery, due: seq<Delivery>, e: Suscription)
    requires e.maxMsgs != Some(0) && e.maxMsgs != Some(1)
    ensures var e' := LeftOf(e, 1)[0];
      && got + [d] + FirstFew(due, e'.maxMsgs) == got + FirstFew([d] + due, e.maxMsgs)
      && LeftOf(e', |due|) == LeftOf(e, |[d] + due|)
  {
    FirstFewStep(d, due, e.maxMsgs);
    var few := FirstFew(due, LeftOf(e, 1)[0].maxMsgs);
    assert got + ([d] + few) == got + [d] + few;
  }

  // ----- the life of a subscription -----

  lemma {:induction false} StaysConnected(b: Broker, run: seq<Command>, connection: nat, sid: string)
    requires AllCountable(b, run) && AllUndisturbed(b, run, connection, sid) && connection in b.connected
    ensures connection in Run(b, run).connected && Run(b, run).permissions == b.permissions
    decreases run
  {
    if run != [] {
      StaysConnected(Step(b, run[0]), run[1..], connection, sid);
    }
  }

  /** Setting a limit reaches the one entry of that name. */
  lemma {:induction false} LimitReaches(subs: seq<Suscription>, e: Suscription, n: nat)
    requires Keep(subs, Named(e.connection, e.sid)) == [e]
    ensures Keep(Unsubscribed(subs, e.connection, e.sid, Some(n)), Named(e.connection, e.sid)) == [e.(maxMsgs := Some(n))]
  {
    var f := Named(e.connection, e.sid);
    if subs != [] {
      UnsubscribedHead(subs, e.connection, e.sid, Some(n));
      KeepHead(subs[0], subs[1..], f);
      assert [subs[0]] + subs[1..] == subs;
      if subs[0].Is(e.connection, e.sid) {
        var rest := Keep(subs[1..], f);
        assert ([subs[0]] + rest)[0] == e && ([subs[0]] + rest)[1..] == rest && [e][1..] == [];
        KeepHead(subs[0].(maxMsgs := Some(n)), subs[1..], f);
      } else {
        LimitReaches(subs[1..], e, n);
        KeepHead(subs[0], Unsubscribed(subs[1..], e.connection, e.sid, Some(n)), f);
      }
    }
  }

  lemma NewEntry(b: Broker, e: Suscription)
    requires e.maxMsgs == None && ValidSubject(e.subject) && MaySubscribe(b, e.connection, e.subject)
    requires Entries(b, e.connection, e.sid) == []
    ensures Entries(Step(b, Sub(e.connection, e.subject, e.sid)), e.connection, e.sid) == [e]
  {
    KeepConcat(b.subs, [e], Named(e.connection, e.sid));
    KeepHead(e, [], Named(e.connection, e.sid));
    assert [e] + [] == [e];
  }

  /** From `SUB` on a subscription receives everything that is published for it, and from
      `UNSUB sid n` on the next n messages and no more. */
  lemma SubscriptionLife(b: Broker, e: Suscription, first: seq<Command>, n: nat, second: seq<Command>)
    requires e.maxMsgs == None && ValidSubject(e.subject) && MaySubscribe(b, e.connection, e.subject) && n >= 1
    requires Entries(b, e.connection, e.sid) == [] && e.connection in b.connected
    requires var b1 := Step(b, Sub(e.connection, e.subject, e.sid));
      AllCountable(b1, first) && AllUndisturbed(b1, first, e.connection, e.sid)
    requires var b1 := Step(b, Sub(e.connection, e.subject, e.sid));
      var b2 := Step(Run(b1, first), Unsub(e.connection, e.sid, Some(n)));
      AllCountable(b2, second) && AllUndisturbed(b2, second, e.connection, e.sid)
    ensures var b1 := Step(b, Sub(e.connection, e.subject, e.sid));
      var b2 := Step(Run(b1, first), Unsub(e.connection, e.sid, Some(n)));
      Received(Run(b2, second), e.connection, e.sid)
        == Received(b, e.connection, e.sid) + Due(b, first, e.subject, e.connection, e.sid)
           + FirstFew(Due(b, second, e.subject, e.connection, e.sid), Some(n))
  {
    var b1 := Step(b, Sub(e.connection, e.subject, e.sid));
    NewEntry(b, e);
    QuotaExact(b1, first, e);
    StaysConnected(b1, first, e.connection, e.sid);
    var mid := Run(b1, first);
    LimitReaches(mid.subs, e, n);
    var b2 := Step(mid, Unsub(e.connection, e.sid, Some(n)));
    QuotaExact(b2, second, e.(maxMsgs := Some(n)));
    DueDependsOnPermissions(b, b1, first, e.subject, e.connection, e.sid);
    DueDependsOnPermissions(b, b2, second, e.subject, e.connection, e.sid);
  }

  /** A subscription from `SUB` on, with a limit set after the first commands and nobody disturbing it. */
  predicate LifeOf(b: Broker, e: Suscription, first: seq<Command>, n: nat, second: seq<Command>) {
    && e.maxMsgs == None && ValidSubject(e.subject) && MaySubscribe(b, e.connection, e.subject) && n >= 1
    && Entries(b, e.connection, e.sid) == [] && e.connection in b.connected
    && var b1 := Step(b, Sub(e.connection, e.subject, e.sid));
    && AllCountable(b1, first) && AllUndisturbed(b1, first, e.connection, e.sid)
    && var b2 := Step(Run(b1, first), Unsub(e.connection, e.sid, Some(n)));
    && AllCountable(b2, second) && AllUndisturbed(b2, second, e.connection, e.sid)
  }

  function AfterLife(b: Broker, e: Suscription, first: seq<Command>, n: nat, second: seq<Command>): Broker
    requires LifeOf(b, e, first, n, second)
  {
    Run(Step(Run(Step(b, Sub(e.connection, e.subject, e.sid)), first), Unsub(e.connection, e.sid, Some(n))), second)
  }

  /** What is written for the subscription in its life. */
  function Written(b: Broker, e: Suscription, first: seq<Command>, n: nat, second: seq<Command>): seq<Delivery> {
    Due(b, first, e.subject, e.connection, e.sid) + FirstFew(Due(b, second, e.subject, e.connection, e.sid), Some(n))
  }

  lemma LifeIsWritten(b: Broker, e: Suscription, first: seq<Command>, n: nat, second: seq<Command>)
    requires LifeOf(b, e, first, n, second)
    ensures Received(AfterLife(b, e, first, n, second), e.connection, e.sid)
         == Received(b, e.connection, e.sid) + Written(b, e, first, n, second)
  {
    SubscriptionLife(b, e, first, n, second);
    var x, y := Due(b, first, e.subject, e.connection, e.sid), FirstFew(Due(b, second, e.subject, e.connection, e.sid), Some(n));
    assert Received(b, e.connection, e.sid) + x + y == Received(b, e.connection, e.sid) + (x + y);
  }

  // ----- limits of zero -----

  predicate NoZero(subs: seq<Suscription>) {
    forall i :: 0 <= i < |subs| ==> subs[i].maxMsgs != Some(0)
  }

  /** `UNSUB` with a limit of 0 for a known name, or a publication by a client that is gone that
      uses up some limit: the code returns before it removes the entry. */
  predicate LeavesZero(b: Broker, c: Command) {
    || (c.Unsub? && c.maxMsgs == Some(0) && FirstOf(b.subs, c.connection, c.sid) < |b.subs|)
    || (c.Pub? && MayPublish(b, c.client, c.subject) && c.client != 0 && c.client !in b.connected
        && exists i :: 0 <= i < |b.subs| && Hit(b.subs[i], b.connected, c.subject) && b.subs[i].maxMsgs == Some(1))
  }

  lemma {:induction false} KeepNoZero(subs: seq<Suscription>, f: Suscription -> bool)
    ensures NoZero(subs) ==> NoZero(Keep(subs, f))
    ensures (forall s: Suscription :: f(s) ==> s.maxMsgs != Some(0)) ==> NoZero(Keep(subs, f))
  {
    if subs != [] {
      KeepNoZero(subs[1..], f);
    }
  }

  /** A limit of zero, which the next matching publication cannot count down, appears exactly in
      these two ways. */
  lemma ZeroExact(b: Broker, c: Command)
    requires NoZero(b.subs)
    ensures NoZero(Step(b, c).subs) <==> !LeavesZero(b, c)
  {
    match c
    case Accept(_) =>
    case Sub(_, _, _) =>
    case Unsub(connection, sid, maxMsgs) =>
      var i := FirstOf(b.subs, connection, sid);
      if i < |b.subs| && maxMsgs.Some? {
        assert Unsubscribed(b.subs, connection, sid, maxMsgs)[i].maxMsgs == maxMsgs;
      }
    case Pub(client, subject, payload) => PublishedZero(b, client, subject, payload);
    case Shutdown(connection) => KeepNoZero(b.subs, OthersThan(connection));
    case Quit(_) =>
  }

  /** One subscription, limited to one message. */
  function Limited(n: nat): Broker {
    Broker([Suscription(1, "a", Some(n), "s")], {1}, None, [])
  }

  lemma SubjectA()
    ensures ValidSubject("a") && Matches("a", "a")
  {
    SplitFree("a", '.');
    MatchesItself("a");
  }

  lemma LimitedBySub()
    ensures Step(Step(Step(Broker([], {}, None, []), Accept(1)), Sub(1, "a", "s")), Unsub(1, "s", Some(1))) == Limited(1)
  {
    SubjectA();
    var e := Suscription(1, "a", None, "s");
    assert e.Is(1, "s") && [e][0 := e.(maxMsgs := Some(1))] == [e.(maxMsgs := Some(1))];
  }

  lemma GoneUsesUp()
    ensures Countable(Limited(1).subs, {1}, "a")
    ensures Step(Step(Step(Limited(1), Accept(2)), Quit(2)), Pub(2, "a", "p")) == Limited(0).(out := [Delivery(1, "s", "a", "p")])
  {
    SubjectA();
    var b := Limited(1);
    assert Step(Step(b, Accept(2)), Quit(2)) == b;
    var e := Limited(1).subs[0];
    CountedHead(b.subs, b.connected, "a");
    assert b.subs == [e] && [e][1..] == [];
    assert Writes([], {1}, "a", "p") == [];
    assert [Delivery(1, "s", "a", "p")] + [] == [Delivery(1, "s", "a", "p")];
  }

  /** A subscription limited to one message, used up by a publisher that is gone: it stays in the table, and
      the next publication that matches it cannot be counted down. */
  lemma ZeroHappens()
    ensures var b := Step(Step(Step(Broker([], {}, None, []), Accept(1)), Sub(1, "a", "s")), Unsub(1, "s", Some(1)));
      && b == Limited(1) && Countable(b.subs, b.connected, "a")
      && var b' := Step(Step(Step(b, Accept(2)), Quit(2)), Pub(2, "a", "p"));
      b'.subs == [Suscription(1, "a", Some(0), "s")] && !Countable(b'.subs, b'.connected, "a")
  {
    LimitedBySub();
    GoneUsesUp();
    SubjectA();
    var z := Limited(0).subs[0];
    assert Hit(z, {1}, "a") && z.maxMsgs == Some(0);
  }

  lemma PublishedZero(b: Broker, client: nat, subject: string, payload: string)
    requires NoZero(b.subs)
    ensures NoZero(Published(b, client, subject, payload).subs) <==> !LeavesZero(b, Pub(client, subject, payload))
  {
    var counted := Counted(b.subs, b.connected, subject);
    KeepNoZero(counted, Remaining());
    if LeavesZero(b, Pub(client, subject, payload)) {
      var i :| 0 <= i < |b.subs| && Hit(b.subs[i], b.connected, subject) && b.subs[i].maxMsgs == Some(1);
      assert counted[i].maxMsgs == Some(0);
    }
  }

  // ----- what SUB and PUB check -----

  /** A subscription is added exactly if its subject is valid and, with permissions, the connection has one that
      matches it, whichever; nothing else changes. */
  lemma SubAddsExactly(b: Broker, connection: nat, subject: string, sid: string)
    ensures var allowed := b.permissions.None? || (connection in b.permissions.value
        && exists i :: 0 <= i < |b.permissions.value[connection].subscribe| && Matches(b.permissions.value[connection].subscribe[i], subject));
      Step(b, Sub(connection, subject, sid))
      == if ValidSubject(subject) && allowed then b.(subs := b.subs + [Suscription(connection, subject, None, sid)]) else b
  {
  }

  /** What is written grows entry by entry: each connected one whose subject matches gets the message. */
  lemma WritesEntry(subs: seq<Suscription>, i: nat, connected: set<nat>, subject: string, payload: string)
    requires i < |subs|
    ensures Writes(subs[..i + 1], connected, subject, payload) == Writes(subs[..i], connected, subject, payload)
      + if subs[i].connection in connected && Matches(subs[i].subject, subject)
        then [Delivery(subs[i].connection, subs[i].sid, subject, payload)] else []
  {
    assert subs[..i + 1] == subs[..i] + [subs[i]];
    WritesConcat(subs[..i], [subs[i]], connected, subject, payload);
    assert [subs[i]][1..] == [];
  }

  lemma {:induction false} WritesNone(subs: seq<Suscription>, connected: set<nat>, subject: string, payload: string)
    ensures Writes(subs, connected, subject, payload) == []
      <==> forall i :: 0 <= i < |subs| && subs[i].connection in connected ==> !Matches(subs[i].subject, subject)
  {
    if subs != [] {
      WritesNone(subs[1..], connected, subject, payload);
      assert forall i :: 1 <= i < |subs| ==> subs[i] == subs[1..][i - 1];
    }
  }

  /** A publication writes to every connected entry that matches, if it comes from a consumer of a stream, or
      there are no permissions, or the client has one to publish that matches, whichever; otherwise it
      changes nothing. */
  lemma PubWritesExactly(b: Broker, client: nat, subject: string, payload: string)
    requires Countable(b.subs, b.connected, subject)
    ensures var b' := Step(b, Pub(client, subject, payload));
      var allowed := client == 0 || b.permissions.None? || (client in b.permissions.value
        && exists i :: 0 <= i < |b.permissions.value[client].publish| && Matches(b.permissions.value[client].publish[i], subject));
      && (!allowed ==> b' == b)
      && (allowed ==> b'.out == b.out + Writes(b.subs, b.connected, subject, payload))
      && (b'.out != b.out <==>
            allowed && exists i :: 0 <= i < |b.subs| && b.subs[i].connection in b.connected && Matches(b.subs[i].subject, subject))
  {
    WritesNone(b.subs, b.connected, subject, payload);
    var w := Writes(b.subs, b.connected, subject, payload);
    assert |b.out + w| == |b.out| + |w|;
    assert b.out + [] == b.out;
  }

  lemma {:induction false} KeptAre(subs: seq<Suscription>, connection: nat, s: Suscription)
    ensures s in Keep(subs, OthersThan(connection)) <==> s in subs && s.connection != connection
  {
    if subs != [] {
      KeptAre(subs[1..], connection, s);
      assert s in subs <==> s == subs[0] || s in subs[1..];
    }
  }

  /** A shutdown closes the connection and takes its entries, and only these, off the table; a connection that is
      dropped keeps them. */
  lemma ClosingExactly(b: Broker, connection: nat)
    ensures var b' := Step(b, Shutdown(connection));
      && (forall c :: c in b'.connected <==> c in b.connected && c != connection)
      && (forall s :: s in b'.subs <==> s in b.subs && s.connection != connection)
      && b'.out == b.out && b'.permissions == b.permissions
    ensures var b' := Step(b, Quit(connection));
      && (forall c :: c in b'.connected <==> c in b.connected && c != connection)
      && b'.subs == b.subs && b'.out == b.out && b'.permissions == b.permissions
    ensures var b' := Step(b, Accept(connection));
      && (forall c :: c in b'.connected <==> c in b.connected || c == connection)
      && b'.subs == b.subs && b'.out == b.out && b'.permissions == b.permissions
  {
    forall s ensures s in Keep(b.subs, OthersThan(connection)) <==> s in b.subs && s.connection != connection {
      KeptAre(b.subs, connection, s);
    }
  }

  /** `UNSUB` limits or removes the first entry of the connection and the sid, and no other. */
  lemma UnsubExactly(b: Broker, connection: nat, sid: string, maxMsgs: Option<nat>, i: nat)
    requires i < |b.subs| && b.subs[i].connection == connection && b.subs[i].sid == sid
    requires forall j :: 0 <= j < i ==> !(b.subs[j].connection == connection && b.subs[j].sid == sid)
    ensures var b' := Step(b, Unsub(connection, sid, maxMsgs));
      && b' == b.(subs := b'.subs)
      && (maxMsgs == None ==> b'.subs == b.subs[..i] + b.subs[i + 1..])
      && (maxMsgs.Some? ==> b'.subs == b.subs[..i] + [b.subs[i].(maxMsgs := maxMsgs)] + b.subs[i + 1..])
  {
    assert FirstOf(b.subs, connection, sid) == i;
  }

  /** Without such an entry it does nothing. */
  lemma UnsubUnknown(b: Broker, connection: nat, sid: string, maxMsgs: Option<nat>)
    requires forall j :: 0 <= j < |b.subs| ==> !(b.subs[j].connection == connection && b.subs[j].sid == sid)
    ensures Step(b, Unsub(connection, sid, maxMsgs)) == b
  {
    assert FirstOf(b.subs, connection, sid) == |b.subs|;
  }

  lemma {:induction false} RemainingAre(subs: seq<Suscription>, s: Suscription)
    ensures s in Keep(subs, Remaining()) <==> s in subs && s.maxMsgs != Some(0)
  {
    if subs != [] {
      RemainingAre(subs[1..], s);
      assert s in subs <==> s == subs[0] || s in subs[1..];
    }
  }

  /** The table after a publication, entry by entry: those that got the message have one less to go, and those with none
      to go leave, unless the publisher is gone. */
  lemma CountedEntries(b: Broker, client: nat, subject: string, payload: string, i: nat)
    requires Countable(b.subs, b.connected, subject) && i < |b.subs|
    ensures var counted := Counted(b.subs, b.connected, subject);
      && |counted| == |b.subs|
      && counted[i] == (if b.subs[i].connection in b.connected && Matches(b.subs[i].subject, subject) && b.subs[i].maxMsgs.Some?
                        then b.subs[i].(maxMsgs := Some(b.subs[i].maxMsgs.value - 1)) else b.subs[i])
    ensures var b' := Step(b, Pub(client, subject, payload));
      MayPublish(b, client, subject) ==>
        && (client != 0 && client !in b.connected ==> b'.subs == Counted(b.subs, b.connected, subject))
        && (client == 0 || client in b.connected ==>
              forall s :: s in b'.subs <==> s in Counted(b.subs, b.connected, subject) && s.maxMsgs != Some(0))
  {
    forall s ensures s in Keep(Counted(b.subs, b.connected, subject), Remaining())
      <==> s in Counted(b.subs, b.connected, subject) && s.maxMsgs != Some(0) {
      RemainingAre(Counted(b.subs, b.connected, subject), s);
    }
  }

  // ----- permissions over runs -----

  /** Every subject that the entry receives is one its connection may subscribe to. */
  ghost predicate Covered(s: Suscription, permissions: map<nat, Permissions>) {
    && s.connection in permissions
    && forall subject: string :: Matches(s.subject, subject) ==> CanSubscribe(permissions[s.connection].subscribe, subject)
  }

  /** The subscription passes the check of the server. */
  predicate Granted(b: Broker, c: Command) {
    c.Sub? && ValidSubject(c.subject) && MaySubscribe(b, c.connection, c.subject)
  }

  /** A subscription that the permissions of its connection cover. */
  predicate SafeToSubscribe(c: Command, permissions: map<nat, Permissions>) {
    c.Sub? && c.connection in permissions ==> CoveredBy(permissions[c.connection].subscribe, c.subject)
  }

  predicate Allowed(d: Delivery, permissions: map<nat, Permissions>) {
    d.connection in permissions && CanSubscribe(permissions[d.connection].subscribe, d.subject)
  }

  ghost predicate AllCovered(subs: seq<Suscription>, permissions: map<nat, Permissions>) {
    forall i :: 0 <= i < |subs| ==> Covered(subs[i], permissions)
  }

  predicate AllAllowed(out: seq<Delivery>, permissions: map<nat, Permissions>) {
    forall i :: 0 <= i < |out| ==> Allowed(out[i], permissions)
  }

  ghost predicate Proper(b: Broker) {
    b.permissions.Some? && AllCovered(b.subs, b.permissions.value) && AllAllowed(b.out, b.permissions.value)
  }

  lemma SubIsCovered(b: Broker, c: Command)
    requires b.permissions.Some? && Granted(b, c) && SafeToSubscribe(c, b.permissions.value)
    ensures Covered(Suscription(c.connection, c.subject, None, c.sid), b.permissions.value)
  {
    var allowed := b.permissions.value[c.connection].subscribe;
    forall subject: string | Matches(c.subject, subject) ensures CanSubscribe(allowed, subject) {
      CoveredReceives(allowed, c.subject, subject);
    }
  }

  lemma {:induction false} KeepCovered(subs: seq<Suscription>, f: Suscription -> bool, permissions: map<nat, Permissions>)
    requires AllCovered(subs, permissions)
    ensures AllCovered(Keep(subs, f), permissions)
  {
    if subs != [] {
      KeepCovered(subs[1..], f, permissions);
    }
  }

  lemma {:induction false} WritesAllowed(subs: seq<Suscription>, connected: set<nat>, subject: string, payload: string, permissions: map<nat, Permissions>)
    requires AllCovered(subs, permissions)
    ensures AllAllowed(Writes(subs, connected, subject, payload), permissions)
  {
    if subs != [] {
      WritesAllowed(subs[1..], connected, subject, payload, permissions);
      if Hit(subs[0], connected, subject) {
        assert Covered(subs[0], permissions);
        assert Allowed(Delivery(subs[0].connection, subs[0].sid, subject, payload), permissions);
      }
    }
  }

  lemma {:induction false} UnsubscribedCovered(subs: seq<Suscription>, connection: nat, sid: string, maxMsgs: Option<nat>, permissions: map<nat, Permissions>)
    requires AllCovered(subs, permissions)
    ensures AllCovered(Unsubscribed(subs, connection, sid, maxMsgs), permissions)
  {
    var i := FirstOf(subs, connection, sid);
    if i < |subs| {
      assert Covered(subs[i], permissions);
    }
  }

  lemma CountedCovered(subs: seq<Suscription>, connected: set<nat>, subject: string, permissions: map<nat, Permissions>)
    requires Countable(subs, connected, subject) && AllCovered(subs, permissions)
    ensures AllCovered(Counted(subs, connected, subject), permissions)
  {
    var c := Counted(subs, connected, subject);
    forall i | 0 <= i < |c| ensures Covered(c[i], permissions) {
      assert Covered(subs[i], permissions);
    }
  }

  lemma StepProper(b: Broker, c: Command)
    requires Proper(b) && (c.Pub? ==> Countable(b.subs, b.connected, c.subject))
    requires Granted(b, c) ==> SafeToSubscribe(c, b.permissions.value)
    ensures Proper(Step(b, c)) && Step(b, c).permissions == b.permissions
  {
    var p := b.permissions.value;
    match c
    case Accept(_) =>
    case Sub(connection, subject, sid) =>
      if Granted(b, c) {
        SubIsCovered(b, c);
      }
    case Unsub(connection, sid, maxMsgs) => UnsubscribedCovered(b.subs, connection, sid, maxMsgs, p);
    case Pub(client, subject, payload) =>
      CountedCovered(b.subs, b.connected, subject, p);
      KeepCovered(Counted(b.subs, b.connected, subject), Remaining(), p);
      WritesAllowed(b.subs, b.connected, subject, payload, p);
    case Shutdown(connection) => KeepCovered(b.subs, OthersThan(connection), p);
    case Quit(_) =>
  }

  lemma GrantedLater(b: Broker, b': Broker, c: Command)
    requires b'.permissions == b.permissions
    ensures Granted(b', c) <==> Granted(b, c)
  {
  }

  /** Over every run, refused subscriptions included: if the permissions of a connection cover what
      the server grants it, the connection receives only subjects that it may subscribe to. */
  lemma {:induction false} OnlyAllowedSubjects(b: Broker, run: seq<Command>)
    requires Proper(b) && AllCountable(b, run)
    requires forall i :: 0 <= i < |run| && Granted(b, run[i]) ==> SafeToSubscribe(run[i], b.permissions.value)
    ensures Proper(Run(b, run))
    decreases run
  {
    if run != [] {
      StepProper(b, run[0]);
      var b' := Step(b, run[0]);
      forall i | 0 <= i < |run[1..]| && Granted(b', run[1..][i]) ensures SafeToSubscribe(run[1..][i], b'.permissions.value) {
        GrantedLater(b, b', run[i + 1]);
      }
      OnlyAllowedSubjects(b', run[1..]);
    }
  }

  /** What the server grants without a `>` is covered: the check needs nothing else. */
  lemma ClosedIsSafe(b: Broker, c: Command)
    requires b.permissions.Some? && Granted(b, c) && !Open(c.subject)
    ensures SafeToSubscribe(c, b.permissions.value)
  {
    var allowed := b.permissions.value[c.connection].subscribe;
    var i :| 0 <= i < |allowed| && Matches(allowed[i], c.subject);
    forall s: string | Concrete(s) && Matches(c.subject, s) ensures CanSubscribe(allowed, s) {
      MatchesThrough(allowed[i], c.subject, s);
    }
    ListCoverageExact(allowed, c.subject);
  }

  /** Over every run in which nobody asks for an open subject, the check of the server alone keeps
      every connection to the subjects that it may subscribe to. */
  lemma CheckSuffices(b: Broker, run: seq<Command>)
    requires Proper(b) && AllCountable(b, run)
    requires forall i :: 0 <= i < |run| && run[i].Sub? ==> !Open(run[i].subject)
    ensures Proper(Run(b, run))
  {
    forall i | 0 <= i < |run| && Granted(b, run[i]) ensures SafeToSubscribe(run[i], b.permissions.value) {
      ClosedIsSafe(b, run[i]);
    }
    OnlyAllowedSubjects(b, run);
  }

  /** A subscription that is refused, which the permissions do not cover. */
  lemma RefusedIsHarmless()
    ensures var b := Broker([], {1}, Some(map[1 := Permissions(["a"], [])]), []);
      !Granted(b, Sub(1, "b", "1")) && !SafeToSubscribe(Sub(1, "b", "1"), b.permissions.value) && Step(b, Sub(1, "b", "1")) == b
  {
    SplitFree("a", '.');
    SplitFree("b", '.');
    assert ["a"][0] != ["b"][0];
    if CoveredBy(["a"], "b") {
      CoveredReceives(["a"], "b", "b");
    }
  }

  lemma {:induction false} WritesHas(subs: seq<Suscription>, i: nat, connected: set<nat>, subject: string, payload: string)
    requires i < |subs| && Hit(subs[i], connected, subject)
    ensures Delivery(subs[i].connection, subs[i].sid, subject, payload) in Writes(subs, connected, subject, payload)
  {
    if i > 0 {
      WritesHas(subs[1..], i - 1, connected, subject, payload);
    }
  }

  /** The subscription is accepted, on a connection that is there. */
  predicate Accepted(b: Broker, c: Command) {
    Granted(b, c) && b.permissions.Some? && c.connection in b.connected
  }

  lemma NewlyCountable(b: Broker, c: Command, subject: string)
    requires Accepted(b, c) && NoZero(b.subs)
    ensures Countable(Step(b, c).subs, b.connected, subject)
  {
  }

  /** What a consumer of a stream publishes next. */
  function NextPublished(b: Broker, c: Command, subject: string, payload: string): seq<Delivery>
    requires Accepted(b, c) && NoZero(b.subs)
  {
    NewlyCountable(b, c, subject);
    Published(Step(b, c), 0, subject, payload).out
  }

  lemma UncoveredLeaks(b: Broker, c: Command) returns (subject: string)
    requires Proper(b) && Accepted(b, c) && NoZero(b.subs) && !SafeToSubscribe(c, b.permissions.value)
    ensures !AllAllowed(NextPublished(b, c, subject, ""), b.permissions.value)
  {
    subject := UncoveredSubject(b.permissions.value[c.connection].subscribe, c.subject);
    var b' := Step(b, c);
    WritesHas(b'.subs, |b.subs|, b.connected, subject, "");
    var d := Delivery(c.connection, c.sid, subject, "");
    var w := Writes(b'.subs, b.connected, subject, "");
    assert d in w && !Allowed(d, b.permissions.value);
    var out := NextPublished(b, c, subject, "");
    assert out == b.out + w;
    var k :| 0 <= k < |w| && w[k] == d;
    assert out[|b.out| + k] == d;
  }

  lemma CoveredIsSafe(b: Broker, c: Command, subject: string, payload: string)
    requires Proper(b) && Accepted(b, c) && NoZero(b.subs) && SafeToSubscribe(c, b.permissions.value)
    ensures AllAllowed(NextPublished(b, c, subject, payload), b.permissions.value)
  {
    StepProper(b, c);
    NewlyCountable(b, c, subject);
    StepProper(Step(b, c), Pub(0, subject, payload));
  }

  /** An accepted subscription can bring its connection a subject that it may not subscribe to, with
      the very next publication, exactly when the permissions do not cover it. */
  lemma SafeSubscriptionExact(b: Broker, c: Command)
    requires Proper(b) && Accepted(b, c) && NoZero(b.subs)
    ensures SafeToSubscribe(c, b.permissions.value) <==>
      forall subject: string, payload: string :: AllAllowed(NextPublished(b, c, subject, payload), b.permissions.value)
  {
    if SafeToSubscribe(c, b.permissions.value) {
      forall subject: string, payload: string ensures AllAllowed(NextPublished(b, c, subject, payload), b.permissions.value) {
        CoveredIsSafe(b, c, subject, payload);
      }
    } else {
      var subject := UncoveredLeaks(b, c);
    }
  }

  // ----- after a connection is closed -----

  /** The writes to a connection. */
  function WritesOn(out: seq<Delivery>, connection: nat): seq<Delivery> {
    if out == [] then []
    else
      var d := out[|out| - 1];
      WritesOn(out[..|out| - 1], connection) + if d.connection == connection then [d] else []
  }

  predicate NoneOn(out: seq<Delivery>, connection: nat) {
    forall i :: 0 <= i < |out| ==> out[i].connection != connection
  }

  lemma {:induction false} NothingOn(out: seq<Delivery>, more: seq<Delivery>, connection: nat)
    requires NoneOn(more, connection)
    ensures WritesOn(out + more, connection) == WritesOn(out, connection)
  {
    if more == [] {
      assert out + more == out;
    } else {
      assert (out + more)[..|out + more| - 1] == out + more[..|more| - 1];
      NothingOn(out, more[..|more| - 1], connection);
    }
  }

  lemma {:induction false} WritesElsewhere(subs: seq<Suscription>, connected: set<nat>, subject: string, payload: string, connection: nat)
    requires connection !in connected
    ensures NoneOn(Writes(subs, connected, subject, payload), connection)
  {
    if subs != [] {
      WritesElsewhere(subs[1..], connected, subject, payload, connection);
    }
  }

  /** After `SHUTDOWN`, or when the server drops the connection, and until a new connection gets that
      number, nothing is written to it, whatever it goes on to ask for. */
  lemma {:induction false} ClosedReceivesNothing(b: Broker, run: seq<Command>, connection: nat)
    requires AllCountable(b, run) && connection !in b.connected
    requires forall i :: 0 <= i < |run| ==> run[i] != Accept(connection)
    ensures WritesOn(Run(b, run).out, connection) == WritesOn(b.out, connection)
    decreases run
  {
    if run != [] {
      var c := run[0];
      if c.Pub? && MayPublish(b, c.client, c.subject) {
        WritesElsewhere(b.subs, b.connected, c.subject, c.payload, connection);
        NothingOn(b.out, Writes(b.subs, b.connected, c.subject, c.payload), connection);
      }
      ClosedReceivesNothing(Step(b, c), run[1..], connection);
    }
  }
}
