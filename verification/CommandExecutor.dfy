/** The broker's table of subscriptions: SUB, UNSUB, PUB and SHUTDOWN. */
module CommandExecutors {
  import opened Wrappers
  import opened Sequences
  import opened Subjects

  datatype Suscription = Suscription(connection: nat, subject: string, maxMsgs: Option<nat>, sid: string) {
    /** Entries are named by their connection and the sid that the client chose. */
    predicate Is(connection: nat, sid: string) {
      this.connection == connection && this.sid == sid
    }
  }

  /** A message written to a connection for one of its subscriptions. */
  datatype Delivery = Delivery(connection: nat, sid: string, subject: string, payload: string)

  datatype Permissions = Permissions(subscribe: seq<string>, publish: seq<string>)

  datatype Broker = Broker(subs: seq<Suscription>, connected: set<nat>, permissions: Option<map<nat, Permissions>>, out: seq<Delivery>)

  datatype Command =
    | Accept(connection: nat)
    | Sub(connection: nat, subject: string, sid: string)
    | Unsub(connection: nat, sid: string, maxMsgs: Option<nat>)
    | Pub(client: nat, subject: string, payload: string)
    | Shutdown(connection: nat)
    | Quit(connection: nat)

  // ----- permissions -----

  predicate MaySubscribe(b: Broker, connection: nat, subject: string) {
    b.permissions.None? || (connection in b.permissions.value && CanSubscribe(b.permissions.value[connection].subscribe, subject))
  }

  /** Client 0 stands for the consumers of the streams. */
  predicate MayPublish(b: Broker, client: nat, subject: string) {
    client == 0 || b.permissions.None?
    || (client in b.permissions.value && CanSubscribe(b.permissions.value[client].publish, subject))
  }

  // ----- publishing -----

  /** The entry gets the message. */
  predicate Hit(s: Suscription, connected: set<nat>, subject: string) {
    s.connection in connected && Matches(s.subject, subject)
  }

  /** Counting down from 0 would overflow. */
  predicate Countable(subs: seq<Suscription>, connected: set<nat>, subject: string) {
    forall i :: 0 <= i < |subs| && Hit(subs[i], connected, subject) ==> subs[i].maxMsgs != Some(0)
  }

  function Decreased(s: Suscription): Suscription
    requires s.maxMsgs != Some(0)
  {
    if s.maxMsgs.Some? then s.(maxMsgs := Some(s.maxMsgs.value - 1)) else s
  }

  function Counted(subs: seq<Suscription>, connected: set<nat>, subject: string): (r: seq<Suscription>)
    requires Countable(subs, connected, subject)
    ensures |r| == |subs|
  {
    seq(|subs|, i requires 0 <= i < |subs| =>
      if Hit(subs[i], connected, subject) then Decreased(subs[i]) else subs[i])
  }

  function Writes(subs: seq<Suscription>, connected: set<nat>, subject: string, payload: string): seq<Delivery> {
    if subs == [] then []
    else if Hit(subs[0], connected, subject)
    then [Delivery(subs[0].connection, subs[0].sid, subject, payload)] + Writes(subs[1..], connected, subject, payload)
    else Writes(subs[1..], connected, subject, payload)
  }

  /** `retain`. */
  function Keep(subs: seq<Suscription>, keep: Suscription -> bool): seq<Suscription> {
    if subs == [] then []
    else if keep(subs[0]) then [subs[0]] + Keep(subs[1..], keep)
    else Keep(subs[1..], keep)
  }

  function Remaining(): Suscription -> bool {
    (s: Suscription) => s.maxMsgs != Some(0)
  }

  function OthersThan(connection: nat): Suscription -> bool {
    (s: Suscription) => s.connection != connection
  }

  function Published(b: Broker, client: nat, subject: string, payload: string): Broker
    requires Countable(b.subs, b.connected, subject)
  {
    if !MayPublish(b, client, subject) then b
    else
      var subs := Counted(b.subs, b.connected, subject);
      b.(out := b.out + Writes(b.subs, b.connected, subject, payload),
         subs := if client != 0 && client !in b.connected then subs else Keep(subs, Remaining()))
  }

  // ----- counting down entry by entry -----

  /** The first entry that gets the message and has no message left. */
  function FirstZero(subs: seq<Suscription>, connected: set<nat>, subject: string): (z: nat)
    ensures z <= |subs|
  {
    FirstIndex(subs, (s: Suscription) => Hit(s, connected, subject) && s.maxMsgs == Some(0))
  }

  lemma FirstZeroIs(subs: seq<Suscription>, i: nat, connected: set<nat>, subject: string)
    requires i < |subs| && Hit(subs[i], connected, subject) && subs[i].maxMsgs == Some(0)
    requires Countable(subs[..i], connected, subject)
    ensures !Countable(subs, connected, subject) && FirstZero(subs, connected, subject) == i
  {
    forall j | 0 <= j < i ensures !(Hit(subs[j], connected, subject) && subs[j].maxMsgs == Some(0)) {
      assert subs[..i][j] == subs[j];
    }
  }

  /** The table when the first `i` entries have been dealt with. */
  function Partly(subs: seq<Suscription>, i: nat, connected: set<nat>, subject: string): (r: seq<Suscription>)
    requires i <= |subs| && Countable(subs[..i], connected, subject)
    ensures |r| == |subs|
  {
    Counted(subs[..i], connected, subject) + subs[i..]
  }

  lemma PartlyEnds(subs: seq<Suscription>, connected: set<nat>, subject: string)
    ensures Partly(subs, 0, connected, subject) == subs
    ensures Countable(subs[..|subs|], connected, subject) <==> Countable(subs, connected, subject)
    ensures Countable(subs, connected, subject) ==> Partly(subs, |subs|, connected, subject) == Counted(subs, connected, subject)
  {
    assert subs[..|subs|] == subs;
  }

  lemma PartlyNext(subs: seq<Suscription>, i: nat, connected: set<nat>, subject: string)
    requires i < |subs| && Countable(subs[..i], connected, subject)
    ensures Partly(subs, i, connected, subject)[i] == subs[i]
    ensures !(Hit(subs[i], connected, subject) && subs[i].maxMsgs == Some(0)) ==>
      && Countable(subs[..i + 1], connected, subject)
      && Partly(subs, i + 1, connected, subject)
         == Partly(subs, i, connected, subject)[i := if Hit(subs[i], connected, subject) then Decreased(subs[i]) else subs[i]]
  {
    assert subs[..i + 1] == subs[..i] + [subs[i]];
  }

  lemma {:induction false} WritesConcat(a: seq<Suscription>, b: seq<Suscription>, connected: set<nat>, subject: string, payload: string)
    ensures Writes(a + b, connected, subject, payload) == Writes(a, connected, subject, payload) + Writes(b, connected, subject, payload)
  {
    if a == [] {
      assert a + b == b;
    } else {
      assert (a + b)[1..] == a[1..] + b;
      WritesConcat(a[1..], b, connected, subject, payload);
    }
  }

  lemma WritesOneMore(subs: seq<Suscription>, i: nat, connected: set<nat>, subject: string, payload: string)
    requires i < |subs|
    ensures Writes(subs[..i + 1], connected, subject, payload)
      == Writes(subs[..i], connected, subject, payload)
         + if Hit(subs[i], connected, subject) then [Delivery(subs[i].connection, subs[i].sid, subject, payload)] else []
  {
    assert subs[..i + 1] == subs[..i] + [subs[i]];
    WritesConcat(subs[..i], [subs[i]], connected, subject, payload);
    assert [subs[i]][1..] == [];
  }

  /** The first `z` entries of `was` have been dealt with. */
  ghost predicate DealtWith(was: seq<Suscription>, before: seq<Delivery>, connected: set<nat>, subject: string, payload: string,
                            z: nat, subs: seq<Suscription>, out: seq<Delivery>)
  {
    && z <= |was| && Countable(was[..z], connected, subject)
    && subs == Partly(was, z, connected, subject) && out == before + Writes(was[..z], connected, subject, payload)
  }

  lemma DealtWithNone(was: seq<Suscription>, before: seq<Delivery>, connected: set<nat>, subject: string, payload: string)
    ensures DealtWith(was, before, connected, subject, payload, 0, was, before)
  {
    PartlyEnds(was, connected, subject);
    assert before + [] == before;
  }

  lemma DealtWithOneMore(was: seq<Suscription>, before: seq<Delivery>, connected: set<nat>, subject: string, payload: string,
                         z: nat, subs: seq<Suscription>, out: seq<Delivery>)
    requires DealtWith(was, before, connected, subject, payload, z, subs, out) && z < |was|
    ensures subs[z] == was[z]
    ensures !(Hit(was[z], connected, subject) && was[z].maxMsgs == Some(0)) ==>
      DealtWith(was, before, connected, subject, payload, z + 1,
                subs[z := if Hit(was[z], connected, subject) then Decreased(was[z]) else was[z]],
                out + if Hit(was[z], connected, subject) then [Delivery(was[z].connection, was[z].sid, subject, payload)] else [])
    ensures Hit(was[z], connected, subject) && was[z].maxMsgs == Some(0) ==>
      !Countable(was, connected, subject) && FirstZero(was, connected, subject) == z
  {
    PartlyNext(was, z, connected, subject);
    WritesOneMore(was, z, connected, subject, payload);
    if Hit(was[z], connected, subject) && was[z].maxMsgs == Some(0) {
      FirstZeroIs(was, z, connected, subject);
    }
  }

  // ----- the other commands -----

  function FirstOf(subs: seq<Suscription>, connection: nat, sid: string): (i: nat)
    ensures i <= |subs|
    ensures i < |subs| ==> subs[i].Is(connection, sid)
    ensures forall j :: 0 <= j < i ==> !subs[j].Is(connection, sid)
  {
    FirstIndex(subs, (s: Suscription) => s.Is(connection, sid))
  }

  /** `UNSUB`: the first entry with that name is removed or gets a limit. */
  function Unsubscribed(subs: seq<Suscription>, connection: nat, sid: string, maxMsgs: Option<nat>): seq<Suscription> {
    var i := FirstOf(subs, connection, sid);
    if i == |subs| then subs
    else if maxMsgs.Some? then subs[i := subs[i].(maxMsgs := maxMsgs)]
    else subs[..i] + subs[i + 1..]
  }

  function Step(b: Broker, c: Command): Broker
    requires c.Pub? ==> Countable(b.subs, b.connected, c.subject)
  {
    match c
    case Accept(connection) => b.(connected := b.connected + {connection})
    case Sub(connection, subject, sid) =>
      if ValidSubject(subject) && MaySubscribe(b, connection, subject)
      then b.(subs := b.subs + [Suscription(connection, subject, None, sid)])
      else b
    case Unsub(connection, sid, maxMsgs) => b.(subs := Unsubscribed(b.subs, connection, sid, maxMsgs))
    case Pub(client, subject, payload) => Published(b, client, subject, payload)
    case Shutdown(connection) =>
      b.(connected := b.connected - {connection}, subs := Keep(b.subs, OthersThan(connection)))
    case Quit(connection) => b.(connected := b.connected - {connection})
  }

  lemma {:induction false} NoneOf(subs: seq<Suscription>, connection: nat)
    ensures forall i :: 0 <= i < |Keep(subs, OthersThan(connection))| ==> Keep(subs, OthersThan(connection))[i].connection != connection
  {
    if subs != [] {
      NoneOf(subs[1..], connection);
    }
  }

  // ----- the executor -----

  class CommandExecutor {
    var suscriptions: seq<Suscription>
    /** The connections of `clientes_map`. */
    var clientes: set<nat>
    var out: seq<Delivery>
    const permissions: Option<map<nat, Permissions>>

    constructor (permissions: Option<map<nat, Permissions>>)
      ensures View() == Broker([], {}, permissions, [])
    {
      this.permissions := permissions;
      suscriptions, clientes, out := [], {}, [];
    }

    ghost function View(): Broker
      reads this
    {
      Broker(suscriptions, clientes, permissions, out)
    }

    method Sub(connection: nat, subject: string, sid: string) returns (r: Result<(), string>)
      modifies this`suscriptions
      ensures View() == Step(old(View()), Command.Sub(connection, subject, sid))
      ensures r.Ok? <==> ValidSubject(subject) && MaySubscribe(old(View()), connection, subject) && connection in clientes
    {
      var valid := ValidateSubject(subject);
      if valid.Err? {
        return Err("Invalid subject");
      }
      if permissions.Some? {
        if connection !in permissions.value || !CanSubscribe(permissions.value[connection].subscribe, subject) {
          return Err("Permissions violation");
        }
      }
      suscriptions := suscriptions + [Suscription(connection, subject, None, sid)];
      if connection !in clientes {
        return Err("No stream");
      }
      r := Ok(());
    }

    method Unsub(connection: nat, sid: string, maxMsgs: Option<nat>) returns (r: Result<(), string>)
      modifies this`suscriptions
      ensures View() == Step(old(View()), Command.Unsub(connection, sid, maxMsgs))
      ensures r.Ok? <==> connection in clientes && FirstOf(old(suscriptions), connection, sid) < |old(suscriptions)|
    {
      var i := FirstOf(suscriptions, connection, sid);
      if i == |suscriptions| {
        return Err("No match for the SID");
      }
      if maxMsgs.Some? {
        suscriptions := suscriptions[i := suscriptions[i].(maxMsgs := maxMsgs)];
      } else {
        suscriptions := suscriptions[..i] + suscriptions[i + 1..];
      }
      if connection !in clientes {
        return Err("No stream");
      }
      r := Ok(());
    }

    method RemoveSubsWithoutRemainingMsgs()
      modifies this`suscriptions
      ensures suscriptions == Keep(old(suscriptions), Remaining())
    {
      suscriptions := Keep(suscriptions, Remaining());
    }

    /** One turn of the loop of `write_publish_msg`. */
    method WriteToOne(i: nat, payload: string, subject: string) returns (ok: bool)
      requires i < |suscriptions|
      modifies this`suscriptions, this`out
      ensures ok <==> !(Hit(old(suscriptions)[i], clientes, subject) && old(suscriptions)[i].maxMsgs == Some(0))
      ensures !ok ==> suscriptions == old(suscriptions) && out == old(out)
      ensures ok ==>
        var s := old(suscriptions)[i];
        && suscriptions == old(suscriptions)[i := if Hit(s, clientes, subject) then Decreased(s) else s]
        && out == old(out) + if Hit(s, clientes, subject) then [Delivery(s.connection, s.sid, subject, payload)] else []
    {
      var s := suscriptions[i];
      ok := true;
      if Matches(s.subject, subject) && s.connection in clientes {
        if s.maxMsgs == Some(0) {
          return false;
        }
        if s.maxMsgs.Some? {
          suscriptions := suscriptions[i := s.(maxMsgs := Some(s.maxMsgs.value - 1))];
        }
        out := out + [Delivery(s.connection, s.sid, subject, payload)];
      }
    }

    /** The loop of `write_publish_msg`. An entry whose limit is 0 cannot be counted down: the
        executor's thread ends there, in the middle of the loop. */
    method WriteToSubscribers(payload: string, subject: string) returns (z: nat)
      modifies this`suscriptions, this`out
      ensures z <= |old(suscriptions)| && Countable(old(suscriptions)[..z], clientes, subject)
      ensures z == |old(suscriptions)| <==> Countable(old(suscriptions), clientes, subject)
      ensures z < |old(suscriptions)| ==> z == FirstZero(old(suscriptions), clientes, subject)
      ensures out == old(out) + Writes(old(suscriptions)[..z], clientes, subject, payload)
      ensures suscriptions == Partly(old(suscriptions), z, clientes, subject)
    {
      ghost var was, before := suscriptions, out;
      DealtWithNone(was, before, clientes, subject, payload);
      z := 0;
      while z < |suscriptions|
        invariant |suscriptions| == |was| && DealtWith(was, before, clientes, subject, payload, z, suscriptions, out)
      {
        DealtWithOneMore(was, before, clientes, subject, payload, z, suscriptions, out);
        var ok := WriteToOne(z, payload, subject);
        if !ok {
          return;
        }
        z := z + 1;
      }
      PartlyEnds(was, clientes, subject);
    }

    method WritePublishMsg(payload: string, subject: string, isConsumer: bool, client: nat) returns (r: Result<(), string>)
      modifies this`suscriptions, this`out
      ensures !Countable(old(suscriptions), clientes, subject) ==>
        var z := FirstZero(old(suscriptions), clientes, subject);
        && r == Err("overflow") && Countable(old(suscriptions)[..z], clientes, subject)
        && out == old(out) + Writes(old(suscriptions)[..z], clientes, subject, payload)
        && suscriptions == Partly(old(suscriptions), z, clientes, subject)
      ensures Countable(old(suscriptions), clientes, subject) ==>
        && out == old(out) + Writes(old(suscriptions), clientes, subject, payload)
        && (r.Ok? <==> isConsumer || client in clientes)
        && suscriptions == (if r.Ok? then Keep(Counted(old(suscriptions), clientes, subject), Remaining())
                            else Counted(old(suscriptions), clientes, subject))
    {
      var was := suscriptions;
      var z := WriteToSubscribers(payload, subject);
      if z < |was| {
        return Err("overflow");
      }
      PartlyEnds(was, clientes, subject);
      assert was[..|was|] == was;
      if !isConsumer && client !in clientes {
        return Err("No stream");
      }
      RemoveSubsWithoutRemainingMsgs();
      r := Ok(());
    }

    method Publish(client: nat, subject: string, payload: string)
      modifies this`suscriptions, this`out
      ensures Countable(old(suscriptions), clientes, subject) ==> View() == Step(old(View()), Pub(client, subject, payload))
    {
      var allowed := client == 0 || permissions.None?
        || (client in permissions.value && CanSubscribe(permissions.value[client].publish, subject));
      if allowed {
        var r := WritePublishMsg(payload, subject, client == 0, client);
      }
    }

    method Shutdown(client: nat)
      modifies this`suscriptions, this`clientes
      ensures View() == Step(old(View()), Command.Shutdown(client))
      ensures client !in clientes && forall i :: 0 <= i < |suscriptions| ==> suscriptions[i].connection != client
    {
      clientes := clientes - {client};
      NoneOf(suscriptions, client);
      suscriptions := Keep(suscriptions, OthersThan(client));
    }

    /** `quitar_cliente` of the server: the connection goes, its entries stay. */
    method QuitarCliente(client: nat)
      modifies this`clientes
      ensures View() == Step(old(View()), Quit(client))
    {
      clientes := clientes - {client};
    }
  }
}
