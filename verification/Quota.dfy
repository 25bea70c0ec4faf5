/** A limit that the broker and the client both count down, while messages are under way. */
module Quota {
  import opened Wrappers
  import opened Sequences
  import opened Subjects
  import Broker = CommandExecutors
  import Runs = CommandExecutorRuns
  import opened Rotation
  import opened Client

  /** The client handles what the broker wrote, in order; it looks at the subjects only. */
  function Heard(l: Local, ds: seq<Broker.Delivery>): Local
    decreases ds
  {
    if ds == [] then l else Heard(Updated(l, ds[0].subject, ds[0].payload, None), ds[1..])
  }

  function WithId(id: nat): Handler -> bool {
    (h: Handler) => h.id == id
  }

  /** The subscriptions of the number: one or none. */
  function Mine(l: Local, id: nat): seq<Handler> {
    Matching(l.subs, WithId(id), true)
  }

  /** Of the client's subscriptions those of the number, and no other, match the subject. */
  predicate Alone(subs: seq<Handler>, id: nat, subject: string) {
    forall i :: 0 <= i < |subs| ==> (Matches(subs[i].subject, subject) <==> subs[i].id == id)
  }

  predicate AloneFor(subs: seq<Handler>, id: nat, ds: seq<Broker.Delivery>) {
    forall k :: 0 <= k < |ds| ==> Alone(subs, id, ds[k].subject)
  }

  /** What a subscription is sent for the deliveries. */
  function Texts(h: Handler, ds: seq<Broker.Delivery>): seq<Received> {
    seq(|ds|, k requires 0 <= k < |ds| => ReceivedBy(h, ds[k].payload, None))
  }

  // ----- one delivery -----

  lemma SameFirst(subs: seq<Handler>, id: nat, subject: string)
    requires Alone(subs, id, subject)
    ensures FirstIndex(subs, ForSubject(subject)) == FirstIndex(subs, WithId(id))
  {
  }

  lemma IdIsNominal(id: nat)
    ensures Nominal(WithId(id))
  {
  }

  lemma FirstMine(subs: seq<Handler>, id: nat)
    ensures var i := FirstIndex(subs, WithId(id));
      if i == |subs| then Matching(subs, WithId(id), true) == []
      else Matching(subs, WithId(id), true) == [subs[i]] + Matching(subs[i + 1..], WithId(id), true)
  {
    var i := FirstIndex(subs, WithId(id));
    if i == |subs| {
      NoneMatch(subs, WithId(id));
    } else {
      SplitAt(subs, i);
      MatchingFrom(subs[..i], subs[i], subs[i + 1..], WithId(id));
    }
  }

  lemma NobodyHears(l: Local, id: nat, d: Broker.Delivery)
    requires Alone(l.subs, id, d.subject) && Mine(l, id) == []
    ensures Updated(l, d.subject, d.payload, None) == l
  {
    SameFirst(l.subs, id, d.subject);
    FirstMine(l.subs, id);
  }

  /** Where the one subscription of the number is. */
  lemma OneMine(subs: seq<Handler>, id: nat, h: Handler)
    requires Matching(subs, WithId(id), true) == [h]
    ensures var i := FirstIndex(subs, WithId(id));
      && i < |subs| && subs[i] == h && h.id == id && Matching(subs[i + 1..], WithId(id), true) == []
      && forall j :: 0 <= j < i ==> subs[..i][j].id != id
  {
    FirstMine(subs, id);
    var i := FirstIndex(subs, WithId(id));
    var rest := Matching(subs[i + 1..], WithId(id), true);
    assert ([subs[i]] + rest)[0] == subs[i] && ([subs[i]] + rest)[1..] == rest && [h][1..] == [];
  }

  lemma MineHears(l: Local, id: nat, d: Broker.Delivery, h: Handler)
    requires Alone(l.subs, id, d.subject) && Mine(l, id) == [h] && h.maxMsgs != Some(0)
    ensures var l' := Updated(l, d.subject, d.payload, None);
      l'.received == l.received + [ReceivedBy(h, d.payload, None)] && Mine(l', id) == Back(h)
  {
    var i := FirstIndex(l.subs, WithId(id));
    SameFirst(l.subs, id, d.subject);
    OneMine(l.subs, id, h);
    IdIsNominal(id);
    MatchingTurned(l.subs[..i], h, l.subs[i + 1..], WithId(id));
    assert [] + Back(h) == Back(h);
  }

  lemma AloneStays(l: Local, id: nat, d: Broker.Delivery, subject: string)
    requires Alone(l.subs, id, subject)
    ensures Alone(Updated(l, d.subject, d.payload, None).subs, id, subject)
  {
  }

  // ----- a series of deliveries -----

  lemma {:induction false} NoneHeard(l: Local, id: nat, ds: seq<Broker.Delivery>)
    requires AloneFor(l.subs, id, ds) && Mine(l, id) == []
    ensures Heard(l, ds) == l
    decreases ds
  {
    if ds != [] {
      NobodyHears(l, id, ds[0]);
      NoneHeard(l, id, ds[1..]);
    }
  }

  /** The handler after it got so many messages. */
  function LeftOf(h: Handler, got: nat): seq<Handler> {
    if h.maxMsgs.None? then [h]
    else if h.maxMsgs.value <= got then []
    else [h.(maxMsgs := Some(h.maxMsgs.value - got))]
  }

  function OneLess(limit: Option<nat>): Option<nat>
    requires limit != Some(0)
  {
    if limit.None? then None else Some(limit.value - 1)
  }

  lemma FirstFewHead<T>(s: seq<T>, n: Option<nat>)
    requires s != [] && n != Some(0)
    ensures Runs.FirstFew(s, n) == [s[0]] + Runs.FirstFew(s[1..], OneLess(n))
  {
  }

  lemma TextsHead(h: Handler, d: Broker.Delivery, ds: seq<Broker.Delivery>)
    ensures Texts(h, [d] + ds) == [ReceivedBy(h, d.payload, None)] + Texts(h, ds)
  {
  }

  lemma AloneForStays(l: Local, id: nat, ds: seq<Broker.Delivery>)
    requires ds != [] && AloneFor(l.subs, id, ds)
    ensures AloneFor(Updated(l, ds[0].subject, ds[0].payload, None).subs, id, ds[1..])
  {
    forall k | 0 <= k < |ds[1..]| ensures Alone(Updated(l, ds[0].subject, ds[0].payload, None).subs, id, ds[1..][k].subject) {
      AloneStays(l, id, ds[0], ds[k + 1].subject);
    }
  }

  lemma HeardFirst(l: Local, l': Local, h: Handler, h': Handler, ds: seq<Broker.Delivery>)
    requires ds != [] && h.maxMsgs != Some(0) && h' == h.(maxMsgs := OneLess(h.maxMsgs))
    requires l'.received == l.received + [ReceivedBy(h, ds[0].payload, None)]
    ensures l'.received + Texts(h', Runs.FirstFew(ds[1..], h'.maxMsgs)) == l.received + Texts(h, Runs.FirstFew(ds, h.maxMsgs))
  {
    var few := Runs.FirstFew(ds[1..], h'.maxMsgs);
    FirstFewHead(ds, h.maxMsgs);
    TextsHead(h, ds[0], few);
    assert Texts(h', few) == Texts(h, few);
    ConcatTwice(l.received, [ReceivedBy(h, ds[0].payload, None)], Texts(h, few));
  }

  lemma NoneLeft(l: Local, ds: seq<Broker.Delivery>, h: Handler)
    requires h.maxMsgs == Some(0)
    ensures l.received + Texts(h, Runs.FirstFew(ds, h.maxMsgs)) == l.received && LeftOf(h, |ds|) == []
  {
    assert Runs.FirstFew(ds, Some(0)) == [];
    assert l.received + [] == l.received;
  }

  /** The subscription gets the first messages, as many as its limit allows; no other gets any. */
  lemma {:induction false} HeardExact(l: Local, id: nat, ds: seq<Broker.Delivery>, h: Handler)
    requires AloneFor(l.subs, id, ds) && Mine(l, id) == [h] && h.maxMsgs != Some(0)
    ensures Heard(l, ds).received == l.received + Texts(h, Runs.FirstFew(ds, h.maxMsgs))
    ensures Mine(Heard(l, ds), id) == LeftOf(h, |ds|)
    decreases ds
  {
    if ds == [] {
      assert l.received + [] == l.received;
    } else {
      var l', h' := Updated(l, ds[0].subject, ds[0].payload, None), h.(maxMsgs := OneLess(h.maxMsgs));
      MineHears(l, id, ds[0], h);
      AloneForStays(l, id, ds);
      HeardFirst(l, l', h, h', ds);
      if h'.maxMsgs == Some(0) {
        NoneHeard(l', id, ds[1..]);
        NoneLeft(l', ds[1..], h');
      } else {
        HeardExact(l', id, ds[1..], h');
      }
    }
  }

  /** `unsubscribe` with a limit, at the client. */
  function LimitSet(l: Local, id: nat, n: nat): Local {
    l.(subs := Unsubscribed(l.subs, FirstWith(l.subs, id), Some(n)))
  }

  lemma LimitIsSet(l: Local, id: nat, n: nat, h: Handler)
    requires Mine(l, id) == [h]
    ensures Mine(LimitSet(l, id, n), id) == [h.(maxMsgs := Some(n))] && LimitSet(l, id, n).received == l.received
    ensures forall subject: string :: Alone(l.subs, id, subject) ==> Alone(LimitSet(l, id, n).subs, id, subject)
  {
    var i := FirstIndex(l.subs, WithId(id));
    OneMine(l.subs, id, h);
    var a, b, k := l.subs[..i], l.subs[i + 1..], h.(maxMsgs := Some(n));
    assert FirstWith(l.subs, id) == i;
    assert l.subs[i := k] == a + [k] + b;
    MatchingFrom(a, k, b, WithId(id));
    assert [k] + [] == [k];
  }

  // ----- the limit crosses messages -----

  /** What a client receives that handles the first `j` deliveries before its limit is set, and then the
      others. */
  function HeardAround(l: Local, id: nat, n: nat, ds: seq<Broker.Delivery>, j: nat): Local
    requires j <= |ds|
  {
    Heard(LimitSet(Heard(l, ds[..j]), id, n), ds[j..])
  }

  lemma TextsJoin(h: Handler, a: seq<Broker.Delivery>, b: seq<Broker.Delivery>)
    ensures Texts(h, a) + Texts(h, b) == Texts(h, a + b) && |Texts(h, a)| == |a|
  {
  }

  lemma {:induction false} HeardStays(l: Local, id: nat, ds: seq<Broker.Delivery>, subject: string)
    requires Alone(l.subs, id, subject)
    ensures Alone(Heard(l, ds).subs, id, subject)
    decreases ds
  {
    if ds != [] {
      AloneStays(l, id, ds[0], subject);
      HeardStays(Updated(l, ds[0].subject, ds[0].payload, None), id, ds[1..], subject);
    }
  }

  lemma AloneAfter(l: Local, id: nat, n: nat, ds: seq<Broker.Delivery>, j: nat, h: Handler)
    requires j <= |ds| && AloneFor(l.subs, id, ds) && Mine(Heard(l, ds[..j]), id) == [h]
    ensures AloneFor(LimitSet(Heard(l, ds[..j]), id, n).subs, id, ds[j..])
  {
    LimitIsSet(Heard(l, ds[..j]), id, n, h);
    forall k | 0 <= k < |ds[j..]| ensures Alone(LimitSet(Heard(l, ds[..j]), id, n).subs, id, ds[j..][k].subject) {
      HeardStays(l, id, ds[..j], ds[j + k].subject);
    }
  }

  lemma HeardAroundExact(l: Local, id: nat, n: nat, ds: seq<Broker.Delivery>, j: nat, h: Handler)
    requires j <= |ds| && n >= 1 && AloneFor(l.subs, id, ds) && Mine(l, id) == [h] && h.maxMsgs == None
    ensures HeardAround(l, id, n, ds, j).received == l.received + Texts(h, ds[..j] + Runs.FirstFew(ds[j..], Some(n)))
  {
    var l1, h' := Heard(l, ds[..j]), h.(maxMsgs := Some(n));
    HeardExact(l, id, ds[..j], h);
    LimitIsSet(l1, id, n, h);
    AloneAfter(l, id, n, ds, j, h);
    HeardExact(LimitSet(l1, id, n), id, ds[j..], h');
    var few := Runs.FirstFew(ds[j..], Some(n));
    assert Texts(h', few) == Texts(h, few);
    TextsJoin(h, ds[..j], few);
    ConcatTwice(l.received, Texts(h, ds[..j]), Texts(h, few));
  }

  lemma WholeIff(l: Local, h: Handler, ds: seq<Broker.Delivery>, j: nat, n: nat)
    requires j <= |ds|
    ensures l.received + Texts(h, ds[..j] + Runs.FirstFew(ds[j..], Some(n))) == l.received + Texts(h, ds) <==> |ds| - j <= n
  {
    var got := ds[..j] + Runs.FirstFew(ds[j..], Some(n));
    if |ds| - j <= n {
      assert got == ds;
    } else {
      assert |l.received + Texts(h, got)| < |l.received + Texts(h, ds)|;
    }
  }

  /** From `SUB` through `UNSUB sid n` and whatever is published before and after the broker learns of it:
      the broker writes all that is published before, and the next n messages; the client, which has handled
      `j` of these when it sets its own limit, gets the next n and drops the others.  Nothing is
      dropped exactly when no more than n were left to handle. */
  lemma CrossingQuota(b: Broker.Broker, e: Broker.Suscription, first: seq<Broker.Command>, n: nat, second: seq<Broker.Command>,
                      l: Local, h: Handler, j: nat)
    requires Runs.LifeOf(b, e, first, n, second)
    requires h.maxMsgs == None && Mine(l, h.id) == [h] && j <= |Runs.Written(b, e, first, n, second)|
    requires AloneFor(l.subs, h.id, Runs.Written(b, e, first, n, second))
    ensures var ds := Runs.Written(b, e, first, n, second);
      var l' := HeardAround(l, h.id, n, ds, j);
      && Runs.Received(Runs.AfterLife(b, e, first, n, second), e.connection, e.sid) == Runs.Received(b, e.connection, e.sid) + ds
      && l'.received == l.received + Texts(h, ds[..j] + Runs.FirstFew(ds[j..], Some(n)))
      && (l'.received == l.received + Texts(h, ds) <==> |ds| - j <= n)
  {
    var ds := Runs.Written(b, e, first, n, second);
    Runs.LifeIsWritten(b, e, first, n, second);
    HeardAroundExact(l, h.id, n, ds, j, h);
    WholeIff(l, h, ds, j, n);
  }
}
