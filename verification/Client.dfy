/** The client's list of subscriptions: which of them gets a message, and what it gets. */
module Client {
  import opened Wrappers
  import opened Sequences
  import opened Text
  import opened Subjects
  import opened Protocol
  import opened JetStreamFormat
  import opened Consumers
  import opened Rotation

  /** What was sent to the thread of a subscription. */
  datatype Received = Received(id: nat, payload: string, replyTo: Option<string>)

  datatype Local = Local(subs: seq<Handler>, received: seq<Received>, acks: seq<string>)

  // ----- one message -----

  function ForSubject(subject: string): Handler -> bool {
    (h: Handler) => Matches(h.subject, subject)
  }

  /** The number in front of the first dot. */
  function AckId(payload: string): string {
    Split(payload, '.')[0]
  }

  function Stripped(payload: string): string {
    TrimStartMatches(payload, AckId(payload) + ".")
  }

  function ReceivedBy(h: Handler, payload: string, replyTo: Option<string>): Received {
    Received(h.id, Trim(if h.consumer.Some? then Stripped(payload) else payload), replyTo)
  }

  function Acks(h: Handler, payload: string): seq<string> {
    if h.consumer.Some? then [AckText(h.consumer.value.stream, h.consumer.value.name, AckId(payload))] else []
  }

  /** What goes back to the end of the list; a subscription whose limit is already 0 does not, for
      the subtraction overflows. */
  function Behind(h: Handler): seq<Handler> {
    if h.maxMsgs == Some(0) then [] else Back(h)
  }

  function Updated(l: Local, subject: string, payload: string, replyTo: Option<string>): Local {
    var i := FirstIndex(l.subs, ForSubject(subject));
    if i == |l.subs| then l
    else
      Local(l.subs[..i] + l.subs[i + 1..] + Behind(l.subs[i]),
            l.received + [ReceivedBy(l.subs[i], payload, replyTo)], l.acks + Acks(l.subs[i], payload))
  }

  /** The subscription whose turn it is has no message left. */
  predicate UsedUp(subs: seq<Handler>, subject: string) {
    var i := FirstIndex(subs, ForSubject(subject));
    i < |subs| && subs[i].maxMsgs == Some(0)
  }

  /** The first subscription that matches, and no other, is given the message: as it came, trimmed, if it has
      no consumer; without the number in front if it has one, and then the number is acknowledged. */
  lemma UpdatedGives(l: Local, subject: string, payload: string, replyTo: Option<string>, i: nat)
    requires i < |l.subs| && Matches(l.subs[i].subject, subject)
    requires forall j :: 0 <= j < i ==> !Matches(l.subs[j].subject, subject)
    ensures var l', h, id := Updated(l, subject, payload, replyTo), l.subs[i], Split(payload, '.')[0];
      && (h.consumer == None ==> l'.received == l.received + [Received(h.id, Trim(payload), replyTo)] && l'.acks == l.acks)
      && (h.consumer.Some? ==>
            && l'.received == l.received + [Received(h.id, Trim(TrimStartMatches(payload, id + ".")), replyTo)]
            && l'.acks == l.acks + ["$JS.ACK." + h.consumer.value.stream + "." + h.consumer.value.name + "." + id])
  {
    assert FirstIndex(l.subs, ForSubject(subject)) == i;
    assert l.acks + [] == l.acks;
  }

  /** Then it goes to the end of the list, with one less to go if it has a limit, or away; at a limit of 0 the
      subtraction overflows. */
  lemma UpdatedTurns(l: Local, subject: string, payload: string, replyTo: Option<string>, i: nat)
    requires i < |l.subs| && Matches(l.subs[i].subject, subject)
    requires forall j :: 0 <= j < i ==> !Matches(l.subs[j].subject, subject)
    ensures var subs, h, rest := Updated(l, subject, payload, replyTo).subs, l.subs[i], l.subs[..i] + l.subs[i + 1..];
      && (UsedUp(l.subs, subject) <==> h.maxMsgs == Some(0))
      && (h.maxMsgs == None ==> subs == rest + [h])
      && (h.maxMsgs.Some? && h.maxMsgs.value > 1 ==> subs == rest + [h.(maxMsgs := Some(h.maxMsgs.value - 1))])
      && (h.maxMsgs.Some? && h.maxMsgs.value <= 1 ==> subs == rest)
  {
    assert FirstIndex(l.subs, ForSubject(subject)) == i;
    var rest := l.subs[..i] + l.subs[i + 1..];
    assert rest + [] == rest;
  }

  /** Without a match nothing happens. */
  lemma UpdatedIgnores(l: Local, subject: string, payload: string, replyTo: Option<string>)
    requires forall j :: 0 <= j < |l.subs| ==> !Matches(l.subs[j].subject, subject)
    ensures Updated(l, subject, payload, replyTo) == l && !UsedUp(l.subs, subject)
  {
    assert FirstIndex(l.subs, ForSubject(subject)) == |l.subs|;
  }

  /** A plain subscription gets a payload that begins with a number as it is. */
  lemma PlainKeepsNumber(h: Handler, l: Local)
    requires h.consumer == None && l.subs == [h] && Matches(h.subject, h.subject)
    ensures Updated(l, h.subject, "0.5", None).received == l.received + [Received(h.id, "0.5", None)]
  {
    UpdatedGives(l, h.subject, "0.5", None, 0);
    TrimIsIdentity("0.5");
  }

  function FirstWith(subs: seq<Handler>, id: nat): (i: nat)
    ensures i <= |subs|
    ensures i < |subs| ==> subs[i].id == id
    ensures forall j :: 0 <= j < i ==> subs[j].id != id
  {
    FirstIndex(subs, (h: Handler) => h.id == id)
  }

  function Unsubscribed(subs: seq<Handler>, i: nat, maxMsgs: Option<nat>): seq<Handler>
    requires i <= |subs|
  {
    if i == |subs| then subs
    else if maxMsgs.Some? then subs[i := subs[i].(maxMsgs := maxMsgs)]
    else subs[..i] + subs[i + 1..]
  }

  /** The first subscription of the number is limited, or removed without a limit; the others stay as they are. */
  lemma UnsubscribedGives(subs: seq<Handler>, id: nat, maxMsgs: Option<nat>, i: nat)
    requires i < |subs| && subs[i].id == id && forall j :: 0 <= j < i ==> subs[j].id != id
    ensures FirstWith(subs, id) == i
    ensures maxMsgs == None ==> Unsubscribed(subs, i, maxMsgs) == subs[..i] + subs[i + 1..]
    ensures maxMsgs.Some? ==> Unsubscribed(subs, i, maxMsgs) == subs[..i] + [subs[i].(maxMsgs := maxMsgs)] + subs[i + 1..]
  {
  }

  class NatsClient {
    var suscriptions: seq<Handler>
    var received: seq<Received>
    var acks: seq<string>
    var subId: nat

    constructor ()
      ensures View() == Local([], [], []) && subId == 0
    {
      suscriptions, received, acks, subId := [], [], [], 0;
    }

    ghost function View(): Local
      reads this
    {
      Local(suscriptions, received, acks)
    }

    /** `ok` tells that the subtraction does not overflow. */
    method HandleSubscriptionUpdate(subject: string, payload: string, replyTo: Option<string>) returns (ok: bool)
      modifies this`suscriptions, this`received, this`acks
      ensures View() == Updated(old(View()), subject, payload, replyTo)
      ensures ok <==> !UsedUp(old(suscriptions), subject)
    {
      var index := FirstIndex(suscriptions, ForSubject(subject));
      if index < |suscriptions| {
        var subscription := suscriptions[index];
        ghost var h := subscription;
        suscriptions := suscriptions[..index] + suscriptions[index + 1..];
        ghost var rest := suscriptions;
        assert rest + [] == rest && acks + [] == acks;
        var text := payload;
        if subscription.consumer.Some? {
          var id := AckId(payload);
          text := TrimStartMatches(payload, id + ".");
          acks := acks + [AckText(subscription.consumer.value.stream, subscription.consumer.value.name, id)];
        }
        received := received + [Received(subscription.id, Trim(text), replyTo)];
        if subscription.maxMsgs.Some? {
          if subscription.maxMsgs.value == 0 {
            return false;
          }
          if subscription.maxMsgs.value - 1 == 0 {
            return true;
          }
          subscription := subscription.(maxMsgs := Some(subscription.maxMsgs.value - 1));
        }
        suscriptions := suscriptions + [subscription];
        assert suscriptions == rest + Behind(h);
      }
      ok := true;
    }

    /** `_subscribe`, for a subject that the client accepts. */
    method Subscribe(subject: string, consumer: Option<ConsumerName>) returns (id: nat)
      modifies this`suscriptions, this`subId
      ensures id == old(subId) + 1 == subId
      ensures suscriptions == old(suscriptions) + [Handler(id, subject, None, consumer)]
      ensures Session(View(), subId) == Happened(Session(old(View()), old(subId)), Subscribes(subject, consumer))
    {
      subId := subId + 1;
      suscriptions := suscriptions + [Handler(subId, subject, None, consumer)];
      id := subId;
    }

    method Unsubscribe(id: nat, maxMsgs: Option<nat>) returns (ok: bool)
      modifies this`suscriptions
      ensures ok <==> FirstWith(old(suscriptions), id) < |old(suscriptions)|
      ensures !ok ==> suscriptions == old(suscriptions)
      ensures ok ==> suscriptions == Unsubscribed(old(suscriptions), FirstWith(old(suscriptions), id), maxMsgs)
    {
      for i := 0 to |suscriptions|
        invariant suscriptions == old(suscriptions)
        invariant forall j :: 0 <= j < i ==> suscriptions[j].id != id
      {
        if suscriptions[i].id == id {
          if maxMsgs.Some? {
            suscriptions := suscriptions[i := suscriptions[i].(maxMsgs := maxMsgs)];
          } else {
            suscriptions := suscriptions[..i] + suscriptions[i + 1..];
          }
          return true;
        }
      }
      ok := false;
    }
  }

  // ----- what a consumer's message becomes -----

  lemma {:induction false} RemovedEnds(s: string, prefix: string)
    requires prefix != ""
    ensures var r := TrimStartMatches(s, prefix);
      && |r| <= |s| && r == s[|s| - |r|..]
      && (prefix <= s ==> |r| < |s| && s[|s| - |r| - 1] == prefix[|prefix| - 1])
    decreases |s|
  {
    if prefix <= s {
      RemovedEnds(s[|prefix|..], prefix);
    }
  }

  lemma {:induction false} TrimEndConcat(a: string, b: string)
    requires a != "" && !IsWhite(a[|a| - 1])
    ensures TrimEnd(a + b) == a + TrimEnd(b)
  {
    if b == "" {
      assert a + b == a;
    } else if IsWhite(b[|b| - 1]) {
      assert (a + b)[..|a + b| - 1] == a + b[..|b| - 1];
      TrimEndConcat(a, b[..|b| - 1]);
    }
  }

  lemma {:induction false} TrimEndOfSuffix(a: string, b: string)
    ensures |TrimEnd(b)| <= |TrimEnd(a + b)|
  {
    if b != "" && IsWhite(b[|b| - 1]) {
      assert (a + b)[..|a + b| - 1] == a + b[..|b| - 1];
      TrimEndOfSuffix(a, b[..|b| - 1]);
    }
  }

  lemma TrimShorter(s: string)
    ensures |Trim(s)| <= |TrimEnd(s)|
  {
    TrimStartShape(s);
    var t := TrimStart(s);
    assert s == s[..|s| - |t|] + t;
    TrimEndOfSuffix(s[..|s| - |t|], t);
  }

  lemma AckIdOf(m: Message)
    ensures AckId(Delivered(m)) == Print(m.id)
    ensures Stripped(Delivered(m)) == TrimStartMatches(m.text, Print(m.id) + ".")
  {
    var p := Print(m.id);
    PrintShape(m.id);
    assert Delivered(m) == p + ['.'] + m.text && Delivered(m) == (p + ".") + m.text;
    SplitConcat(p, '.', m.text);
    SplitFree(p, '.');
    assert Delivered(m)[|p + "."|..] == m.text;
  }

  /** A text that begins with the number of its message and a dot loses that beginning. */
  lemma StrippedDiffers(m: Message)
    requires Print(m.id) + "." <= m.text
    ensures Trim(TrimStartMatches(m.text, Print(m.id) + ".")) != Trim(m.text)
  {
    var p := Print(m.id) + ".";
    PrintShape(m.id);
    RemovedEnds(m.text, p);
    var r := TrimStartMatches(m.text, p);
    var a := m.text[..|m.text| - |r|];
    assert a != "" && a[|a| - 1] == '.' && m.text == a + r;
    assert m.text[0] == p[0] && TrimStart(m.text) == m.text;
    TrimEndConcat(a, r);
    TrimShorter(r);
  }

  /** What the consumer sends arrives as the text that was stored, up to white space at the ends,
      exactly when the text does not begin with the message's number and a dot: the client takes the
      number off as often as it finds it. The acknowledgement always carries the number. */
  lemma DeliveredTextExact(h: Handler, m: Message, replyTo: Option<string>)
    requires h.consumer.Some?
    ensures ReceivedBy(h, Delivered(m), replyTo).payload == Trim(m.text) <==> !(Print(m.id) + "." <= m.text)
    ensures Acks(h, Delivered(m)) == [AckText(h.consumer.value.stream, h.consumer.value.name, Print(m.id))]
  {
    AckIdOf(m);
    if Print(m.id) + "." <= m.text {
      StrippedDiffers(m);
    }
  }

  /** Message 0 with the text "0.x" arrives as "x". */
  lemma NumberTakenTwice(h: Handler)
    requires h.consumer.Some?
    ensures ReceivedBy(h, Delivered(Message("0.x", 0)), None).payload == "x"
  {
    AckIdOf(Message("0.x", 0));
    TrimIsIdentity("x");
    assert Print(0) == "0" && Print(0) + "." == "0.";
    assert "0." <= "0.x" && "0.x"[2..] == "x";
    assert TrimStartMatches("x", "0.") == "x";
  }

  // ----- several messages -----

  function UpdatedAll(l: Local, subject: string, payloads: seq<string>): Local
    requires Positive(l.subs)
    decreases payloads
  {
    if payloads == [] then l
    else UpdatedAll(Updated(l, subject, payloads[0], None), subject, payloads[1..])
  }

  function ReceiverIds(received: seq<Received>): seq<nat> {
    seq(|received|, i requires 0 <= i < |received| => received[i].id)
  }

  lemma UpdatedServes(l: Local, subject: string, payload: string)
    requires Positive(l.subs)
    ensures var l' := Updated(l, subject, payload, None);
      && l'.subs == Rotated(l.subs, ForSubject(subject))
      && ReceiverIds(l'.received) == ReceiverIds(l.received) + FirstId(l.subs, ForSubject(subject))
  {
    assert ReceiverIds(l.received) + [] == ReceiverIds(l.received);
  }

  /** From one list to another the list turned `n` times, and those whose turn it was received. */
  ghost predicate Turned(l: Local, l': Local, f: Handler -> bool, n: nat)
    requires Positive(l.subs)
  {
    l'.subs == Turns(l.subs, f, n) && ReceiverIds(l'.received) == ReceiverIds(l.received) + Served(l.subs, f, n)
  }

  lemma OneTurnFirst(l: Local, next: Local, l': Local, f: Handler -> bool, n: nat)
    requires Positive(l.subs) && next.subs == Rotated(l.subs, f) && n > 0
    requires ReceiverIds(next.received) == ReceiverIds(l.received) + FirstId(l.subs, f)
    requires Turned(next, l', f, n - 1)
    ensures Turned(l, l', f, n)
  {
    TurnsFirst(l.subs, f, n);
    ServedFirst(l.subs, f, n);
    ConcatTwice(ReceiverIds(l.received), FirstId(l.subs, f), Served(next.subs, f, n - 1));
  }

  /** A series of messages on a subject turns the list, and goes to those whose turn it is. */
  lemma {:induction false} UpdatedAllServes(l: Local, subject: string, payloads: seq<string>)
    requires Positive(l.subs)
    ensures Turned(l, UpdatedAll(l, subject, payloads), ForSubject(subject), |payloads|)
    decreases payloads
  {
    if payloads == [] {
      assert ReceiverIds(l.received) + [] == ReceiverIds(l.received);
    } else {
      var next := Updated(l, subject, payloads[0], None);
      UpdatedServes(l, subject, payloads[0]);
      UpdatedAllServes(next, subject, payloads[1..]);
      OneTurnFirst(l, next, UpdatedAll(l, subject, payloads), ForSubject(subject), |payloads|);
    }
  }

  lemma SubjectIsNominal(subject: string)
    ensures Nominal(ForSubject(subject))
  {
  }

  /** As many messages on a subject as subscriptions match it: each of these gets exactly one. */
  lemma EachGetsOne(l: Local, subject: string, payloads: seq<string>)
    requires Positive(l.subs) && |payloads| == |Matching(l.subs, ForSubject(subject), true)|
    ensures var l' := UpdatedAll(l, subject, payloads);
      var m := Matching(l.subs, ForSubject(subject), true);
      && ReceiverIds(l'.received) == ReceiverIds(l.received) + Ids(m)
      && Positive(m) && Matching(l'.subs, ForSubject(subject), true) == Backs(m)
      && Matching(l'.subs, ForSubject(subject), false) == Matching(l.subs, ForSubject(subject), false)
  {
    SubjectIsNominal(subject);
    RoundIsFair(l.subs, ForSubject(subject));
    UpdatedAllServes(l, subject, payloads);
  }

  // ----- numbers of subscriptions -----

  /** What happens to the list: calls of the program and messages that arrive. */
  datatype Event =
    | Subscribes(subject: string, consumer: Option<ConsumerName>)
    | Unsubscribes(id: nat, maxMsgs: Option<nat>)
    | Arrives(subject: string, payload: string, replyTo: Option<string>)

  datatype Session = Session(local: Local, subId: nat)

  function Happened(s: Session, e: Event): Session {
    match e
    case Subscribes(subject, consumer) =>
      Session(s.local.(subs := s.local.subs + [Handler(s.subId + 1, subject, None, consumer)]), s.subId + 1)
    case Unsubscribes(id, maxMsgs) => s.(local := s.local.(subs := Unsubscribed(s.local.subs, FirstWith(s.local.subs, id), maxMsgs)))
    case Arrives(subject, payload, replyTo) => s.(local := Updated(s.local, subject, payload, replyTo))
  }

  function HappenedAll(s: Session, events: seq<Event>): Session
    decreases events
  {
    if events == [] then s else HappenedAll(Happened(s, events[0]), events[1..])
  }

  predicate HandedOut(subs: seq<Handler>, subId: nat) {
    DistinctIds(subs) && forall i :: 0 <= i < |subs| ==> 1 <= subs[i].id <= subId
  }

  /** Without one of them, and with it again at the end under any limit. */
  lemma TakenOut(subs: seq<Handler>, subId: nat, i: nat, maxMsgs: Option<nat>)
    requires HandedOut(subs, subId) && i < |subs|
    ensures HandedOut(subs[..i] + subs[i + 1..], subId)
    ensures HandedOut(subs[..i] + subs[i + 1..] + [subs[i].(maxMsgs := maxMsgs)], subId)
    ensures HandedOut(subs[i := subs[i].(maxMsgs := maxMsgs)], subId)
  {
  }

  lemma UpdatedHandedOut(l: Local, subId: nat, subject: string, payload: string, replyTo: Option<string>)
    requires HandedOut(l.subs, subId)
    ensures HandedOut(Updated(l, subject, payload, replyTo).subs, subId)
  {
    var i := FirstIndex(l.subs, ForSubject(subject));
    if i < |l.subs| {
      var h, rest := l.subs[i], l.subs[..i] + l.subs[i + 1..];
      TakenOut(l.subs, subId, i, h.maxMsgs);
      TakenOut(l.subs, subId, i, if h.maxMsgs.Some? && h.maxMsgs.value > 0 then Some(h.maxMsgs.value - 1) else None);
      assert rest + [] == rest && h.(maxMsgs := h.maxMsgs) == h;
    }
  }

  /** Whatever is called and whatever arrives, no two subscriptions of the list share a number: the
      hypothesis under which the messages are counted. */
  lemma {:induction false} NumbersApart(s: Session, events: seq<Event>)
    requires HandedOut(s.local.subs, s.subId)
    ensures HandedOut(HappenedAll(s, events).local.subs, HappenedAll(s, events).subId)
    decreases events
  {
    if events != [] {
      match events[0] {
        case Subscribes(_, _) =>
        case Unsubscribes(id, maxMsgs) =>
          var i := FirstWith(s.local.subs, id);
          if i < |s.local.subs| {
            TakenOut(s.local.subs, s.subId, i, maxMsgs);
          }
        case Arrives(subject, payload, replyTo) => UpdatedHandedOut(s.local, s.subId, subject, payload, replyTo);
      }
      NumbersApart(Happened(s, events[0]), events[1..]);
    }
  }

  lemma {:induction false} MatchingFound(subs: seq<Handler>, f: Handler -> bool, h: Handler)
    requires h in Matching(subs, f, true)
    ensures h in subs
  {
    if h !in [subs[0]] {
      MatchingFound(subs[1..], f, h);
    }
  }

  lemma {:induction false} MatchingApart(subs: seq<Handler>, f: Handler -> bool)
    requires DistinctIds(subs)
    ensures DistinctIds(Matching(subs, f, true))
  {
    if subs != [] {
      MatchingApart(subs[1..], f);
      var rest := Matching(subs[1..], f, true);
      forall j | 0 <= j < |rest| ensures rest[j].id != subs[0].id {
        MatchingFound(subs[1..], f, rest[j]);
      }
    }
  }

  lemma {:induction false} HappenedLast(s: Session, events: seq<Event>, e: Event)
    ensures HappenedAll(s, events + [e]) == Happened(HappenedAll(s, events), e)
    decreases events
  {
    if events == [] {
      assert events + [e] == [e] && [e][1..] == [];
      assert HappenedAll(Happened(s, e), []) == Happened(s, e);
    } else {
      assert (events + [e])[1..] == events[1..] + [e];
      HappenedLast(Happened(s, events[0]), events[1..], e);
    }
  }

  const START := Session(Local([], [], []), 0)

  /** Whatever happened before: of any number of messages on a subject, the subscriptions that match
      it get the same share, up to one, if none of them has a limit. */
  lemma SharedEvenly(events: seq<Event>, subject: string, payloads: seq<string>)
    requires var subs := HappenedAll(START, events).local.subs;
      Positive(subs) && Matching(subs, ForSubject(subject), true) != [] && Unlimited(Matching(subs, ForSubject(subject), true))
    ensures var l, f := HappenedAll(START, events).local, ForSubject(subject);
      var m, d := Matching(l.subs, f, true), |payloads|;
      && ReceiverIds(UpdatedAll(l, subject, payloads).received) == ReceiverIds(l.received) + Served(l.subs, f, d)
      && forall i :: 0 <= i < |m| ==> Count(Served(l.subs, f, d), m[i].id) == d / |m| + if i < d % |m| then 1 else 0
  {
    var l, f := HappenedAll(START, events).local, ForSubject(subject);
    NumbersApart(START, events);
    SubjectIsNominal(subject);
    MatchingApart(l.subs, f);
    CountsAreEven(l.subs, f, |payloads|);
    UpdatedAllServes(l, subject, payloads);
  }
}
