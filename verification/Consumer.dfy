/** The thread of a push consumer: it sends one message, waits for an acknowledgement, sends it
    again after a timeout while it may, and goes on. */
module Consumers {
  import opened Text
  import opened JetStreamFormat

  /** What waiting for an acknowledgement gives; `id` is the number that the client wrote in it. A
      sequence of events that ends is a disconnection. */
  datatype Event = Acked(id: nat) | TimedOut | Disconnected

  const MAX_SENDS: nat := 5

  /** `sends` is `contador`; `out` the messages sent, oldest first. */
  datatype Sender = Sender(lastAck: nat, sends: nat, out: seq<Message>)

  /** `open` tells that the acknowledgement channel is still connected. */
  datatype Progress = Progress(sender: Sender, events: seq<Event>, open: bool)

  // ----- what the thread does -----

  function Send(s: Sender, m: Message): Sender {
    s.(out := s.out + [m], sends := s.sends + 1)
  }

  function Wait(s: Sender, m: Message, events: seq<Event>): Progress
    decreases MAX_SENDS - s.sends
  {
    if events == [] || events[0] == Disconnected then Progress(s, if events == [] then [] else events[1..], false)
    else if events[0].Acked? || s.sends >= MAX_SENDS then Progress(s, events[1..], true)
    else Wait(Send(s, m), m, events[1..])
  }

  function Process(s: Sender, m: Message, events: seq<Event>): Progress {
    if s.lastAck > m.id then Progress(s, events, true)
    else
      var p := Wait(Send(s, m), m, events);
      if p.open then p.(sender := p.sender.(lastAck := m.id)) else p
  }

  function ProcessAll(s: Sender, queue: seq<Message>, events: seq<Event>): Progress
    decreases queue
  {
    if queue == [] then Progress(s, events, true)
    else
      var p := Process(s, queue[0], events);
      if p.open then ProcessAll(p.sender, queue[1..], p.events) else p
  }

  /** The text that goes to the delivery subject. */
  function Delivered(m: Message): string {
    Print(m.id) + "." + m.text
  }

  class ConcurrentConsumer {
    var lastAcknowledged: nat
    var contador: nat
    /** What arrives from the stream and from the client. */
    var queue: seq<Message>
    var events: seq<Event>
    var out: seq<Message>

    constructor (lastAcknowledged: nat, queue: seq<Message>, events: seq<Event>)
      ensures View() == Sender(lastAcknowledged, 0, [])
      ensures this.queue == queue && this.events == events
    {
      this.lastAcknowledged, contador := lastAcknowledged, 0;
      this.queue, this.events, out := queue, events, [];
    }

    ghost function View(): Sender
      reads this
    {
      Sender(lastAcknowledged, contador, out)
    }

    method SendMsg(m: Message)
      modifies this`out, this`contador
      ensures View() == Send(old(View()), m)
    {
      out := out + [m];
      contador := contador + 1;
    }

    method ProcessMessagesWithTimeout(m: Message) returns (open: bool)
      modifies this`out, this`contador, this`events
      ensures Progress(View(), events, open) == Wait(old(View()), m, old(events))
      decreases MAX_SENDS - contador
    {
      if events == [] {
        return false;
      }
      var e := events[0];
      events := events[1..];
      match e
      case Acked(_) => return true;
      case TimedOut =>
        if contador >= MAX_SENDS {
          return true;
        }
        SendMsg(m);
        open := ProcessMessagesWithTimeout(m);
      case Disconnected => return false;
    }

    method ProcessMessage() returns (open: bool)
      modifies this
      ensures old(queue) == [] ==> !open && View() == old(View()) && events == old(events) && queue == []
      ensures old(queue) != [] ==>
        && queue == old(queue)[1..]
        && Progress(View(), events, open) == Process(old(View()), old(queue)[0], old(events))
    {
      if queue == [] {
        return false;
      }
      var m := queue[0];
      queue := queue[1..];
      if lastAcknowledged > m.id {
        return true;
      }
      SendMsg(m);
      open := ProcessMessagesWithTimeout(m);
      if open {
        lastAcknowledged := m.id;
      }
    }

    /** `process_messages`, until the queue is empty or the channel is closed. */
    method ProcessMessages()
      modifies this
      ensures View() == ProcessAll(old(View()), old(queue), old(events)).sender
    {
      var open := true;
      while open
        invariant open ==> ProcessAll(old(View()), old(queue), old(events)) == ProcessAll(View(), queue, events)
        invariant !open ==> ProcessAll(old(View()), old(queue), old(events)).sender == View()
        decreases |queue|, open
      {
        open := ProcessMessage();
      }
    }
  }

  // ----- what is sent -----

  /** The messages that are not skipped. */
  function Fresh(lastAck: nat, queue: seq<Message>): seq<Message>
    decreases queue
  {
    if queue == [] then []
    else if lastAck > queue[0].id then Fresh(lastAck, queue[1..])
    else [queue[0]] + Fresh(queue[0].id, queue[1..])
  }

  function Copies(m: Message, n: nat): seq<Message> {
    seq(n, _ => m)
  }

  /** Each message as many times in a row as its count says. */
  function Stutter(ms: seq<Message>, counts: seq<nat>): seq<Message>
    requires |ms| == |counts|
  {
    if ms == [] then [] else Copies(ms[0], counts[0]) + Stutter(ms[1..], counts[1..])
  }

  function Sum(counts: seq<nat>): nat {
    if counts == [] then 0 else counts[0] + Sum(counts[1..])
  }

  /** How many more times a thread that has sent so often may repeat a message. */
  function Repeats(sends: nat): nat {
    if sends == 0 then MAX_SENDS - 1 else if sends < MAX_SENDS then MAX_SENDS - sends else 0
  }

  predicate NonZero(counts: seq<nat>) {
    forall i :: 0 <= i < |counts| ==> counts[i] >= 1
  }

  /** How many timeouts come before anything else. */
  function LeadingTimeouts(events: seq<Event>): nat {
    if events == [] || events[0] != TimedOut then 0 else 1 + LeadingTimeouts(events[1..])
  }

  function Min(a: nat, b: nat): nat {
    if a < b then a else b
  }

  /** How many sends the counter still allows. */
  function Left(sends: nat): nat {
    if sends < MAX_SENDS then MAX_SENDS - sends else 0
  }

  /** A message that waits is sent again exactly once for each timeout that comes before anything
      else, as long as the counter allows it. */
  lemma {:induction false} RepetitionsExact(s: Sender, m: Message, events: seq<Event>)
    ensures var n := Min(LeadingTimeouts(events), Left(s.sends));
      Wait(s, m, events).sender == Sender(s.lastAck, s.sends + n, s.out + Copies(m, n))
    decreases MAX_SENDS - s.sends
  {
    if events != [] && events[0] == TimedOut && s.sends < MAX_SENDS {
      RepetitionsExact(Send(s, m), m, events[1..]);
      var k := Min(LeadingTimeouts(events[1..]), Left(s.sends + 1));
      assert s.out + [m] + Copies(m, k) == s.out + Copies(m, k + 1);
    } else {
      assert s.out + Copies(m, 0) == s.out;
    }
  }

  /** A message that is not acknowledged in time is sent again iff fewer than five sends were made in
      the thread's life. */
  lemma SentAgainIff(s: Sender, m: Message, events: seq<Event>)
    requires events != [] && events[0] == TimedOut
    ensures |Wait(s, m, events).sender.out| > |s.out| <==> s.sends < MAX_SENDS
  {
    RepetitionsExact(s, m, events);
  }

  /** From `s` the thread sent the messages `ms`, a prefix of `due`, each `counts` times. */
  ghost predicate Explains(s: Sender, p: Progress, due: seq<Message>, ms: seq<Message>, counts: seq<nat>) {
    && |counts| == |ms| && NonZero(counts)
    && p.sender.out == s.out + Stutter(ms, counts)
    && ms <= due && (p.open ==> ms == due)
    && p.sender.sends == s.sends + Sum(counts) <= s.sends + |ms| + Repeats(s.sends)
  }

  lemma StutterFirst(m: Message, n: nat, ms: seq<Message>, counts: seq<nat>)
    requires |ms| == |counts|
    ensures Stutter([m] + ms, [n] + counts) == Copies(m, n) + Stutter(ms, counts)
    ensures Sum([n] + counts) == n + Sum(counts)
  {
    assert ([m] + ms)[1..] == ms && ([n] + counts)[1..] == counts;
  }

  lemma OneMoreExplained(s: Sender, m: Message, n: nat, s': Sender, p: Progress, due: seq<Message>, ms: seq<Message>, counts: seq<nat>)
    requires s'.out == s.out + Copies(m, n + 1) && s'.sends == s.sends + n + 1 && Repeats(s'.sends) + n == Repeats(s.sends + 1)
    requires Explains(s', p, due, ms, counts)
    ensures Explains(s, p, [m] + due, [m] + ms, [n + 1] + counts)
  {
    StutterFirst(m, n + 1, ms, counts);
    assert s.out + Copies(m, n + 1) + Stutter(ms, counts) == s.out + (Copies(m, n + 1) + Stutter(ms, counts));
  }

  /** Whatever the acknowledgements, timeouts and disconnections: the output is a prefix of the
      messages not skipped, in order, each sent one or more times in a row, and all of them when
      nothing was disconnected. In all, at most `Repeats` sends are repetitions. */
  lemma {:induction false} OutputIsStuttered(s: Sender, queue: seq<Message>, events: seq<Event>) returns (ms: seq<Message>, counts: seq<nat>)
    ensures Explains(s, ProcessAll(s, queue, events), Fresh(s.lastAck, queue), ms, counts)
    decreases queue
  {
    ms, counts := [], [];
    if queue != [] {
      if s.lastAck > queue[0].id {
        ms, counts := OutputIsStuttered(s, queue[1..], events);
      } else {
        var m := queue[0];
        var n := Min(LeadingTimeouts(events), Left(s.sends + 1));
        RepetitionsExact(Send(s, m), m, events);
        var p := Process(s, m, events);
        assert s.out + [m] + Copies(m, n) == s.out + Copies(m, n + 1);
        if p.open {
          var ms', counts' := OutputIsStuttered(p.sender, queue[1..], p.events);
          OneMoreExplained(s, m, n, p.sender, ProcessAll(s, queue, events), Fresh(m.id, queue[1..]), ms', counts');
          ms, counts := [m] + ms', [n + 1] + counts';
        } else {
          StutterFirst(m, n + 1, [], []);
          ms, counts := [m], [n + 1];
        }
      }
    }
  }

  /** A thread repeats at most four times in its whole life. */
  lemma FourRepeatsInALife(lastAck: nat, queue: seq<Message>, events: seq<Event>)
    ensures |ProcessAll(Sender(lastAck, 0, []), queue, events).sender.out| <= |Fresh(lastAck, queue)| + 4
  {
    var ms, counts := OutputIsStuttered(Sender(lastAck, 0, []), queue, events);
    StutterLength(ms, counts);
  }

  lemma {:induction false} StutterLength(ms: seq<Message>, counts: seq<nat>)
    requires |ms| == |counts|
    ensures |Stutter(ms, counts)| == Sum(counts)
  {
    if ms != [] {
      StutterLength(ms[1..], counts[1..]);
    }
  }

  /** The counter is never set back: after five sends no message is sent twice, so one that is not
      acknowledged is lost to this run. */
  lemma {:induction false} NoRepeatsAfterFive(s: Sender, queue: seq<Message>, events: seq<Event>)
    requires s.sends >= MAX_SENDS
    ensures ProcessAll(s, queue, events).sender.out <= s.out + Fresh(s.lastAck, queue)
    ensures ProcessAll(s, queue, events).open ==> ProcessAll(s, queue, events).sender.out == s.out + Fresh(s.lastAck, queue)
    decreases queue
  {
    if queue != [] {
      if s.lastAck > queue[0].id {
        NoRepeatsAfterFive(s, queue[1..], events);
      } else {
        var p := Process(s, queue[0], events);
        var rest := Fresh(queue[0].id, queue[1..]);
        assert s.out + ([queue[0]] + rest) == s.out + [queue[0]] + rest;
        if p.open {
          NoRepeatsAfterFive(p.sender, queue[1..], p.events);
        }
      }
    }
  }

  /** After `n` timeouts, an acknowledgement. */
  function Late(n: nat, id: nat): seq<Event> {
    if n == 0 then [Acked(id)] else [TimedOut] + Late(n - 1, id)
  }

  lemma {:induction false} LateTimeouts(n: nat, id: nat)
    ensures LeadingTimeouts(Late(n, id)) == n
  {
    if n > 0 {
      LateTimeouts(n - 1, id);
      assert Late(n, id)[1..] == Late(n - 1, id);
    }
  }

  /** Four repetitions do happen: the bound is tight. */
  lemma FourRepeatsHappen(m: Message)
    ensures ProcessAll(Sender(0, 0, []), [m], Late(4, m.id)).sender.out == Copies(m, 5)
  {
    LateTimeouts(4, m.id);
    RepetitionsExact(Send(Sender(0, 0, []), m), m, Late(4, m.id));
    assert [m] + Copies(m, 4) == Copies(m, 5);
  }

  /** A message counts as acknowledged exactly if the thread goes on after it. */
  lemma AcknowledgedIff(s: Sender, m: Message, events: seq<Event>)
    requires s.lastAck <= m.id
    ensures Process(s, m, events).sender.lastAck == if Process(s, m, events).open then m.id else s.lastAck
  {
    RepetitionsExact(Send(s, m), m, events);
  }

  /** The last acknowledgement never goes back. */
  lemma {:induction false} LastAckGrows(s: Sender, queue: seq<Message>, events: seq<Event>)
    ensures ProcessAll(s, queue, events).sender.lastAck >= s.lastAck
    decreases queue
  {
    if queue != [] {
      var p := Process(s, queue[0], events);
      if s.lastAck <= queue[0].id {
        RepetitionsExact(Send(s, queue[0]), queue[0], events);
      }
      if p.open {
        LastAckGrows(p.sender, queue[1..], p.events);
      }
    }
  }

  // ----- the numbers of the acknowledgements -----

  /** The same events, but for the numbers. */
  predicate SameKinds(events: seq<Event>, others: seq<Event>) {
    && |events| == |others|
    && forall i :: 0 <= i < |events| ==>
      (events[i].Acked? <==> others[i].Acked?) && (events[i].TimedOut? <==> others[i].TimedOut?)
  }

  predicate SameOutcome(p: Progress, q: Progress) {
    p.sender == q.sender && p.open == q.open && SameKinds(p.events, q.events)
  }

  lemma {:induction false} WaitIgnoresIds(s: Sender, m: Message, events: seq<Event>, others: seq<Event>)
    requires SameKinds(events, others)
    ensures SameOutcome(Wait(s, m, events), Wait(s, m, others))
    decreases MAX_SENDS - s.sends
  {
    if events != [] {
      assert SameKinds(events[1..], others[1..]);
      if events[0].TimedOut? && s.sends < MAX_SENDS {
        WaitIgnoresIds(Send(s, m), m, events[1..], others[1..]);
      }
    }
  }

  /** What the thread does depends on when acknowledgements come and not on what they say. */
  lemma {:induction false} IdsDoNotMatter(s: Sender, queue: seq<Message>, events: seq<Event>, others: seq<Event>)
    requires SameKinds(events, others)
    ensures SameOutcome(ProcessAll(s, queue, events), ProcessAll(s, queue, others))
    decreases queue
  {
    if queue != [] {
      if s.lastAck > queue[0].id {
        IdsDoNotMatter(s, queue[1..], events, others);
      } else {
        WaitIgnoresIds(Send(s, queue[0]), queue[0], events, others);
        var p, q := Process(s, queue[0], events), Process(s, queue[0], others);
        if p.open {
          IdsDoNotMatter(p.sender, queue[1..], p.events, q.events);
        }
      }
    }
  }

  predicate OnlyAcks(events: seq<Event>) {
    forall i :: 0 <= i < |events| ==> events[i].Acked?
  }

  /** While nothing times out each acknowledgement releases one message, so as many messages are
      passed as acknowledgements came. */
  lemma {:induction false} OneAckOneMessage(s: Sender, queue: seq<Message>, from: nat, events: seq<Event>)
    requires OnlyAcks(events) && Follows(queue, from) && s.lastAck <= from
    ensures var p := ProcessAll(s, queue, events);
      && (p.open <==> |queue| <= |events|)
      && p.sender.out == s.out + queue[..Min(|events| + 1, |queue|)]
    decreases queue
  {
    if queue != [] {
      var p := Process(s, queue[0], events);
      if events != [] {
        assert s.out + queue[..1] == s.out + [queue[0]];
        OneAckOneMessage(Sender(from, s.sends + 1, s.out + [queue[0]]), queue[1..], from + 1, events[1..]);
        var k := Min(|events|, |queue| - 1);
        assert s.out + [queue[0]] + queue[1..][..k] == s.out + queue[..k + 1];
      } else {
        assert queue[..1] == [queue[0]];
      }
    }
  }

  /** The message numbered `message` was passed by an acknowledgement that says `ack`, when `copies`
      copies of earlier messages had been sent. */
  datatype Pass = Pass(message: nat, ack: nat, copies: nat)

  /** What passes the first message of the queue, if an acknowledgement does. */
  function FirstPass(s: Sender, m: Message, events: seq<Event>): seq<Pass>
    requires s.lastAck <= m.id
  {
    var n := Min(LeadingTimeouts(events), Left(s.sends + 1));
    if n < |events| && events[n].Acked? then [Pass(m.id, events[n].id, |s.out|)] else []
  }

  function Passes(s: Sender, queue: seq<Message>, events: seq<Event>): seq<Pass>
    decreases queue
  {
    if queue == [] then []
    else if s.lastAck > queue[0].id then Passes(s, queue[1..], events)
    else
      var p := Process(s, queue[0], events);
      FirstPass(s, queue[0], events) + if p.open then Passes(p.sender, queue[1..], p.events) else []
  }

  /** The numbers that the acknowledgements say, in order. */
  function AckIds(events: seq<Event>): seq<nat> {
    if events == [] then []
    else (if events[0].Acked? then [events[0].id] else []) + AckIds(events[1..])
  }

  lemma {:induction false} TimeoutsFirst(events: seq<Event>, n: nat)
    requires n <= LeadingTimeouts(events)
    ensures n <= |events| && AckIds(events[n..]) == AckIds(events)
    ensures n < LeadingTimeouts(events) ==> n < |events| && events[n].TimedOut?
    ensures n == LeadingTimeouts(events) && n < |events| ==> !events[n].TimedOut?
    decreases n
  {
    if n > 0 {
      TimeoutsFirst(events[1..], n - 1);
      assert events[1..][n - 1..] == events[n..];
    } else {
      assert events[0..] == events;
    }
  }

  /** Waiting uses up the timeouts that are answered and the event after them. */
  lemma {:induction false} WaitUses(s: Sender, m: Message, events: seq<Event>)
    ensures var n := Min(LeadingTimeouts(events), Left(s.sends));
      var p := Wait(s, m, events);
      && n <= |events| && (p.open <==> n < |events| && !events[n].Disconnected?)
      && (n < |events| ==> p.events == events[n + 1..])
    decreases MAX_SENDS - s.sends
  {
    if events != [] && events[0] == TimedOut && s.sends < MAX_SENDS {
      WaitUses(Send(s, m), m, events[1..]);
      var n := Min(LeadingTimeouts(events[1..]), Left(s.sends + 1));
      if n < |events[1..]| {
        assert events[1..][n + 1..] == events[n + 2..];
      }
    }
  }

  /** The first acknowledgement is the one that passes the message, unless it waits no more. */
  lemma FirstPassTakes(s: Sender, m: Message, events: seq<Event>)
    requires s.lastAck <= m.id
    ensures var f, p := FirstPass(s, m, events), Process(s, m, events);
      && |f| <= 1 && (f != [] ==> p.open && AckIds(events) == [f[0].ack] + AckIds(p.events))
      && (f == [] && p.open ==> AckIds(events) == AckIds(p.events))
  {
    var n := Min(LeadingTimeouts(events), Left(s.sends + 1));
    WaitUses(Send(s, m), m, events);
    TimeoutsFirst(events, n);
    if n < |events| {
      assert events[n..][1..] == events[n + 1..];
    }
  }

  /** The acknowledgements that pass messages are the first that came. */
  lemma {:induction false} PassesTakeFirst(s: Sender, queue: seq<Message>, events: seq<Event>)
    ensures |Passes(s, queue, events)| <= |AckIds(events)|
    ensures forall k :: 0 <= k < |Passes(s, queue, events)| ==> Passes(s, queue, events)[k].ack == AckIds(events)[k]
    decreases queue
  {
    if queue != [] {
      if s.lastAck > queue[0].id {
        PassesTakeFirst(s, queue[1..], events);
      } else {
        var p := Process(s, queue[0], events);
        FirstPassTakes(s, queue[0], events);
        if p.open {
          PassesTakeFirst(p.sender, queue[1..], p.events);
        }
      }
    }
  }

  predicate Increasing(queue: seq<Message>) {
    forall i, j :: 0 <= i < j < |queue| ==> queue[i].id < queue[j].id
  }

  /** `copies` tells where in the output the message begins; what comes before is of earlier ones. */
  predicate Located(x: Pass, out: seq<Message>) {
    && x.copies < |out| && out[x.copies].id == x.message
    && forall j :: 0 <= j < x.copies ==> out[j].id < x.message
  }

  predicate AllBefore(out: seq<Message>, queue: seq<Message>) {
    forall i, j :: 0 <= i < |out| && 0 <= j < |queue| ==> out[i].id < queue[j].id
  }

  lemma {:induction false} OutGrows(s: Sender, queue: seq<Message>, events: seq<Event>)
    ensures s.out <= ProcessAll(s, queue, events).sender.out
  {
    var ms, counts := OutputIsStuttered(s, queue, events);
  }

  /** One message: it is sent at least once, and what was sent before stays before it. */
  lemma ProcessSends(s: Sender, m: Message, events: seq<Event>)
    requires s.lastAck <= m.id
    ensures var p, n := Process(s, m, events), Min(LeadingTimeouts(events), Left(s.sends + 1));
      p.sender.out == s.out + Copies(m, n + 1) && (p.open ==> p.sender.lastAck == m.id)
  {
    var n := Min(LeadingTimeouts(events), Left(s.sends + 1));
    RepetitionsExact(Send(s, m), m, events);
    assert s.out + [m] + Copies(m, n) == s.out + Copies(m, n + 1);
  }

  lemma PassesAfter(s: Sender, queue: seq<Message>, events: seq<Event>)
    requires queue != [] && s.lastAck <= queue[0].id && Increasing(queue) && AllBefore(s.out, queue)
    ensures var p := Process(s, queue[0], events);
      Increasing(queue[1..]) && AllBefore(p.sender.out, queue[1..]) && |s.out| < |p.sender.out|
      && forall x :: x in FirstPass(s, queue[0], events) ==> Located(x, p.sender.out)
  {
    ProcessSends(s, queue[0], events);
    var p := Process(s, queue[0], events);
    assert p.sender.out[|s.out|] == queue[0];
  }

  lemma LocatedLater(x: Pass, out: seq<Message>, more: seq<Message>)
    requires Located(x, out) && out <= more
    ensures Located(x, more)
  {
  }

  /** Of messages with growing numbers each is located, and as many copies were sent before it at
      least as acknowledgements had passed messages. */
  lemma {:induction false} PassesLocated(s: Sender, queue: seq<Message>, events: seq<Event>, k: nat)
    requires Increasing(queue) && AllBefore(s.out, queue) && k < |Passes(s, queue, events)|
    ensures Located(Passes(s, queue, events)[k], ProcessAll(s, queue, events).sender.out)
    ensures |s.out| + k <= Passes(s, queue, events)[k].copies
    decreases queue
  {
    if s.lastAck > queue[0].id {
      PassesLocated(s, queue[1..], events, k);
    } else {
      var p, f := Process(s, queue[0], events), FirstPass(s, queue[0], events);
      PassesAfter(s, queue, events);
      if p.open {
        OutGrows(p.sender, queue[1..], p.events);
      }
      if k < |f| {
        LocatedLater(f[0], p.sender.out, ProcessAll(s, queue, events).sender.out);
      } else {
        PassesLocated(p.sender, queue[1..], p.events, k - |f|);
      }
    }
  }

  /** A client that acknowledges every copy that it gets, in order. */
  predicate InOrder(acks: seq<nat>, out: seq<Message>) {
    forall k :: 0 <= k < |acks| && k < |out| ==> acks[k] == out[k].id
  }

  /** For such a client: the acknowledgement that passes a message carries its number exactly when as
      many acknowledgements came before it as copies of earlier messages were sent; otherwise it
      carries the number of an earlier message. */
  lemma LateAckExact(lastAck: nat, queue: seq<Message>, events: seq<Event>, k: nat)
    requires Increasing(queue) && k < |Passes(Sender(lastAck, 0, []), queue, events)|
    requires InOrder(AckIds(events), ProcessAll(Sender(lastAck, 0, []), queue, events).sender.out)
    ensures var x, out := Passes(Sender(lastAck, 0, []), queue, events)[k], ProcessAll(Sender(lastAck, 0, []), queue, events).sender.out;
      && k < |AckIds(events)| && x.ack == AckIds(events)[k] && Located(x, out)
      && (x.ack == x.message <==> k == x.copies)
      && (x.ack != x.message <==> x.ack < x.message)
  {
    PassesTakeFirst(Sender(lastAck, 0, []), queue, events);
    PassesLocated(Sender(lastAck, 0, []), queue, events, k);
  }

  /** A message is sent twice because its acknowledgement was late; the client acknowledges both
      copies; the second of these, with the number of the first message, passes the next message. */
  lemma LateAckPassesNext(m: Message, n: Message)
    requires m.id < n.id
    ensures var events := [TimedOut, Acked(m.id), Acked(m.id)];
      && ProcessAll(Sender(0, 0, []), [m, n], events) == Progress(Sender(n.id, 3, [m, m, n]), [], true)
      && Passes(Sender(0, 0, []), [m, n], events) == [Pass(m.id, m.id, 0), Pass(n.id, m.id, 2)]
      && InOrder(AckIds(events), [m, m, n])
  {
    var events := [TimedOut, Acked(m.id), Acked(m.id)];
    var s := Sender(m.id, 2, [m, m]);
    assert events[1..] == [Acked(m.id), Acked(m.id)] && events[1..][1..] == [Acked(m.id)] && [Acked(m.id)][1..] == [];
    FirstOfTwo(m, events);
    LastOfTwo(s, n, [Acked(m.id)]);
    assert [m, n][1..] == [n];
    assert [m, m] + [n] == [m, m, n];
    assert AckIds([Acked(m.id)]) == [m.id];
    assert AckIds(events[1..]) == [m.id, m.id];
  }

  lemma FirstOfTwo(m: Message, events: seq<Event>)
    requires |events| >= 2 && events[0].TimedOut? && events[1].Acked?
    ensures Process(Sender(0, 0, []), m, events) == Progress(Sender(m.id, 2, [m, m]), events[1..][1..], true)
    ensures FirstPass(Sender(0, 0, []), m, events) == [Pass(m.id, events[1].id, 0)]
  {
    assert LeadingTimeouts(events[1..]) == 0;
    var s := Send(Send(Sender(0, 0, []), m), m);
    assert s == Sender(0, 2, [m, m]);
    assert Wait(s, m, events[1..]) == Progress(s, events[1..][1..], true);
  }

  lemma LastOfTwo(s: Sender, n: Message, events: seq<Event>)
    requires |events| == 1 && events[0].Acked? && s.lastAck <= n.id
    ensures ProcessAll(s, [n], events) == Progress(Sender(n.id, s.sends + 1, s.out + [n]), [], true)
    ensures Passes(s, [n], events) == [Pass(n.id, events[0].id, |s.out|)]
  {
    assert [n][1..] == [] && events[1..] == [];
    var t := Send(s, n);
    assert Wait(t, n, events) == Progress(t, [], true);
    assert ProcessAll(t.(lastAck := n.id), [], []) == Progress(t.(lastAck := n.id), [], true);
    assert Passes(t.(lastAck := n.id), [], []) == [];
  }

  function Timeouts(n: nat): seq<Event> {
    seq(n, _ => TimedOut)
  }

  lemma {:induction false} TimeoutsLead(n: nat)
    ensures LeadingTimeouts(Timeouts(n)) == n
  {
    if n > 0 {
      assert Timeouts(n)[1..] == Timeouts(n - 1);
      TimeoutsLead(n - 1);
    }
  }

  /** A thread that starts anew and never hears from the client: five copies of the first message, one
      of the second, and both are passed as if they had been acknowledged. */
  lemma LeftBehind(m: Message, n: Message)
    requires m.id < n.id
    ensures var p := ProcessAll(Sender(0, 0, []), [m, n], Timeouts(6));
      p.open && p.sender == Sender(n.id, 6, Copies(m, 5) + [n]) && AckIds(Timeouts(6)) == []
  {
    var s, events := Sender(0, 0, []), Timeouts(6);
    TimeoutsLead(6);
    RepetitionsExact(Send(s, m), m, events);
    WaitUses(Send(s, m), m, events);
    assert [m] + Copies(m, 4) == Copies(m, 5) && events[5..] == Timeouts(1);
    var s' := Sender(m.id, 5, Copies(m, 5));
    assert Process(s, m, events) == Progress(s', Timeouts(1), true);
    var t := Send(s', n);
    assert Wait(t, n, Timeouts(1)) == Progress(t, Timeouts(1)[1..], true);
    assert [m, n][1..] == [n] && [n][1..] == [];
    assert ProcessAll(t.(lastAck := n.id), [], Timeouts(1)[1..]) == Progress(t.(lastAck := n.id), Timeouts(1)[1..], true);
    assert ProcessAll(s', [n], Timeouts(1)) == ProcessAll(t.(lastAck := n.id), [], Timeouts(1)[1..]);
    TimeoutsFirst(events, 6);
    assert AckIds(events[6..]) == [];
  }

  // ----- dense queues -----

  /** Message numbers that follow one another. */
  predicate Follows(queue: seq<Message>, from: nat) {
    forall i :: 0 <= i < |queue| ==> queue[i].id == from + i
  }

  function Top(lastAck: nat, queue: seq<Message>): nat {
    if queue == [] then lastAck
    else
      var top := Top(lastAck, queue[..|queue| - 1]);
      if top < queue[|queue| - 1].id then queue[|queue| - 1].id else top
  }

  predicate AllAtMost(queue: seq<Message>, x: nat) {
    forall j :: 0 <= j < |queue| ==> queue[j].id <= x
  }

  lemma {:induction false} TopIs(lastAck: nat, queue: seq<Message>, x: nat)
    ensures Top(lastAck, queue) <= x <==> lastAck <= x && AllAtMost(queue, x)
  {
    if queue != [] {
      TopIs(lastAck, queue[..|queue| - 1], x);
    }
  }

  lemma {:induction false} TopHead(lastAck: nat, queue: seq<Message>)
    requires queue != []
    ensures Top(lastAck, queue) == Top(if lastAck < queue[0].id then queue[0].id else lastAck, queue[1..])
  {
    if |queue| == 1 {
      assert queue[..0] == [];
    } else {
      TopHead(lastAck, queue[..|queue| - 1]);
      assert queue[..|queue| - 1][1..] == queue[1..][..|queue| - 2];
    }
  }

  lemma {:induction false} FreshOneMore(lastAck: nat, queue: seq<Message>, m: Message)
    ensures Fresh(lastAck, queue + [m]) == Fresh(lastAck, queue) + if Top(lastAck, queue) <= m.id then [m] else []
    decreases queue
  {
    if queue == [] {
      assert [] + [m] == [m] && [m][1..] == [];
    } else {
      assert (queue + [m])[1..] == queue[1..] + [m];
      TopHead(lastAck, queue);
      FreshOneMore(if lastAck > queue[0].id then lastAck else queue[0].id, queue[1..], m);
    }
  }

  /** Whatever the numbers: a message is skipped exactly if its number is below the last acknowledgement or
      below that of a message before it in the queue. */
  lemma FreshExact(lastAck: nat, queue: seq<Message>, k: nat)
    requires k < |queue|
    ensures Fresh(lastAck, queue[..k + 1]) == Fresh(lastAck, queue[..k])
      + if lastAck <= queue[k].id && AllAtMost(queue[..k], queue[k].id) then [queue[k]] else []
  {
    assert queue[..k + 1] == queue[..k] + [queue[k]];
    FreshOneMore(lastAck, queue[..k], queue[k]);
    TopIs(lastAck, queue[..k], queue[k].id);
  }

  /** Of numbers that follow one another only those below the last acknowledgement are skipped. */
  lemma {:induction false} FreshOfDense(lastAck: nat, queue: seq<Message>, from: nat)
    requires Follows(queue, from)
    ensures Fresh(lastAck, queue) == if lastAck <= from then queue else if lastAck - from <= |queue| then queue[lastAck - from..] else []
    decreases queue
  {
    if queue != [] {
      if lastAck > from {
        FreshOfDense(lastAck, queue[1..], from + 1);
      } else {
        FreshOfDense(from, queue[1..], from + 1);
      }
    }
  }
}
