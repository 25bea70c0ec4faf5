/** One consumer of one stream over several runs of the server, each ended by a crash and followed
    by a load of the files: what is stored is sent at least once. */
module Delivery {
  import opened Text
  import opened JetStreamFormat
  import opened JetStreams
  import opened JetStreamLoad
  import opened JetStreamRuns
  import opened Consumers

  /** One run of the server: the commands it carries out, how many messages of its queue the
      consumer's thread takes before the end, and what that thread waits for. */
  datatype Session = Session(commands: seq<Command>, taken: nat, events: seq<Event>)

  /** The server when a run starts, and what was sent to the consumer in all runs so far. */
  datatype History = History(server: Server, reg: seq<Registered>, sent: set<Message>)

  /** There is a stream number `j`, with a consumer number `i`. */
  predicate Has(v: Server, j: nat, i: nat) {
    j < |v.streams| && i < |v.streams[j].consumers|
  }

  predicate Playable(h: History, run: Session) {
    && AllAcceptable(h.server, h.reg, run.commands)
    && forall n :: 0 <= n < |run.commands| ==> !run.commands[n].Restart?
  }

  /** The server when the run ends. */
  function AtEnd(h: History, run: Session): Server
    requires Playable(h, run)
  {
    Run(h.server, h.reg, run.commands)
  }

  function FirstOf(queue: seq<Message>, n: nat): seq<Message> {
    if n < |queue| then queue[..n] else queue
  }

  /** The work of the consumer's thread, which starts with the acknowledgement that was loaded. */
  function Work(h: History, j: nat, i: nat, run: Session): Progress
    requires Playable(h, run) && Has(h.server, j, i)
  {
    EndHas(h, run, j, i);
    ProcessAll(Sender(h.server.streams[j].consumers[i].lastAck, 0, []),
               FirstOf(AtEnd(h, run).streams[j].consumers[i].queue, run.taken), run.events)
  }

  /** The thread took everything from its queue and was still connected afterwards. */
  predicate Drained(h: History, j: nat, i: nat, run: Session)
    requires Playable(h, run) && Has(h.server, j, i)
  {
    EndHas(h, run, j, i);
    Work(h, j, i, run).open && run.taken >= |AtEnd(h, run).streams[j].consumers[i].queue|
  }

  function Elements(ms: seq<Message>): set<Message> {
    set m | m in ms
  }

  function Numbers(ms: set<Message>): set<nat> {
    set m | m in ms :: m.id
  }

  /** One run and the load after it. */
  function Next(h: History, j: nat, i: nat, run: Session): History
    requires Playable(h, run) && Has(h.server, j, i)
  {
    History(Restarted(AtEnd(h, run)), RunRegistry(h.server, h.reg, run.commands),
            h.sent + Elements(Work(h, j, i, run).sender.out))
  }

  // ----- what the commands do to one stream -----

  /** Messages are only added, and each goes into the consumer's queue. */
  predicate Grown(s: Stream, t: Stream, i: nat)
    requires i < |s.consumers|
  {
    && t.name == s.name && |s.consumers| <= |t.consumers| && t.consumers[i].name == s.consumers[i].name
    && s.messages <= t.messages && t.consumers[i].queue == s.consumers[i].queue + t.messages[|s.messages|..]
  }

  lemma SameGrown(s: Stream, t: Stream, i: nat)
    requires i < |s.consumers| && i < |t.consumers|
    requires t.name == s.name && t.messages == s.messages && |s.consumers| <= |t.consumers|
    requires t.consumers[i].name == s.consumers[i].name && t.consumers[i].queue == s.consumers[i].queue
    ensures Grown(s, t, i)
  {
    assert t.messages[|s.messages|..] == [];
    assert s.consumers[i].queue + [] == s.consumers[i].queue;
  }

  lemma GrownTwice(s: Stream, t: Stream, u: Stream, i: nat)
    requires i < |s.consumers| && Grown(s, t, i) && Grown(t, u, i)
    ensures Grown(s, u, i)
  {
    var a, b := t.messages[|s.messages|..], u.messages[|t.messages|..];
    assert u.messages[|s.messages|..] == a + b;
    assert s.consumers[i].queue + a + b == s.consumers[i].queue + (a + b);
  }

  lemma StoredGrows(s: Stream, text: string, i: nat)
    requires i < |s.consumers|
    ensures Grown(s, Stored(s, text), i) && Stored(s, text).consumers[i].lastAck == s.consumers[i].lastAck
  {
    assert Stored(s, text).messages[|s.messages|..] == [Message(text, s.idCounter)];
  }

  lemma PublishGrows(v: Server, subject: string, text: string, j: nat, i: nat)
    requires Has(v, j, i)
    ensures var v' := Published(v, 0, subject, text);
      && Has(v', j, i) && Grown(v.streams[j], v'.streams[j], i)
      && v'.streams[j].consumers[i].lastAck == v.streams[j].consumers[i].lastAck
  {
    PublishedAt(v, 0, subject, text, j);
    StoredGrows(v.streams[j], text, i);
    SameGrown(v.streams[j], v.streams[j], i);
  }

  lemma AckGrows(v: Server, stream: string, consumer: string, id: nat, j: nat, i: nat)
    requires Has(v, j, i)
    ensures var v' := JetStreamRuns.Acked(v, stream, consumer, id);
      && Has(v', j, i) && Grown(v.streams[j], v'.streams[j], i)
      && (v'.streams[j].consumers[i].lastAck == v.streams[j].consumers[i].lastAck
          || (AcksFor(Ack(stream, consumer, id), v.streams[j], i) && v'.streams[j].consumers[i].lastAck == id))
  {
    AckInAt(v.streams[j].consumers, consumer, id);
    var v' := JetStreamRuns.Acked(v, stream, consumer, id);
    SameGrown(v.streams[j], v'.streams[j], i);
  }

  lemma CreateGrows(v: Server, c: Command, j: nat, i: nat)
    requires Has(v, j, i) && (c.CreateConsumer? || (c.CreateStream? && c.subjects != []))
    ensures Has(Step(v, c), j, i) && Grown(v.streams[j], Step(v, c).streams[j], i)
    ensures Step(v, c).streams[j].consumers[i] == v.streams[j].consumers[i]
  {
    SameGrown(v.streams[j], Step(v, c).streams[j], i);
  }

  lemma StepGrows(v: Server, c: Command, j: nat, i: nat)
    requires Has(v, j, i) && !c.Restart? && (c.CreateStream? ==> c.subjects != [])
    ensures var v' := Step(v, c);
      && Has(v', j, i) && Grown(v.streams[j], v'.streams[j], i)
      && (v'.streams[j].consumers[i].lastAck == v.streams[j].consumers[i].lastAck
          || (AcksFor(c, v.streams[j], i) && v'.streams[j].consumers[i].lastAck == c.id))
  {
    match c
    case Publish(subject, text) => PublishGrows(v, subject, text, j, i);
    case Ack(stream, consumer, id) => AckGrows(v, stream, consumer, id, j, i);
    case _ => CreateGrows(v, c, j, i);
  }

  /** The number is the acknowledgement of before or one that a command gave. */
  predicate AckedBy(s: Stream, i: nat, cs: seq<Command>, id: nat)
    requires i < |s.consumers|
  {
    id == s.consumers[i].lastAck || exists n :: 0 <= n < |cs| && AcksFor(cs[n], s, i) && cs[n].id == id
  }

  lemma AckedByMore(s: Stream, t: Stream, i: nat, cs: seq<Command>, id: nat)
    requires i < |s.consumers| && Grown(s, t, i) && cs != []
    requires t.consumers[i].lastAck == s.consumers[i].lastAck || (AcksFor(cs[0], s, i) && t.consumers[i].lastAck == cs[0].id)
    requires AckedBy(t, i, cs[1..], id)
    ensures AckedBy(s, i, cs, id)
  {
    if n :| 0 <= n < |cs[1..]| && AcksFor(cs[1..][n], t, i) && cs[1..][n].id == id {
      assert AcksFor(cs[n + 1], s, i) && cs[n + 1].id == id;
    }
  }

  lemma {:induction false} RunGrows(v: Server, reg: seq<Registered>, cs: seq<Command>, j: nat, i: nat)
    requires AllAcceptable(v, reg, cs) && Has(v, j, i) && forall n :: 0 <= n < |cs| ==> !cs[n].Restart?
    ensures var v' := Run(v, reg, cs);
      Has(v', j, i) && Grown(v.streams[j], v'.streams[j], i) && AckedBy(v.streams[j], i, cs, v'.streams[j].consumers[i].lastAck)
    decreases cs
  {
    if cs == [] {
      SameGrown(v.streams[j], v.streams[j], i);
    } else {
      var v1, v' := Step(v, cs[0]), Run(v, reg, cs);
      StepGrows(v, cs[0], j, i);
      RunGrows(v1, Register(v, reg, cs[0]), cs[1..], j, i);
      GrownTwice(v.streams[j], v1.streams[j], v'.streams[j], i);
      AckedByMore(v.streams[j], v1.streams[j], i, cs, v'.streams[j].consumers[i].lastAck);
    }
  }

  lemma EndHas(h: History, run: Session, j: nat, i: nat)
    requires Playable(h, run) && Has(h.server, j, i)
    ensures Has(AtEnd(h, run), j, i)
  {
    RunGrows(h.server, h.reg, run.commands, j, i);
  }

  // ----- what the commands write of one consumer -----

  /** The acknowledgement that a load would give the consumer. */
  function FileAck(v: Server, reg: seq<Registered>, j: nat, i: nat): nat
    requires Has(v, j, i) && i < |Of(reg, v.streams[j].name)|
  {
    Of(reg, v.streams[j].name)[i].lastAck
  }

  /** What a command writes of the consumer. */
  function WrittenNext(s: Stream, i: nat, before: nat, c: Command): nat
    requires i < |s.consumers|
  {
    if AcksFor(c, s, i) then c.id else if CreatesAgain(c, s, i) then 0 else before
  }

  function LastWritten(s: Stream, i: nat, before: nat, cs: seq<Command>): nat
    requires i < |s.consumers|
    decreases cs
  {
    if cs == [] then before else LastWritten(s, i, WrittenNext(s, i, before, cs[0]), cs[1..])
  }

  lemma {:induction false} LastWrittenSame(s: Stream, t: Stream, i: nat, before: nat, cs: seq<Command>)
    requires i < |s.consumers| && i < |t.consumers| && t.name == s.name && t.consumers[i].name == s.consumers[i].name
    ensures LastWritten(t, i, before, cs) == LastWritten(s, i, before, cs)
    decreases cs
  {
    if cs != [] {
      LastWrittenSame(s, t, i, WrittenNext(s, i, before, cs[0]), cs[1..]);
    }
  }

  /** Whether a command creates the consumer at a place again is told by its name alone. */
  lemma CreatesByName(v: Server, reg: seq<Registered>, c: Command, j: nat, i: nat)
    requires Saved(v, reg) && c.CreateConsumer? && OnlyHere(reg, c.stream, c.name) && Has(v, j, i)
    ensures CreatesAgain(c, v.streams[j], i) <==> v.streams[j].consumers[i].name == c.name
    ensures CreatesAgain(c, v.streams[j], i) ==> Taken(reg, c.name) && Position(v.streams, c.stream) == j
  {
    KnowsIffRegistered(v, reg, j, v.streams[j].consumers[i].name);
    PositionIs(v.streams, j);
  }

  lemma AgainWrites(v: Server, reg: seq<Registered>, n: Consumer, j: nat, i: nat)
    requires Saved(v, reg) && Has(v, j, i)
    ensures i < |Of(reg, v.streams[j].name)| && i < |Of(Written(reg, n), v.streams[j].name)|
    ensures Of(Written(reg, n), v.streams[j].name)[i].lastAck
         == if v.streams[j].consumers[i].name == n.name then n.lastAck else FileAck(v, reg, j, i)
  {
    SameNumber(v, reg, j);
    WrittenAgrees(reg, n, v.streams[j].name, i);
  }

  lemma NewWrites(v: Server, reg: seq<Registered>, r: Registered, j: nat, i: nat)
    requires Saved(v, reg) && Has(v, j, i)
    ensures i < |Of(reg, v.streams[j].name)| && i < |Of(reg + [r], v.streams[j].name)|
    ensures Of(reg + [r], v.streams[j].name)[i].lastAck == FileAck(v, reg, j, i)
  {
    SameNumber(v, reg, j);
    OfOneMore(reg, r, v.streams[j].name);
  }

  lemma CreateWrites(v: Server, reg: seq<Registered>, c: Command, j: nat, i: nat)
    requires Saved(v, reg) && c.CreateConsumer? && OnlyHere(reg, c.stream, c.name) && Has(v, j, i)
    ensures i < |Of(reg, v.streams[j].name)| && i < |Of(Register(v, reg, c), v.streams[j].name)|
    ensures Of(Register(v, reg, c), v.streams[j].name)[i].lastAck == WrittenNext(v.streams[j], i, FileAck(v, reg, j, i), c)
  {
    var n := Consumer(c.name, c.delivery, 0, []);
    SameNumber(v, reg, j);
    CreatesByName(v, reg, c, j, i);
    if Taken(reg, c.name) {
      AgainWrites(v, reg, n, j, i);
    } else {
      NewWrites(v, reg, Registered(c.stream, n), j, i);
    }
  }

  lemma KnownAckWrites(v: Server, reg: seq<Registered>, c: Command, j: nat, i: nat)
    requires Saved(v, reg) && c.Ack? && Has(v, j, i) && Acknowledges(v, c.stream, c.consumer)
    ensures var n := Acknowledged(v.streams[Position(v.streams, c.stream)], c.consumer, c.id);
      && i < |Of(reg, v.streams[j].name)| && i < |Of(Written(reg, n), v.streams[j].name)|
      && Of(Written(reg, n), v.streams[j].name)[i].lastAck == WrittenNext(v.streams[j], i, FileAck(v, reg, j, i), c)
  {
    OwnerAcks(v, reg, c, j, i);
    AgainWrites(v, reg, Acknowledged(v.streams[Position(v.streams, c.stream)], c.consumer, c.id), j, i);
  }

  lemma AckWritesOne(v: Server, reg: seq<Registered>, c: Command, j: nat, i: nat)
    requires Saved(v, reg) && c.Ack? && Has(v, j, i)
    ensures i < |Of(reg, v.streams[j].name)| && i < |Of(Register(v, reg, c), v.streams[j].name)|
    ensures Of(Register(v, reg, c), v.streams[j].name)[i].lastAck == WrittenNext(v.streams[j], i, FileAck(v, reg, j, i), c)
  {
    SameNumber(v, reg, j);
    AcksKnown(v, reg, c, j, i);
    if Acknowledges(v, c.stream, c.consumer) {
      KnownAckWrites(v, reg, c, j, i);
    }
  }

  lemma StepWrites(v: Server, reg: seq<Registered>, c: Command, j: nat, i: nat)
    requires Saved(v, reg) && Acceptable(v, reg, c) && Has(v, j, i)
    ensures i < |Of(reg, v.streams[j].name)| && i < |Of(Register(v, reg, c), v.streams[j].name)|
    ensures Of(Register(v, reg, c), v.streams[j].name)[i].lastAck == WrittenNext(v.streams[j], i, FileAck(v, reg, j, i), c)
  {
    SameNumber(v, reg, j);
    if c.CreateConsumer? {
      CreateWrites(v, reg, c, j, i);
    } else if c.Ack? {
      AckWritesOne(v, reg, c, j, i);
    }
  }

  /** What a load after a run gives the consumer: the last number that it acknowledged, or 0 if it was
      created again since. */
  lemma {:induction false} RunWrites(v: Server, reg: seq<Registered>, cs: seq<Command>, j: nat, i: nat)
    requires Saved(v, reg) && AllAcceptable(v, reg, cs) && Has(v, j, i) && forall n :: 0 <= n < |cs| ==> !cs[n].Restart?
    ensures var reg' := RunRegistry(v, reg, cs);
      && i < |Of(reg, v.streams[j].name)| && i < |Of(reg', v.streams[j].name)|
      && Of(reg', v.streams[j].name)[i].lastAck == LastWritten(v.streams[j], i, FileAck(v, reg, j, i), cs)
    decreases cs
  {
    SameNumber(v, reg, j);
    if cs != [] {
      var v1, reg1 := Step(v, cs[0]), Register(v, reg, cs[0]);
      StepGrows(v, cs[0], j, i);
      StepWrites(v, reg, cs[0], j, i);
      StepKeeps(v, reg, cs[0]);
      RunWrites(v1, reg1, cs[1..], j, i);
      LastWrittenSame(v.streams[j], v1.streams[j], i, FileAck(v1, reg1, j, i), cs[1..]);
    }
  }

  /** The number is 0, or what the file said, or one that a command gave. */
  predicate WrittenBy(s: Stream, i: nat, before: nat, cs: seq<Command>, id: nat)
    requires i < |s.consumers|
  {
    id == 0 || id == before || exists n :: 0 <= n < |cs| && AcksFor(cs[n], s, i) && cs[n].id == id
  }

  lemma {:induction false} LastIsWritten(s: Stream, i: nat, before: nat, cs: seq<Command>)
    requires i < |s.consumers|
    ensures WrittenBy(s, i, before, cs, LastWritten(s, i, before, cs))
    decreases cs
  {
    if cs != [] {
      var id := LastWritten(s, i, before, cs);
      LastIsWritten(s, i, WrittenNext(s, i, before, cs[0]), cs[1..]);
      if n :| 0 <= n < |cs[1..]| && AcksFor(cs[1..][n], s, i) && cs[1..][n].id == id {
        assert AcksFor(cs[n + 1], s, i) && cs[n + 1].id == id;
      }
    }
  }

  // ----- what a run sends -----

  lemma {:induction false} InStutter(ms: seq<Message>, counts: seq<nat>, m: Message)
    requires |ms| == |counts| && NonZero(counts)
    ensures m in Stutter(ms, counts) <==> m in ms
  {
    if ms != [] {
      InStutter(ms[1..], counts[1..], m);
      assert Copies(ms[0], counts[0])[0] == ms[0];
    }
  }

  function Max(a: nat, b: nat): nat {
    if a < b then b else a
  }

  lemma NumbersOfStutter(ms: seq<Message>, counts: seq<nat>, start: nat)
    requires |ms| == |counts| && NonZero(counts) && Follows(ms, start)
    ensures IsInterval(Numbers(Elements(Stutter(ms, counts))), start, start + |ms|)
    ensures Elements(Stutter(ms, counts)) == Elements(ms)
  {
    forall m ensures m in Stutter(ms, counts) <==> m in ms {
      InStutter(ms, counts, m);
    }
    assert Elements(Stutter(ms, counts)) == Elements(ms);
    forall x | start <= x < start + |ms| ensures x in Numbers(Elements(ms)) {
      assert ms[x - start] in Elements(ms);
    }
  }

  ghost predicate IsInterval(ids: set<nat>, start: nat, end: nat) {
    forall x :: x in ids <==> start <= x < end
  }

  /** From a queue of numbers that follow one another, an interval of numbers is sent, with the texts
      of the queue; it reaches the end when the queue was drained. */
  lemma SentIsInterval(lastAck: nat, queue: seq<Message>, from: nat, events: seq<Event>) returns (end: nat)
    requires Follows(queue, from)
    ensures var p := ProcessAll(Sender(lastAck, 0, []), queue, events);
      && IsInterval(Numbers(Elements(p.sender.out)), Max(lastAck, from), end)
      && (p.open ==> end == Max(Max(lastAck, from), from + |queue|)) && Elements(p.sender.out) <= Elements(queue)
  {
    var start := Max(lastAck, from);
    var ms, counts := OutputIsStuttered(Sender(lastAck, 0, []), queue, events);
    FreshOfDense(lastAck, queue, from);
    end := start + |ms|;
    var none: seq<Message> := [];
    assert none + Stutter(ms, counts) == Stutter(ms, counts);
    assert Follows(ms, start);
    NumbersOfStutter(ms, counts, start);
  }

  // ----- the invariant -----

  predicate NoGaps(sent: set<nat>, k: nat) {
    forall a, x :: a in sent && k <= x < a ==> x in sent
  }

  /** Everything from `k` up to a number that was sent, or to the acknowledgement, was sent. */
  predicate DownClosed(sent: set<nat>, k: nat, lastAck: nat) {
    && NoGaps(sent, k)
    && (forall x :: k <= x < lastAck ==> x in sent)
  }

  /** The consumer's queue holds the newest messages, from a number no later than `k`. */
  predicate Queued(s: Stream, i: nat, k: nat)
    requires i < |s.consumers|
  {
    var queue := s.consumers[i].queue;
    && |queue| <= |s.messages| && |s.messages| - |queue| <= k
    && queue == s.messages[|s.messages| - |queue|..]
  }

  predicate SameText(m: Message, messages: seq<Message>) {
    m.id < |messages| && Normal(m.text) == Normal(messages[m.id].text)
  }

  /** What was sent was stored, up to white space. */
  predicate Genuine(sent: set<Message>, messages: seq<Message>) {
    forall m :: m in sent ==> SameText(m, messages)
  }

  /** Everything below the number, from `k` on, was sent. */
  predicate Behindhand(sent: set<Message>, k: nat, id: nat, s: Stream) {
    id <= |s.messages| && forall x :: k <= x < id ==> x in Numbers(sent)
  }

  ghost predicate Good(h: History, j: nat, i: nat, k: nat) {
    && Saved(h.server, h.reg) && Has(h.server, j, i)
    && var s := h.server.streams[j];
    && Queued(s, i, k) && k <= |s.messages| && i < |Of(h.reg, s.name)|
    && NoGaps(Numbers(h.sent), k) && Genuine(h.sent, s.messages)
    && Behindhand(h.sent, k, s.consumers[i].lastAck, s) && Behindhand(h.sent, k, FileAck(h.server, h.reg, j, i), s)
  }

  lemma GrownQueued(s: Stream, t: Stream, i: nat, k: nat)
    requires i < |s.consumers| && Queued(s, i, k) && Grown(s, t, i)
    ensures Queued(t, i, k)
  {
    var from := |s.messages| - |s.consumers[i].queue|;
    assert t.messages[from..] == s.messages[from..] + t.messages[|s.messages|..];
  }

  lemma GrownGenuine(sent: set<Message>, messages: seq<Message>, more: seq<Message>)
    requires Genuine(sent, messages) && messages <= more
    ensures Genuine(sent, more)
  {
  }

  /** The client acknowledges only messages that it was sent. */
  predicate Honest(h: History, j: nat, i: nat, run: Session)
    requires Playable(h, run) && Has(h.server, j, i)
  {
    forall n :: 0 <= n < |run.commands| && AcksFor(run.commands[n], h.server.streams[j], i) ==>
      run.commands[n].id in Numbers(Next(h, j, i, run).sent)
  }

  lemma IntervalFills(sent: set<nat>, ids: set<nat>, k: nat, lastAck: nat, from: nat, end: nat)
    requires DownClosed(sent, k, lastAck) && from <= k && IsInterval(ids, Max(lastAck, from), end)
    ensures NoGaps(sent + ids, k)
    ensures forall x :: k <= x < Max(lastAck, end) ==> x in sent + ids
  {
    forall a, x | a in sent + ids && k <= x < a ensures x in sent + ids {
      if a !in sent && x < Max(lastAck, from) {
        assert x < lastAck;
      }
    }
    forall x | k <= x < Max(lastAck, end) ensures x in sent + ids {
      if x < Max(lastAck, from) {
        assert x < lastAck;
      }
    }
  }

  lemma QueueFollows(s: Stream, i: nat, k: nat, n: nat)
    requires StreamOk(s) && i < |s.consumers| && Queued(s, i, k)
    ensures Follows(FirstOf(s.consumers[i].queue, n), |s.messages| - |s.consumers[i].queue|)
    ensures Genuine(Elements(s.consumers[i].queue), s.messages)
  {
    var queue := s.consumers[i].queue;
    var from := |s.messages| - |queue|;
    forall x | 0 <= x < |queue| ensures queue[x] == s.messages[from + x] && queue[x].id == from + x {
      assert queue[x] == s.messages[from..][x];
    }
    forall m | m in queue ensures SameText(m, s.messages) {
      var x :| 0 <= x < |queue| && queue[x] == m;
    }
  }

  lemma NumbersUnion(a: set<Message>, b: set<Message>)
    ensures Numbers(a + b) == Numbers(a) + Numbers(b)
  {
  }

  /** The server at the end of a run. */
  lemma EndKeeps(h: History, j: nat, i: nat, k: nat, run: Session)
    requires Good(h, j, i, k) && Playable(h, run)
    ensures Has(AtEnd(h, run), j, i)
    ensures var s, reg := AtEnd(h, run).streams[j], RunRegistry(h.server, h.reg, run.commands);
      && Saved(AtEnd(h, run), reg) && StreamOk(s) && Grown(h.server.streams[j], s, i) && Queued(s, i, k)
      && i < |Of(reg, s.name)|
      && WrittenBy(h.server.streams[j], i, FileAck(h.server, h.reg, j, i), run.commands, FileAck(AtEnd(h, run), reg, j, i))
  {
    RunSaved(h.server, h.reg, run.commands);
    RunGrows(h.server, h.reg, run.commands, j, i);
    RunWrites(h.server, h.reg, run.commands, j, i);
    LastIsWritten(h.server.streams[j], i, FileAck(h.server, h.reg, j, i), run.commands);
    GrownQueued(h.server.streams[j], AtEnd(h, run).streams[j], i, k);
    assert StreamSaved(AtEnd(h, run).files.data[j], AtEnd(h, run).streams[j], RunRegistry(h.server, h.reg, run.commands));
  }

  lemma SentKeeps(h: History, j: nat, i: nat, k: nat, run: Session)
    requires Good(h, j, i, k) && Playable(h, run)
    ensures Has(AtEnd(h, run), j, i)
    ensures var messages, sent := AtEnd(h, run).streams[j].messages, Next(h, j, i, run).sent;
      && NoGaps(Numbers(sent), k) && Genuine(sent, messages) && h.sent <= sent
      && (Drained(h, j, i, run) ==> forall x :: k <= x < |messages| ==> x in Numbers(sent))
  {
    EndKeeps(h, j, i, k, run);
    var s := AtEnd(h, run).streams[j];
    var queue := s.consumers[i].queue;
    var from, lastAck := |s.messages| - |queue|, h.server.streams[j].consumers[i].lastAck;
    QueueFollows(s, i, k, run.taken);
    var end := SentIsInterval(lastAck, FirstOf(queue, run.taken), from, run.events);
    var now := Elements(Work(h, j, i, run).sender.out);
    IntervalFills(Numbers(h.sent), Numbers(now), k, lastAck, from, end);
    NumbersUnion(h.sent, now);
    GrownGenuine(h.sent, h.server.streams[j].messages, s.messages);
    assert Elements(FirstOf(queue, run.taken)) <= Elements(queue);
  }

  /** The load after the run gives back the same numbers, with every message queued again, and the
      consumer with the acknowledgement that was written. */
  lemma LoadedStream(v: Server, reg: seq<Registered>, j: nat, i: nat, sent: set<Message>)
    requires Saved(v, reg) && Has(v, j, i) && Genuine(sent, v.streams[j].messages)
    ensures Has(Restarted(v), j, i) && i < |Of(reg, v.streams[j].name)|
    ensures var t := Restarted(v).streams[j];
      && t.name == v.streams[j].name && |t.messages| == |v.streams[j].messages|
      && Queued(t, i, 0) && Genuine(sent, t.messages) && t.consumers[i].lastAck == FileAck(v, reg, j, i)
  {
    SameNumber(v, reg, j);
    RestartedStream(v, reg, j);
    var s := v.streams[j].(consumers := Of(reg, v.streams[j].name));
    RestoredCount(s);
    RestoredAt(s, i);
    LoadedQueue(s, i, sent);
  }

  lemma LoadedQueue(s: Stream, i: nat, sent: set<Message>)
    requires i < |s.consumers| && Genuine(sent, s.messages)
    ensures i < |Restored(s).consumers| && Queued(Restored(s), i, 0)
    ensures Genuine(sent, Restored(s).messages) && |Restored(s).messages| == |s.messages|
  {
    var ms := NormalAll(s.messages);
    assert Restored(s).consumers[i].queue == ms;
    forall m | m in sent ensures SameText(m, ms) {
      assert SameText(m, s.messages);
      NormalTwice(s.messages[m.id].text);
    }
  }

  lemma NextKeeps(h: History, j: nat, i: nat, k: nat, run: Session)
    requires Good(h, j, i, k) && Playable(h, run) && Honest(h, j, i, run)
    ensures Good(Next(h, j, i, run), j, i, k)
  {
    SentKeeps(h, j, i, k, run);
    EndKeeps(h, j, i, k, run);
    var v, reg, sent := AtEnd(h, run), RunRegistry(h.server, h.reg, run.commands), Next(h, j, i, run).sent;
    RestartKeeps(v, reg);
    LoadedStream(v, reg, j, i, sent);
    AckBehind(h, j, i, k, run, FileAck(v, reg, j, i), v.streams[j]);
    BehindSame(sent, k, FileAck(v, reg, j, i), v.streams[j], Restarted(v).streams[j]);
  }

  lemma BehindSame(sent: set<Message>, k: nat, id: nat, s: Stream, t: Stream)
    requires Behindhand(sent, k, id, s) && |t.messages| == |s.messages|
    ensures Behindhand(sent, k, id, t)
  {
  }

  /** The acknowledgement that is written is 0, that of before or one of the numbers sent: everything
      below it was sent. */
  lemma AckBehind(h: History, j: nat, i: nat, k: nat, run: Session, id: nat, s: Stream)
    requires Good(h, j, i, k) && Playable(h, run) && Honest(h, j, i, run)
    requires WrittenBy(h.server.streams[j], i, FileAck(h.server, h.reg, j, i), run.commands, id)
    requires |h.server.streams[j].messages| <= |s.messages| && Genuine(Next(h, j, i, run).sent, s.messages)
    requires NoGaps(Numbers(Next(h, j, i, run).sent), k) && h.sent <= Next(h, j, i, run).sent
    ensures Behindhand(Next(h, j, i, run).sent, k, id, s)
  {
    var sent := Next(h, j, i, run).sent;
    NumbersMore(h.sent, sent);
    if id != 0 && id != FileAck(h.server, h.reg, j, i) {
      var n :| 0 <= n < |run.commands| && AcksFor(run.commands[n], h.server.streams[j], i) && run.commands[n].id == id;
      assert id in Numbers(sent);
    }
  }

  lemma NumbersMore(a: set<Message>, b: set<Message>)
    requires a <= b
    ensures Numbers(a) <= Numbers(b)
  {
  }

  // ----- several runs -----

  /** Runs whose commands the files can hold and whose client acknowledges only what it was sent. */
  predicate Lawful(h: History, j: nat, i: nat, runs: seq<Session>)
    decreases runs
  {
    runs == [] ||
    (Playable(h, runs[0]) && Has(h.server, j, i) && Honest(h, j, i, runs[0]) && Lawful(Next(h, j, i, runs[0]), j, i, runs[1..]))
  }

  function After(h: History, j: nat, i: nat, runs: seq<Session>): History
    requires Lawful(h, j, i, runs)
    decreases runs
  {
    if runs == [] then h else After(Next(h, j, i, runs[0]), j, i, runs[1..])
  }

  lemma {:induction false} RunsKeep(h: History, j: nat, i: nat, k: nat, runs: seq<Session>)
    requires Good(h, j, i, k) && Lawful(h, j, i, runs)
    ensures Good(After(h, j, i, runs), j, i, k)
    decreases runs
  {
    if runs != [] {
      NextKeeps(h, j, i, k, runs[0]);
      RunsKeep(Next(h, j, i, runs[0]), j, i, k, runs[1..]);
    }
  }

  /** A consumer that has just been added. */
  predicate JustJoined(v: Server, reg: seq<Registered>, j: nat, i: nat) {
    && Has(v, j, i) && v.streams[j].consumers[i].queue == [] && v.streams[j].consumers[i].lastAck == 0
    && i < |Of(reg, v.streams[j].name)| && FileAck(v, reg, j, i) == 0
  }

  /** Creating a consumer with a name never used before adds it at the end. */
  lemma JoinedIsNew(v: Server, reg: seq<Registered>, stream: string, name: string, delivery: string)
    requires Saved(v, reg) && Acceptable(v, reg, CreateConsumer(stream, name, delivery)) && Position(v.streams, stream) < |v.streams|
    requires !Taken(reg, name)
    ensures var j, c := Position(v.streams, stream), CreateConsumer(stream, name, delivery);
      var v' := Step(v, c);
      && Saved(v', Register(v, reg, c)) && JustJoined(v', Register(v, reg, c), j, |v.streams[j].consumers|)
      && v'.streams[j].messages == v.streams[j].messages
  {
    JoinedKeeps(v, reg, stream, name, delivery);
    KnowsIffRegistered(v, reg, Position(v.streams, stream), name);
    NewcomerAgrees(v, reg, CreateConsumer(stream, name, delivery), Position(v.streams, stream));
  }

  /** The message was sent, up to white space. */
  predicate WasSent(sent: set<Message>, m: Message) {
    exists n :: n in sent && n.id == m.id && Normal(n.text) == Normal(m.text)
  }

  /** Every message from number `k` on was sent. */
  predicate SentFrom(sent: set<Message>, messages: seq<Message>, k: nat) {
    forall x :: k <= x < |messages| ==> WasSent(sent, messages[x])
  }

  lemma NumbersSuffice(sent: set<Message>, messages: seq<Message>, k: nat)
    requires Dense(messages) && Genuine(sent, messages) && forall x :: k <= x < |messages| ==> x in Numbers(sent)
    ensures SentFrom(sent, messages, k)
  {
    forall x | k <= x < |messages| ensures WasSent(sent, messages[x]) {
      assert x in Numbers(sent);
      var m :| m in sent && m.id == x;
      assert SameText(m, messages);
    }
  }

  lemma DrainedSendsAll(h: History, j: nat, i: nat, k: nat, run: Session)
    requires Good(h, j, i, k) && Playable(h, run) && Drained(h, j, i, run)
    ensures j < |AtEnd(h, run).streams| && SentFrom(Next(h, j, i, run).sent, AtEnd(h, run).streams[j].messages, k)
  {
    SentKeeps(h, j, i, k, run);
    EndKeeps(h, j, i, k, run);
    NumbersSuffice(Next(h, j, i, run).sent, AtEnd(h, run).streams[j].messages, k);
  }

  lemma JoinedGood(v: Server, reg: seq<Registered>, j: nat, i: nat)
    requires Saved(v, reg) && JustJoined(v, reg, j, i)
    ensures Good(History(v, reg, {}), j, i, |v.streams[j].messages|)
  {
    var s := v.streams[j];
    assert Queued(s, i, |s.messages|);
    assert NoGaps(Numbers({}), |s.messages|) && Genuine({}, s.messages) && Behindhand({}, |s.messages|, 0, s);
  }

  /** After any number of runs, each cut anywhere and followed by a load of the files, and one in
      which the queue was drained, every message stored since the consumer joined was sent to it. */
  lemma AtLeastOnce(v: Server, reg: seq<Registered>, j: nat, i: nat, runs: seq<Session>, last: Session)
    requires Saved(v, reg) && JustJoined(v, reg, j, i) && Lawful(History(v, reg, {}), j, i, runs)
    requires var h := After(History(v, reg, {}), j, i, runs);
      Playable(h, last) && Has(h.server, j, i) && Drained(h, j, i, last)
    ensures var h := After(History(v, reg, {}), j, i, runs);
      && j < |AtEnd(h, last).streams|
      && SentFrom(Next(h, j, i, last).sent, AtEnd(h, last).streams[j].messages, |v.streams[j].messages|)
  {
    var k := |v.streams[j].messages|;
    JoinedGood(v, reg, j, i);
    RunsKeep(History(v, reg, {}), j, i, k, runs);
    DrainedSendsAll(After(History(v, reg, {}), j, i, runs), j, i, k, last);
  }
}
