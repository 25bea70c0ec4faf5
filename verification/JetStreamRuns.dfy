/** Runs of the server's stream commands, restarts included: the files always hold what is in
    memory. */
module JetStreamRuns {
  import opened Sequences
  import opened Text
  import opened Subjects
  import opened FileProcessing
  import opened JetStreamFormat
  import opened JetStreams
  import opened JetStreamLoad

  datatype Command =
    | CreateStream(name: string, subjects: seq<string>)
    | CreateConsumer(stream: string, name: string, delivery: string)
    | Publish(subject: string, text: string)
    | Ack(stream: string, consumer: string, id: nat)
    | Restart

  /** Position of the first stream called `name`, or the length. */
  function Position(streams: seq<Stream>, name: string): (i: nat)
    ensures i <= |streams|
    ensures i < |streams| ==> streams[i].name == name
    ensures forall j :: 0 <= j < i ==> streams[j].name != name
  {
    FirstIndex(streams, (s: Stream) => s.name == name)
  }

  predicate Receives(s: Stream, subject: string) {
    exists i :: 0 <= i < |s.subjects| && Matches(s.subjects[i], subject)
  }

  // ----- commands -----

  function Created(v: Server, name: string, subjects: seq<string>): Server
    requires subjects != []
  {
    if Position(v.streams, name) < |v.streams| then v
    else
      var s := Stream(name, subjects, [], 0, []);
      Server(v.streams + [s],
             v.files.(data := Upsert(v.files.data, StreamDataLine(s), name), rel := Upsert(v.files.rel, StreamRelLine(s), name)))
  }

  function Joined(v: Server, stream: string, name: string, delivery: string): Server {
    var i := Position(v.streams, stream);
    if i == |v.streams| then v
    else
      var c := Consumer(name, delivery, 0, []);
      var s := v.streams[i];
      var s' := WithConsumer(s, c);
      Server(v.streams[i := s'],
             v.files.(consumers := Upsert(v.files.consumers, LineOf(c), name),
                      rel := if Knows(s.consumers, name) then v.files.rel else Upsert(v.files.rel, StreamRelLine(s'), s.name)))
  }

  function StoredAt(v: Server, i: nat, text: string): Server
    requires i < |v.streams| && v.streams[i].subjects != []
  {
    var s := Stored(v.streams[i], text);
    Server(v.streams[i := s],
           v.files.(data := Upsert(v.files.data, StreamDataLine(s), s.name), rel := Upsert(v.files.rel, StreamRelLine(s), s.name)))
  }

  /** The streams from position `i` on that receive the subject store the text. */
  function Published(v: Server, i: nat, subject: string, text: string): Server
    decreases |v.streams| - i
  {
    if i >= |v.streams| then v
    else if Receives(v.streams[i], subject) then Published(StoredAt(v, i, text), i + 1, subject, text)
    else Published(v, i + 1, subject, text)
  }

  function Acked(v: Server, stream: string, consumer: string, id: nat): Server {
    var i := Position(v.streams, stream);
    if i == |v.streams| || !Knows(v.streams[i].consumers, consumer) then v
    else
      var s := v.streams[i];
      var s' := s.(consumers := AckIn(s.consumers, consumer, id));
      var c := s.consumers[FirstNamed(s.consumers, consumer)].(lastAck := id);
      Server(v.streams[i := s'], v.files.(consumers := Upsert(v.files.consumers, LineOf(c), consumer)))
  }

  /** A restart loads the files, and each consumer that is loaded writes its line again. */
  function Restarted(v: Server): Server {
    Server(Load(v.files), v.files.(consumers := Rewritten(v.files.consumers, LoadConsumers(v.files.consumers))))
  }

  function Step(v: Server, c: Command): Server
    requires c.CreateStream? ==> c.subjects != []
  {
    match c
    case CreateStream(name, subjects) => Created(v, name, subjects)
    case CreateConsumer(stream, name, delivery) => Joined(v, stream, name, delivery)
    case Publish(subject, text) => Published(v, 0, subject, text)
    case Ack(stream, consumer, id) => Acked(v, stream, consumer, id)
    case Restart => Restarted(v)
  }

  // ----- the registry along a run -----

  predicate Taken(reg: seq<Registered>, name: string) {
    exists k :: 0 <= k < |reg| && reg[k].consumer.name == name
  }

  /** What is written of the consumer called `c.name` from now on. */
  function Written(reg: seq<Registered>, c: Consumer): seq<Registered> {
    seq(|reg|, k requires 0 <= k < |reg| => if reg[k].consumer.name == c.name then reg[k].(consumer := c) else reg[k])
  }

  /** The line that an acknowledgement writes is that of the consumer in memory. */
  function Acknowledged(s: Stream, name: string, id: nat): Consumer
    requires Knows(s.consumers, name)
  {
    s.consumers[FirstNamed(s.consumers, name)].(lastAck := id, queue := [])
  }

  function Register(v: Server, reg: seq<Registered>, c: Command): seq<Registered> {
    match c
    case CreateConsumer(stream, name, delivery) =>
      var n := Consumer(name, delivery, 0, []);
      if Position(v.streams, stream) == |v.streams| then reg
      else if Taken(reg, name) then Written(reg, n)
      else reg + [Registered(stream, n)]
    case Ack(stream, consumer, id) =>
      var i := Position(v.streams, stream);
      if i == |v.streams| || !Knows(v.streams[i].consumers, consumer) then reg
      else Written(reg, Acknowledged(v.streams[i], consumer, id))
    case _ => reg
  }

  /** The name, if it was used, was used for a consumer of this stream. */
  predicate OnlyHere(reg: seq<Registered>, stream: string, name: string) {
    forall k :: 0 <= k < |reg| && reg[k].consumer.name == name ==> reg[k].stream == stream
  }

  /** Names, subjects and texts that the files can hold, numbers that fit, and consumer names used in
      one stream only; a consumer may be created there again and again. */
  predicate Acceptable(v: Server, reg: seq<Registered>, c: Command) {
    match c
    case CreateStream(name, subjects) => Field(name) && subjects != [] && Field(subjects[0])
    case CreateConsumer(stream, name, delivery) => Field(name) && Field(delivery) && OnlyHere(reg, stream, name)
    case Publish(subject, text) => Storable(text) && forall i :: 0 <= i < |v.streams| ==> v.streams[i].idCounter < USIZE_LIMIT
    case Ack(stream, consumer, id) => id < USIZE_LIMIT
    case Restart => true
  }

  // ----- lines -----

  lemma UpsertPlace(lines: seq<string>, i: nat, data: string, key: string)
    requires i < |lines| && Key(lines[i]) == key
    requires forall j :: 0 <= j < |lines| && j != i ==> Key(lines[j]) != key
    ensures Upsert(lines, data, key) == lines[i := data]
  {
    ReplaceAt(lines, data, key);
  }

  lemma UpsertNew(lines: seq<string>, data: string, key: string)
    requires forall j :: 0 <= j < |lines| ==> Key(lines[j]) != key
    ensures Upsert(lines, data, key) == lines + [data]
  {
    ReplaceAt(lines, data, key);
  }

  lemma KeyOfLine(c: Consumer)
    requires ConsumerOk(c)
    ensures Key(LineOf(c)) == c.name
  {
    ConsumerLineSplits(c.name, c.delivery, c.lastAck);
    TrimIsIdentity(c.name);
  }

  lemma {:induction false} RelLineStart(name: string, consumers: seq<string>)
    requires Field(name)
    ensures Key(RelLine(name, consumers)) == name
  {
    if consumers == [] {
      SplitFree(name, ',');
      TrimIsIdentity(name);
    } else {
      var rest, last := RelLine(name, consumers[..|consumers| - 1]), consumers[|consumers| - 1];
      RelLineStart(name, consumers[..|consumers| - 1]);
      SplitConcat(rest, ',', last);
      assert rest + "," + last == rest + [','] + last;
    }
  }

  lemma PlainConcat(a: string, b: string)
    requires '\n' !in a && Plain(b) && b != ""
    ensures Plain(a + b)
  {
  }

  lemma {:induction false} PlainDataLine(name: string, subject: string, messages: seq<Message>)
    requires Field(name) && Field(subject) && AllStorable(messages)
    ensures Plain(DataLine(name, subject, messages))
  {
    if messages == [] {
      PlainConcat(name, "," + subject);
      assert name + "," + subject == name + ("," + subject);
    } else {
      var rest, m := messages[..|messages| - 1], messages[|messages| - 1];
      PlainDataLine(name, subject, rest);
      var l := DataLine(name, subject, rest) + "," + Print(m.id);
      PrintShape(m.id);
      PlainConcat(l, " " + m.text);
      assert l + " " + m.text == l + (" " + m.text);
    }
  }

  lemma DataLineSaves(s: Stream)
    requires StreamOk(s)
    ensures DataSaved(StreamDataLine(s), s) && Plain(StreamDataLine(s))
  {
    var name, subject := s.name, s.subjects[0];
    TrimIsIdentity(name);
    TrimIsIdentity(subject);
    ParsedDataLine(name, subject, s.messages);
    DataLineSplits(name, subject, s.messages);
    PlainDataLine(name, subject, s.messages);
  }

  // ----- steps -----

  lemma PositionIs(streams: seq<Stream>, i: nat)
    requires DistinctStreams(streams) && i < |streams|
    ensures Position(streams, streams[i].name) == i
  {
  }

  lemma RelLinesAt(v: Server, reg: seq<Registered>, j: nat)
    requires Saved(v, reg) && j < |v.streams|
    ensures Key(v.files.rel[j]) == v.streams[j].name && Key(v.files.data[j]) == v.streams[j].name
  {
    assert StreamSaved(v.files.data[j], v.streams[j], reg);
    RelLineStart(v.streams[j].name, Names(v.streams[j].consumers));
  }

  lemma RelLinesPut(streams: seq<Stream>, i: nat, s: Stream)
    requires i < |streams|
    ensures RelLines(streams)[i := StreamRelLine(s)] == RelLines(streams[i := s])
  {
  }

  lemma PutLines(v: Server, reg: seq<Registered>, i: nat, s: Stream, data: string)
    requires Saved(v, reg) && i < |v.streams| && s.name == v.streams[i].name
    ensures Upsert(v.files.rel, StreamRelLine(s), s.name) == RelLines(v.streams[i := s])
    ensures Upsert(v.files.data, data, s.name) == v.files.data[i := data]
  {
    forall j | 0 <= j < |v.streams|
      ensures Key(v.files.rel[j]) == v.streams[j].name && Key(v.files.data[j]) == v.streams[j].name
    {
      RelLinesAt(v, reg, j);
    }
    UpsertPlace(v.files.data, i, data, s.name);
    UpsertPlace(v.files.rel, i, StreamRelLine(s), s.name);
    RelLinesPut(v.streams, i, s);
  }

  function Put(v: Server, i: nat, s: Stream, data: string): Server
    requires i < |v.streams| && i < |v.files.data|
  {
    Server(v.streams[i := s], Files(v.files.data[i := data], RelLines(v.streams[i := s]), v.files.consumers))
  }

  /** One stream and its two lines are replaced. */
  lemma PutSaved(v: Server, reg: seq<Registered>, i: nat, s: Stream, data: string)
    requires Saved(v, reg) && i < |v.streams|
    requires s.name == v.streams[i].name && StreamSaved(data, s, reg)
    ensures Saved(Put(v, i, s, data), reg)
  {
    StillInStreams(v.streams, i, s, reg);
    var v' := Put(v, i, s, data);
    forall j | 0 <= j < |v.streams| ensures StreamSaved(v'.files.data[j], v'.streams[j], reg) {
      assert StreamSaved(v.files.data[j], v.streams[j], reg);
    }
  }

  lemma StillInStreams(streams: seq<Stream>, i: nat, s: Stream, reg: seq<Registered>)
    requires i < |streams| && s.name == streams[i].name
    requires forall k :: 0 <= k < |reg| ==> InStreams(streams, reg[k].stream)
    ensures forall k :: 0 <= k < |reg| ==> InStreams(streams[i := s], reg[k].stream)
  {
    forall k | 0 <= k < |reg| ensures InStreams(streams[i := s], reg[k].stream) {
      var j :| 0 <= j < |streams| && streams[j].name == reg[k].stream;
      assert streams[i := s][j].name == reg[k].stream;
    }
  }

  lemma BareSendTo(cs: seq<Consumer>, m: Message)
    ensures Bare(SendTo(cs, m)) == Bare(cs)
    ensures Names(SendTo(cs, m)) == Names(cs)
    ensures Deliverable(cs) ==> Deliverable(SendTo(cs, m))
  {
  }

  lemma StoredSaved(s: Stream, text: string, line: string, reg: seq<Registered>)
    requires StreamSaved(line, s, reg) && Storable(text) && s.idCounter < USIZE_LIMIT
    ensures StreamSaved(StreamDataLine(Stored(s, text)), Stored(s, text), reg)
  {
    BareSendTo(s.consumers, Message(text, s.idCounter));
    DataLineSaves(Stored(s, text));
  }

  lemma StoreKeeps(v: Server, reg: seq<Registered>, i: nat, text: string)
    requires Saved(v, reg) && i < |v.streams| && Storable(text) && v.streams[i].idCounter < USIZE_LIMIT
    ensures v.streams[i].subjects != [] && Saved(StoredAt(v, i, text), reg)
  {
    assert StreamSaved(v.files.data[i], v.streams[i], reg);
    var s := Stored(v.streams[i], text);
    StoredSaved(v.streams[i], text, v.files.data[i], reg);
    PutLines(v, reg, i, s, StreamDataLine(s));
    PutSaved(v, reg, i, s, StreamDataLine(s));
  }

  lemma {:induction false} PublishKeeps(v: Server, reg: seq<Registered>, i: nat, subject: string, text: string)
    requires Saved(v, reg) && Storable(text)
    requires forall j :: i <= j < |v.streams| ==> v.streams[j].idCounter < USIZE_LIMIT
    ensures Saved(Published(v, i, subject, text), reg)
    decreases |v.streams| - i
  {
    if i < |v.streams| {
      if Receives(v.streams[i], subject) {
        StoreKeeps(v, reg, i, text);
        PublishKeeps(StoredAt(v, i, text), reg, i + 1, subject, text);
      } else {
        PublishKeeps(v, reg, i + 1, subject, text);
      }
    }
  }

  lemma {:induction false} OfNone(reg: seq<Registered>, stream: string)
    requires forall k :: 0 <= k < |reg| ==> reg[k].stream != stream
    ensures Of(reg, stream) == []
  {
    if reg != [] {
      OfNone(reg[1..], stream);
    }
  }

  lemma NewStreamSaved(s: Stream, reg: seq<Registered>)
    requires Field(s.name) && s.subjects != [] && Field(s.subjects[0])
    requires s.messages == [] && s.idCounter == 0 && s.consumers == [] && Of(reg, s.name) == []
    ensures StreamSaved(StreamDataLine(s), s, reg)
  {
    DataLineSaves(s);
  }

  lemma AppendStream(v: Server, reg: seq<Registered>, s: Stream, data: string)
    requires Saved(v, reg) && StreamSaved(data, s, reg)
    requires forall i :: 0 <= i < |v.streams| ==> v.streams[i].name != s.name
    ensures Saved(Server(v.streams + [s], Files(v.files.data + [data], RelLines(v.streams + [s]), v.files.consumers)), reg)
  {
    forall k | 0 <= k < |reg| ensures InStreams(v.streams + [s], reg[k].stream) {
      var j :| 0 <= j < |v.streams| && v.streams[j].name == reg[k].stream;
      assert (v.streams + [s])[j].name == reg[k].stream;
    }
  }

  lemma AppendLines(v: Server, reg: seq<Registered>, s: Stream, data: string)
    requires Saved(v, reg) && forall i :: 0 <= i < |v.streams| ==> v.streams[i].name != s.name
    ensures Upsert(v.files.data, data, s.name) == v.files.data + [data]
    ensures Upsert(v.files.rel, StreamRelLine(s), s.name) == RelLines(v.streams + [s])
  {
    forall j | 0 <= j < |v.streams|
      ensures Key(v.files.rel[j]) == v.streams[j].name && Key(v.files.data[j]) == v.streams[j].name
    {
      RelLinesAt(v, reg, j);
    }
    UpsertNew(v.files.data, data, s.name);
    UpsertNew(v.files.rel, StreamRelLine(s), s.name);
    RelLinesAppend(v.streams, s);
  }

  lemma RelLinesAppend(streams: seq<Stream>, s: Stream)
    ensures RelLines(streams) + [StreamRelLine(s)] == RelLines(streams + [s])
  {
  }

  lemma NoneRegistered(v: Server, reg: seq<Registered>, name: string)
    requires Saved(v, reg) && Position(v.streams, name) == |v.streams|
    ensures Of(reg, name) == []
  {
    forall k | 0 <= k < |reg| ensures reg[k].stream != name {
      assert InStreams(v.streams, reg[k].stream);
    }
    OfNone(reg, name);
  }

  lemma CreateKeeps(v: Server, reg: seq<Registered>, name: string, subjects: seq<string>)
    requires Saved(v, reg) && Field(name) && subjects != [] && Field(subjects[0])
    ensures Saved(Created(v, name, subjects), reg)
  {
    if Position(v.streams, name) == |v.streams| {
      var s := Stream(name, subjects, [], 0, []);
      NoneRegistered(v, reg, name);
      NewStreamSaved(s, reg);
      AppendLines(v, reg, s, StreamDataLine(s));
      AppendStream(v, reg, s, StreamDataLine(s));
    }
  }

  lemma NamesOneMore(cs: seq<Consumer>, c: Consumer)
    ensures Names(cs + [c]) == Names(cs) + [c.name]
  {
  }

  lemma {:induction false} OfOneMore(reg: seq<Registered>, r: Registered, stream: string)
    ensures Of(reg + [r], stream) == Of(reg, stream) + if r.stream == stream then [r.consumer] else []
  {
    if reg == [] {
      assert [r][1..] == [];
    } else {
      assert (reg + [r])[1..] == reg[1..] + [r];
      OfOneMore(reg[1..], r, stream);
      var head := if reg[0].stream == stream then [reg[0].consumer] else [];
      var last := if r.stream == stream then [r.consumer] else [];
      assert head + (Of(reg[1..], stream) + last) == head + Of(reg[1..], stream) + last;
    }
  }

  lemma KnowsIsNamed(cs: seq<Consumer>, name: string)
    ensures Knows(cs, name) <==> name in Names(cs)
  {
    if Knows(cs, name) {
      var i :| 0 <= i < |cs| && cs[i].name == name;
      assert Names(cs)[i] == name;
    }
  }

  /** A stream knows exactly the consumers registered with it. */
  lemma KnowsIffRegistered(v: Server, reg: seq<Registered>, i: nat, name: string)
    requires Saved(v, reg) && i < |v.streams|
    ensures Knows(v.streams[i].consumers, name) <==> IsRegistered(reg, v.streams[i].name, name)
  {
    KnowsIsNamed(v.streams[i].consumers, name);
    SavedNames(v, reg, i);
    OfMembers(reg, v.streams[i].name, name);
  }

  lemma ConsumerLines(reg: seq<Registered>, c: Consumer)
    requires RegistryOk(reg) && ConsumerOk(c)
    ensures !Taken(reg, c.name) ==> Upsert(Lines(Consumers(reg)), LineOf(c), c.name) == Lines(Consumers(reg)) + [LineOf(c)]
    ensures forall k :: 0 <= k < |reg| && reg[k].consumer.name == c.name ==>
      Upsert(Lines(Consumers(reg)), LineOf(c), c.name) == Lines(Consumers(reg))[k := LineOf(c)]
  {
    var lines := Lines(Consumers(reg));
    forall j | 0 <= j < |reg| ensures Key(lines[j]) == reg[j].consumer.name {
      KeyOfLine(reg[j].consumer);
    }
    if !Taken(reg, c.name) {
      UpsertNew(lines, LineOf(c), c.name);
    }
    forall k | 0 <= k < |reg| && reg[k].consumer.name == c.name
      ensures Upsert(lines, LineOf(c), c.name) == lines[k := LineOf(c)]
    {
      UpsertPlace(lines, k, LineOf(c), c.name);
    }
  }

  lemma RegisterOneMore(reg: seq<Registered>, r: Registered)
    requires RegistryOk(reg) && ConsumerOk(r.consumer) && !Taken(reg, r.consumer.name)
    ensures RegistryOk(reg + [r])
    ensures Lines(Consumers(reg + [r])) == Lines(Consumers(reg)) + [LineOf(r.consumer)]
  {
  }

  lemma JoinStreamSaved(v: Server, reg: seq<Registered>, i: nat, j: nat, c: Consumer)
    requires Saved(v, reg) && i < |v.streams| && j < |v.streams| && ConsumerOk(c)
    ensures var s := v.streams[i].(consumers := v.streams[i].consumers + [c]);
      StreamSaved(v.files.data[j], v.streams[i := s][j], reg + [Registered(v.streams[i].name, c)])
  {
    assert StreamSaved(v.files.data[j], v.streams[j], reg);
    OfOneMore(reg, Registered(v.streams[i].name, c), v.streams[j].name);
    NamesOneMore(v.streams[j].consumers, c);
    NamesOneMore(Of(reg, v.streams[j].name), c);
    if j != i {
      assert v.streams[j].name != v.streams[i].name;
    }
  }

  lemma JoinInStreams(streams: seq<Stream>, i: nat, s: Stream, reg: seq<Registered>, c: Consumer)
    requires i < |streams| && s.name == streams[i].name && forall k :: 0 <= k < |reg| ==> InStreams(streams, reg[k].stream)
    ensures forall k :: 0 <= k <= |reg| ==> InStreams(streams[i := s], (reg + [Registered(s.name, c)])[k].stream)
  {
    StillInStreams(streams, i, s, reg);
    assert streams[i := s][i].name == s.name;
  }

  /** The same server seen with one more consumer in the registry, all lines but the data lines
      being given. */
  lemma JoinSaved(v: Server, reg: seq<Registered>, i: nat, c: Consumer)
    requires Saved(v, reg) && i < |v.streams| && ConsumerOk(c) && !Taken(reg, c.name)
    ensures var s := v.streams[i].(consumers := v.streams[i].consumers + [c]);
      Saved(Server(v.streams[i := s], Files(v.files.data, RelLines(v.streams[i := s]), v.files.consumers + [LineOf(c)])),
            reg + [Registered(v.streams[i].name, c)])
  {
    var r := Registered(v.streams[i].name, c);
    var s := v.streams[i].(consumers := v.streams[i].consumers + [c]);
    RegisterOneMore(reg, r);
    forall j | 0 <= j < |v.streams| ensures StreamSaved(v.files.data[j], v.streams[i := s][j], reg + [r]) {
      JoinStreamSaved(v, reg, i, j, c);
    }
    JoinInStreams(v.streams, i, s, reg, c);
  }

  lemma JoinedNewKeeps(v: Server, reg: seq<Registered>, stream: string, name: string, delivery: string)
    requires Saved(v, reg) && Field(name) && Field(delivery) && !Taken(reg, name)
    ensures Saved(Joined(v, stream, name, delivery), Register(v, reg, CreateConsumer(stream, name, delivery)))
  {
    var i := Position(v.streams, stream);
    if i < |v.streams| {
      var c := Consumer(name, delivery, 0, []);
      var s := v.streams[i].(consumers := v.streams[i].consumers + [c]);
      KnowsIffRegistered(v, reg, i, name);
      ConsumerLines(reg, c);
      assert StreamSaved(v.files.data[i], v.streams[i], reg);
      PutLines(v, reg, i, s, "");
      JoinSaved(v, reg, i, c);
    }
  }

  // ----- the line of a consumer is written again -----

  /** Every consumer called `c.name` becomes `c`. */
  function SetIn(cs: seq<Consumer>, c: Consumer): seq<Consumer> {
    seq(|cs|, i requires 0 <= i < |cs| => if cs[i].name == c.name then c else cs[i])
  }

  lemma {:induction false} OfWritten(reg: seq<Registered>, c: Consumer, stream: string)
    ensures Of(Written(reg, c), stream) == SetIn(Of(reg, stream), c)
  {
    if reg != [] {
      OfWritten(reg[1..], c, stream);
      assert Written(reg, c)[1..] == Written(reg[1..], c);
    }
  }

  lemma SetInNames(cs: seq<Consumer>, c: Consumer)
    ensures Names(SetIn(cs, c)) == Names(cs)
  {
  }

  lemma WrittenOk(reg: seq<Registered>, c: Consumer)
    requires RegistryOk(reg) && ConsumerOk(c)
    ensures RegistryOk(Written(reg, c))
  {
  }

  lemma WrittenLines(reg: seq<Registered>, c: Consumer)
    requires RegistryOk(reg) && ConsumerOk(c) && Taken(reg, c.name)
    ensures Upsert(Lines(Consumers(reg)), LineOf(c), c.name) == Lines(Consumers(Written(reg, c)))
  {
    var k :| 0 <= k < |reg| && reg[k].consumer.name == c.name;
    ConsumerLines(reg, c);
    var a, b := Lines(Consumers(reg))[k := LineOf(c)], Lines(Consumers(Written(reg, c)));
    forall j | 0 <= j < |reg| ensures a[j] == b[j] {
      assert reg[j].consumer.name == c.name ==> j == k;
    }
  }

  /** The streams are the same but for acknowledgements. */
  predicate SameButAcks(s: Stream, t: Stream) {
    && t == s.(consumers := t.consumers) && Names(t.consumers) == Names(s.consumers)
    && (Deliverable(s.consumers) ==> Deliverable(t.consumers))
  }

  lemma StreamRewritten(line: string, s: Stream, t: Stream, reg: seq<Registered>, c: Consumer)
    requires StreamSaved(line, s, reg) && SameButAcks(s, t)
    ensures StreamSaved(line, t, Written(reg, c)) && StreamRelLine(t) == StreamRelLine(s)
  {
    OfWritten(reg, c, s.name);
    SetInNames(Of(reg, s.name), c);
  }

  lemma StillRegistered(streams: seq<Stream>, others: seq<Stream>, reg: seq<Registered>, c: Consumer)
    requires |others| == |streams| && forall j :: 0 <= j < |streams| ==> others[j].name == streams[j].name
    requires forall k :: 0 <= k < |reg| ==> InStreams(streams, reg[k].stream)
    ensures forall k :: 0 <= k < |Written(reg, c)| ==> InStreams(others, Written(reg, c)[k].stream)
  {
    forall k | 0 <= k < |Written(reg, c)| ensures InStreams(others, Written(reg, c)[k].stream) {
      assert Written(reg, c)[k].stream == reg[k].stream;
      var j :| 0 <= j < |streams| && streams[j].name == reg[k].stream;
      assert others[j].name == reg[k].stream;
    }
  }

  lemma SameNames(streams: seq<Stream>, others: seq<Stream>)
    requires DistinctStreams(streams) && |others| == |streams| && forall j :: 0 <= j < |streams| ==> others[j].name == streams[j].name
    ensures DistinctStreams(others)
  {
  }

  /** A consumer's line is written again, and the acknowledgements in memory change as they may. */
  lemma WrittenSaved(v: Server, reg: seq<Registered>, c: Consumer, streams: seq<Stream>)
    requires Saved(v, reg) && ConsumerOk(c) && Taken(reg, c.name)
    requires |streams| == |v.streams| && forall j :: 0 <= j < |streams| ==> SameButAcks(v.streams[j], streams[j])
    ensures Saved(Server(streams, v.files.(consumers := Upsert(v.files.consumers, LineOf(c), c.name))), Written(reg, c))
  {
    WrittenLines(reg, c);
    WrittenOk(reg, c);
    forall j | 0 <= j < |streams|
      ensures StreamSaved(v.files.data[j], streams[j], Written(reg, c)) && StreamRelLine(streams[j]) == StreamRelLine(v.streams[j])
      ensures streams[j].name == v.streams[j].name
    {
      StreamRewritten(v.files.data[j], v.streams[j], streams[j], reg, c);
    }
    assert RelLines(streams) == RelLines(v.streams);
    SameNames(v.streams, streams);
    StillRegistered(v.streams, streams, reg, c);
  }

  lemma TakenIsKnown(v: Server, reg: seq<Registered>, stream: string, name: string)
    requires Saved(v, reg) && Position(v.streams, stream) < |v.streams| && OnlyHere(reg, stream, name)
    ensures Knows(v.streams[Position(v.streams, stream)].consumers, name) <==> Taken(reg, name)
  {
    KnowsIffRegistered(v, reg, Position(v.streams, stream), name);
  }

  /** Creating a consumer again leaves the streams as they are and writes a line with acknowledgement 0. */
  lemma JoinedAgain(v: Server, reg: seq<Registered>, stream: string, name: string, delivery: string)
    requires Saved(v, reg) && Position(v.streams, stream) < |v.streams| && OnlyHere(reg, stream, name) && Taken(reg, name)
    ensures var c := Consumer(name, delivery, 0, []);
      Joined(v, stream, name, delivery) == Server(v.streams, v.files.(consumers := Upsert(v.files.consumers, LineOf(c), name)))
  {
    TakenIsKnown(v, reg, stream, name);
    var i := Position(v.streams, stream);
    assert v.streams[i := v.streams[i]] == v.streams;
  }

  lemma JoinedKeeps(v: Server, reg: seq<Registered>, stream: string, name: string, delivery: string)
    requires Saved(v, reg) && Field(name) && Field(delivery) && OnlyHere(reg, stream, name)
    ensures Saved(Joined(v, stream, name, delivery), Register(v, reg, CreateConsumer(stream, name, delivery)))
  {
    if Taken(reg, name) && Position(v.streams, stream) < |v.streams| {
      JoinedAgain(v, reg, stream, name, delivery);
      WrittenSaved(v, reg, Consumer(name, delivery, 0, []), v.streams);
    } else if Position(v.streams, stream) < |v.streams| {
      JoinedNewKeeps(v, reg, stream, name, delivery);
    }
  }

  // ----- acknowledgements -----

  predicate Acknowledges(v: Server, stream: string, name: string) {
    Position(v.streams, stream) < |v.streams| && Knows(v.streams[Position(v.streams, stream)].consumers, name)
  }

  lemma SavedSame(v: Server, reg: seq<Registered>, v': Server, reg': seq<Registered>)
    requires Saved(v, reg) && v == v' && reg == reg'
    ensures Saved(v', reg')
  {
  }

  lemma AckInShape(s: Stream, name: string, id: nat)
    ensures SameButAcks(s, s.(consumers := AckIn(s.consumers, name, id)))
  {
    AckInAt(s.consumers, name, id);
    assert Names(AckIn(s.consumers, name, id)) == Names(s.consumers);
  }

  /** The consumer that acknowledges is one of the registry, and its line can be written. */
  lemma AckedConsumer(v: Server, reg: seq<Registered>, stream: string, name: string, id: nat)
    requires Saved(v, reg) && Acknowledges(v, stream, name) && id < USIZE_LIMIT
    ensures var c := Acknowledged(v.streams[Position(v.streams, stream)], name, id);
      c.name == name && ConsumerOk(c) && Taken(reg, name)
  {
    var i := Position(v.streams, stream);
    var m := FirstNamed(v.streams[i].consumers, name);
    assert StreamSaved(v.files.data[i], v.streams[i], reg);
    SavedField(v, reg, i, m);
    KnowsIffRegistered(v, reg, i, name);
  }

  lemma AckKnownKeeps(v: Server, reg: seq<Registered>, stream: string, name: string, id: nat)
    requires Saved(v, reg) && id < USIZE_LIMIT && Acknowledges(v, stream, name)
    ensures Saved(Acked(v, stream, name, id), Written(reg, Acknowledged(v.streams[Position(v.streams, stream)], name, id)))
  {
    var i := Position(v.streams, stream);
    var s := v.streams[i];
    var t := s.(consumers := AckIn(s.consumers, name, id));
    AckedConsumer(v, reg, stream, name, id);
    AckInShape(s, name, id);
    forall j | 0 <= j < |v.streams| ensures SameButAcks(v.streams[j], v.streams[i := t][j]) {}
    WrittenSaved(v, reg, Acknowledged(s, name, id), v.streams[i := t]);
    AckWrites(v, stream, name, id);
  }

  lemma AckKeeps(v: Server, reg: seq<Registered>, stream: string, name: string, id: nat)
    requires Saved(v, reg) && id < USIZE_LIMIT
    ensures Saved(Acked(v, stream, name, id), Register(v, reg, Ack(stream, name, id)))
  {
    if Acknowledges(v, stream, name) {
      AckKnownKeeps(v, reg, stream, name, id);
      SavedSame(Acked(v, stream, name, id), Written(reg, Acknowledged(v.streams[Position(v.streams, stream)], name, id)),
                Acked(v, stream, name, id), Register(v, reg, Ack(stream, name, id)));
    }
  }

  lemma AckWrites(v: Server, stream: string, name: string, id: nat)
    requires Acknowledges(v, stream, name)
    ensures var i := Position(v.streams, stream);
      var s := v.streams[i];
      var c := Acknowledged(s, name, id);
      Acked(v, stream, name, id) == Server(v.streams[i := s.(consumers := AckIn(s.consumers, name, id))],
                                           v.files.(consumers := Upsert(v.files.consumers, LineOf(c), c.name)))
  {
    var s := v.streams[Position(v.streams, stream)];
    assert LineOf(s.consumers[FirstNamed(s.consumers, name)].(lastAck := id)) == LineOf(Acknowledged(s, name, id));
  }

  // ----- restarts -----

  lemma {:induction false} RewrittenIsSame(lines: seq<string>, cs: seq<Consumer>, n: nat)
    requires n <= |cs| && lines == Lines(cs) && NamedApart(cs)
    requires forall k :: 0 <= k < |cs| ==> ConsumerOk(cs[k])
    ensures Rewritten(lines, cs[..n]) == lines
    decreases n
  {
    if n > 0 {
      assert cs[..n][..n - 1] == cs[..n - 1];
      RewrittenIsSame(lines, cs, n - 1);
      forall j | 0 <= j < |cs| ensures Key(lines[j]) == cs[j].name {
        KeyOfLine(cs[j]);
      }
      UpsertPlace(lines, n - 1, LineOf(cs[n - 1]), cs[n - 1].name);
      assert lines[n - 1 := LineOf(cs[n - 1])] == lines;
    }
  }

  lemma NormalStorable(text: string)
    requires Storable(text)
    ensures Storable(Normal(text))
  {
    NormalKeeps(text, ',');
    NormalHasNo(text, '\n');
    NormalHasNo(text, '\r');
  }

  lemma NormalHasNo(text: string, c: char)
    requires IsWhite(c) && c != ' '
    ensures c !in Normal(text)
  {
    SplitWhiteWords(text);
    JoinKeeps(SplitWhite(text), " ", c);
  }

  lemma RestoredOk(s: Stream)
    requires StreamOk(s)
    ensures StreamOk(Restored(s))
  {
    forall i | 0 <= i < |s.messages| ensures Storable(Normal(s.messages[i].text)) {
      NormalStorable(s.messages[i].text);
    }
  }

  lemma RestoredSaved(line: string, s: Stream, reg: seq<Registered>)
    requires StreamSaved(line, s, reg)
    ensures StreamSaved(line, Restored(s), reg)
    ensures Names(Restored(s).consumers) == Names(s.consumers)
  {
    RestoredOk(s);
    NormalAllTwice(s.messages);
    var ms := NormalAll(s.messages);
    assert Bare(SendAll(Bare(s.consumers), ms)) == Bare(s.consumers);
    assert Names(SendAll(Bare(s.consumers), ms)) == Names(s.consumers);
  }

  lemma RestoreAllSaved(v: Server, reg: seq<Registered>)
    requires Saved(v, reg)
    ensures Saved(Server(RestoreAll(v.streams), v.files), reg)
  {
    var streams := RestoreAll(v.streams);
    forall j | 0 <= j < |streams|
      ensures StreamSaved(v.files.data[j], streams[j], reg) && StreamRelLine(streams[j]) == StreamRelLine(v.streams[j])
    {
      RestoredSaved(v.files.data[j], v.streams[j], reg);
    }
    assert RelLines(streams) == RelLines(v.streams);
    forall k | 0 <= k < |reg| ensures InStreams(streams, reg[k].stream) {
      var j :| 0 <= j < |v.streams| && v.streams[j].name == reg[k].stream;
      assert streams[j].name == reg[k].stream;
    }
  }

  /** A restart rebuilds the streams, the consumers with the acknowledgements that were written, and
      leaves the files as they are. */
  lemma RestartKeeps(v: Server, reg: seq<Registered>)
    requires Saved(v, reg)
    ensures Restarted(v) == Server(RestoreAll(OnFile(v.streams, reg)), v.files)
    ensures Saved(Restarted(v), reg)
  {
    LoadRestores(v, reg);
    var cs := Consumers(reg);
    LoadConsumersBack(cs);
    RewrittenIsSame(v.files.consumers, cs, |cs|);
    assert cs[..|cs|] == cs;
    OnFileSaved(v, reg);
    RestoreAllSaved(Server(OnFile(v.streams, reg), v.files), reg);
  }

  // ----- when the memory says what was written -----

  /** The consumer in memory is as the registry says. */
  predicate AgreesAt(v: Server, reg: seq<Registered>, i: nat, m: nat) {
    && i < |v.streams| && m < |v.streams[i].consumers| && m < |Of(reg, v.streams[i].name)|
    && v.streams[i].consumers[m].(queue := []) == Of(reg, v.streams[i].name)[m]
  }

  lemma SameNumber(v: Server, reg: seq<Registered>, i: nat)
    requires Saved(v, reg) && i < |v.streams|
    ensures |Of(reg, v.streams[i].name)| == |v.streams[i].consumers|
    ensures forall m :: 0 <= m < |v.streams[i].consumers| ==> Of(reg, v.streams[i].name)[m].name == v.streams[i].consumers[m].name
  {
    SavedNames(v, reg, i);
    forall m | 0 <= m < |v.streams[i].consumers| ensures Of(reg, v.streams[i].name)[m].name == v.streams[i].consumers[m].name {
      assert Names(Of(reg, v.streams[i].name))[m] == Names(v.streams[i].consumers)[m];
    }
  }

  predicate AgreesIn(v: Server, reg: seq<Registered>, i: nat)
    requires i < |v.streams|
  {
    forall m :: 0 <= m < |v.streams[i].consumers| ==> AgreesAt(v, reg, i, m)
  }

  lemma AgreesInStream(v: Server, reg: seq<Registered>, i: nat)
    requires Saved(v, reg) && i < |v.streams|
    ensures Bare(v.streams[i].consumers) == Of(reg, v.streams[i].name) <==> AgreesIn(v, reg, i)
  {
    SameNumber(v, reg, i);
    var bare, written := Bare(v.streams[i].consumers), Of(reg, v.streams[i].name);
    assert |bare| == |written|;
    forall m | 0 <= m < |bare| ensures AgreesAt(v, reg, i, m) <==> bare[m] == written[m] {}
  }

  lemma AgreesEverywhere(v: Server, reg: seq<Registered>)
    requires Saved(v, reg)
    ensures Agrees(v, reg) <==> forall i :: 0 <= i < |v.streams| ==> AgreesIn(v, reg, i)
  {
    forall i | 0 <= i < |v.streams| ensures Bare(v.streams[i].consumers) == Of(reg, v.streams[i].name) <==> AgreesIn(v, reg, i) {
      AgreesInStream(v, reg, i);
    }
  }

  predicate NamedApart(cs: seq<Consumer>) {
    forall i, j :: 0 <= i < j < |cs| ==> cs[i].name != cs[j].name
  }

  lemma {:induction false} OfNamedApart(reg: seq<Registered>, stream: string)
    requires RegistryOk(reg)
    ensures NamedApart(Of(reg, stream))
  {
    if reg != [] {
      OfNamedApart(reg[1..], stream);
      if reg[0].stream == stream {
        var rest := Of(reg[1..], stream);
        OfMembers(reg[1..], stream, reg[0].consumer.name);
        forall j | 0 <= j < |rest| ensures rest[j].name != reg[0].consumer.name {
          assert Names(rest)[j] == rest[j].name;
        }
      }
    }
  }

  lemma OneOwner(reg: seq<Registered>, a: string, b: string, name: string)
    requires RegistryOk(reg) && a != b && IsRegistered(reg, a, name)
    ensures !IsRegistered(reg, b, name)
  {
    var k :| 0 <= k < |reg| && reg[k].stream == a && reg[k].consumer.name == name;
    assert forall m :: 0 <= m < |reg| && reg[m].consumer.name == name ==> m == k;
  }

  lemma OnlyStream(v: Server, reg: seq<Registered>, i: nat, i': nat, name: string)
    requires Saved(v, reg) && i < |v.streams| && i' < |v.streams|
    requires Knows(v.streams[i].consumers, name) && Knows(v.streams[i'].consumers, name)
    ensures i == i'
  {
    KnowsIffRegistered(v, reg, i, name);
    KnowsIffRegistered(v, reg, i', name);
    if v.streams[i].name != v.streams[i'].name {
      OneOwner(reg, v.streams[i].name, v.streams[i'].name, name);
    }
  }

  /** A name is at one place only. */
  lemma OnePlace(v: Server, reg: seq<Registered>, i: nat, m: nat, i': nat, m': nat)
    requires Saved(v, reg) && i < |v.streams| && m < |v.streams[i].consumers|
    requires i' < |v.streams| && m' < |v.streams[i'].consumers| && v.streams[i].consumers[m].name == v.streams[i'].consumers[m'].name
    ensures i == i' && m == m'
  {
    OnlyStream(v, reg, i, i', v.streams[i].consumers[m].name);
    SameNumber(v, reg, i);
    OfNamedApart(reg, v.streams[i].name);
  }

  /** The command acknowledges for the consumer. */
  predicate AcksFor(c: Command, s: Stream, m: nat)
    requires m < |s.consumers|
  {
    c.Ack? && c.stream == s.name && c.consumer == s.consumers[m].name
  }

  /** The command creates the consumer again. */
  predicate CreatesAgain(c: Command, s: Stream, m: nat)
    requires m < |s.consumers|
  {
    c.CreateConsumer? && c.stream == s.name && c.name == s.consumers[m].name
  }

  lemma {:induction false} PublishedAt(v: Server, n: nat, subject: string, text: string, j: nat)
    requires j < |v.streams|
    ensures |Published(v, n, subject, text).streams| == |v.streams|
    ensures Published(v, n, subject, text).streams[j]
         == if n <= j && Receives(v.streams[j], subject) then Stored(v.streams[j], text) else v.streams[j]
    decreases |v.streams| - n
  {
    if n < |v.streams| {
      if Receives(v.streams[n], subject) {
        PublishedAt(StoredAt(v, n, text), n + 1, subject, text, j);
      } else {
        PublishedAt(v, n + 1, subject, text, j);
      }
    }
  }

  /** A publication is stored by the streams one of whose subjects matches it, whichever: the message gets the
      next number and goes to every consumer. Other streams do not change. */
  lemma PublicationStored(v: Server, subject: string, text: string, j: nat)
    requires j < |v.streams|
    ensures var s, v' := v.streams[j], Published(v, 0, subject, text);
      && |v'.streams| == |v.streams|
      && var t := v'.streams[j];
      && t.name == s.name && t.subjects == s.subjects && |t.consumers| == |s.consumers|
      && ((exists i :: 0 <= i < |s.subjects| && Matches(s.subjects[i], subject)) ==>
            && t.messages == s.messages + [Message(text, s.idCounter)] && t.idCounter == s.idCounter + 1
            && forall m :: 0 <= m < |s.consumers| ==>
                 t.consumers[m] == s.consumers[m].(queue := s.consumers[m].queue + [Message(text, s.idCounter)]))
      && ((forall i :: 0 <= i < |s.subjects| ==> !Matches(s.subjects[i], subject)) ==> t == s)
  {
    PublishedAt(v, 0, subject, text, j);
  }

  lemma WrittenAgrees(reg: seq<Registered>, c: Consumer, stream: string, m: nat)
    requires m < |Of(reg, stream)|
    ensures m < |Of(Written(reg, c), stream)|
    ensures Of(Written(reg, c), stream)[m] == if Of(reg, stream)[m].name == c.name then c else Of(reg, stream)[m]
  {
    OfWritten(reg, c, stream);
  }

  lemma AcksKnown(v: Server, reg: seq<Registered>, c: Command, i: nat, m: nat)
    requires Saved(v, reg) && i < |v.streams| && m < |v.streams[i].consumers|
    ensures AcksFor(c, v.streams[i], m) ==> Acknowledges(v, c.stream, c.consumer) && Position(v.streams, c.stream) == i
  {
    PositionIs(v.streams, i);
  }

  lemma AckedIn(cs: seq<Consumer>, name: string, id: nat, m: nat)
    requires m < |cs|
    ensures |AckIn(cs, name, id)| == |cs|
    ensures AckIn(cs, name, id)[m] == if m == FirstNamed(cs, name) then cs[m].(lastAck := id) else cs[m]
  {
    AckInAt(cs, name, id);
  }

  /** The memory after an acknowledgement, place by place. */
  lemma AckedAt(v: Server, reg: seq<Registered>, c: Command, i: nat, m: nat)
    requires Saved(v, reg) && c.Ack? && Acknowledges(v, c.stream, c.consumer) && i < |v.streams| && m < |v.streams[i].consumers|
    ensures var v' := Acked(v, c.stream, c.consumer, c.id);
      && |v'.streams| == |v.streams| && v'.streams[i].name == v.streams[i].name && |v'.streams[i].consumers| == |v.streams[i].consumers|
      && v'.streams[i].consumers[m].(queue := [])
        == if v.streams[i].consumers[m].name == c.consumer then Acknowledged(v.streams[Position(v.streams, c.stream)], c.consumer, c.id)
           else v.streams[i].consumers[m].(queue := [])
  {
    var p := Position(v.streams, c.stream);
    if v.streams[i].consumers[m].name == c.consumer {
      OnePlace(v, reg, i, m, p, FirstNamed(v.streams[p].consumers, c.consumer));
    }
    if i == p {
      AckedIn(v.streams[p].consumers, c.consumer, c.id, m);
    }
  }

  lemma OwnerAcks(v: Server, reg: seq<Registered>, c: Command, i: nat, m: nat)
    requires Saved(v, reg) && c.Ack? && i < |v.streams| && m < |v.streams[i].consumers|
    requires Acknowledges(v, c.stream, c.consumer)
    ensures AcksFor(c, v.streams[i], m) <==> v.streams[i].consumers[m].name == c.consumer
  {
    var p := Position(v.streams, c.stream);
    if v.streams[i].consumers[m].name == c.consumer {
      OnePlace(v, reg, i, m, p, FirstNamed(v.streams[p].consumers, c.consumer));
    }
  }

  lemma AckKnownAgrees(v: Server, reg: seq<Registered>, c: Command, i: nat, m: nat)
    requires Saved(v, reg) && c.Ack? && i < |v.streams| && m < |v.streams[i].consumers| && Acknowledges(v, c.stream, c.consumer)
    ensures var n := Acknowledged(v.streams[Position(v.streams, c.stream)], c.consumer, c.id);
      (AgreesAt(Acked(v, c.stream, c.consumer, c.id), Written(reg, n), i, m)
       <==> v.streams[i].consumers[m].name == c.consumer || AgreesAt(v, reg, i, m))
  {
    SameNumber(v, reg, i);
    AckedAt(v, reg, c, i, m);
    WrittenAgrees(reg, Acknowledged(v.streams[Position(v.streams, c.stream)], c.consumer, c.id), v.streams[i].name, m);
  }

  lemma AckAgrees(v: Server, reg: seq<Registered>, c: Command, i: nat, m: nat)
    requires Saved(v, reg) && c.Ack? && i < |v.streams| && m < |v.streams[i].consumers|
    ensures AgreesAt(Step(v, c), Register(v, reg, c), i, m) <==> AcksFor(c, v.streams[i], m) || AgreesAt(v, reg, i, m)
  {
    AcksKnown(v, reg, c, i, m);
    if Acknowledges(v, c.stream, c.consumer) {
      AckKnownAgrees(v, reg, c, i, m);
      OwnerAcks(v, reg, c, i, m);
    }
  }

  lemma AgainAgrees(v: Server, reg: seq<Registered>, c: Command, i: nat, m: nat)
    requires Saved(v, reg) && c.CreateConsumer? && OnlyHere(reg, c.stream, c.name) && Taken(reg, c.name)
    requires i < |v.streams| && m < |v.streams[i].consumers|
    ensures AgreesAt(Step(v, c), Register(v, reg, c), i, m) <==>
      if CreatesAgain(c, v.streams[i], m) then v.streams[i].consumers[m].(queue := []) == Consumer(c.name, c.delivery, 0, [])
      else AgreesAt(v, reg, i, m)
  {
    SameNumber(v, reg, i);
    var name := v.streams[i].consumers[m].name;
    KnowsIffRegistered(v, reg, i, name);
    if Position(v.streams, c.stream) < |v.streams| {
      JoinedAgain(v, reg, c.stream, c.name, c.delivery);
      WrittenAgrees(reg, Consumer(c.name, c.delivery, 0, []), v.streams[i].name, m);
    }
  }

  lemma NewAgrees(v: Server, reg: seq<Registered>, c: Command, i: nat, m: nat)
    requires Saved(v, reg) && c.CreateConsumer? && !Taken(reg, c.name) && i < |v.streams| && m < |v.streams[i].consumers|
    ensures AgreesAt(Step(v, c), Register(v, reg, c), i, m) <==> AgreesAt(v, reg, i, m)
    ensures !CreatesAgain(c, v.streams[i], m)
  {
    SameNumber(v, reg, i);
    KnowsIffRegistered(v, reg, i, v.streams[i].consumers[m].name);
    OfOneMore(reg, Registered(c.stream, Consumer(c.name, c.delivery, 0, [])), v.streams[i].name);
    JoinedAt(v, c, i, m);
  }

  lemma JoinedAt(v: Server, c: Command, i: nat, m: nat)
    requires c.CreateConsumer? && i < |v.streams| && m < |v.streams[i].consumers|
    ensures var v' := Step(v, c);
      && |v'.streams| == |v.streams| && v'.streams[i].name == v.streams[i].name
      && m < |v'.streams[i].consumers| && v'.streams[i].consumers[m] == v.streams[i].consumers[m]
  {
  }

  lemma PublishAgrees(v: Server, reg: seq<Registered>, c: Command, i: nat, m: nat)
    requires c.Publish? && i < |v.streams| && m < |v.streams[i].consumers|
    ensures AgreesAt(Step(v, c), Register(v, reg, c), i, m) <==> AgreesAt(v, reg, i, m)
  {
    PublishedAt(v, 0, c.subject, c.text, i);
  }

  lemma RestartedStream(v: Server, reg: seq<Registered>, i: nat)
    requires Saved(v, reg)
    ensures |Restarted(v).streams| == |v.streams|
    ensures i < |v.streams| ==> Restarted(v).streams[i] == Restored(v.streams[i].(consumers := Of(reg, v.streams[i].name)))
  {
    RestartKeeps(v, reg);
    if i < |v.streams| {
      assert RestoreAll(OnFile(v.streams, reg))[i] == Restored(OnFile(v.streams, reg)[i]);
    }
  }

  lemma RestoredAt(s: Stream, m: nat)
    requires m < |s.consumers|
    ensures m < |Restored(s).consumers| && Restored(s).consumers[m].(queue := []) == s.consumers[m].(queue := [])
  {
  }

  lemma RestartAgrees(v: Server, reg: seq<Registered>, i: nat, m: nat)
    requires Saved(v, reg) && i < |v.streams| && m < |v.streams[i].consumers|
    ensures AgreesAt(Restarted(v), reg, i, m)
  {
    RestartedStream(v, reg, i);
    SameNumber(v, reg, i);
    OfOk(reg, v.streams[i].name);
    RestoredAt(v.streams[i].(consumers := Of(reg, v.streams[i].name)), m);
    assert ConsumerOk(Of(reg, v.streams[i].name)[m]);
  }

  /** A consumer in memory agrees with what was written last of it after a restart, and after each
      acknowledgement; creating it again leaves it so exactly if it was as new; and nothing else
      makes a difference. */
  lemma AgreesAfter(v: Server, reg: seq<Registered>, c: Command, i: nat, m: nat)
    requires Saved(v, reg) && Acceptable(v, reg, c) && i < |v.streams| && m < |v.streams[i].consumers|
    ensures AgreesAt(Step(v, c), Register(v, reg, c), i, m) <==>
      || c.Restart? || AcksFor(c, v.streams[i], m)
      || (if CreatesAgain(c, v.streams[i], m) then v.streams[i].consumers[m].(queue := []) == Consumer(c.name, c.delivery, 0, [])
          else AgreesAt(v, reg, i, m))
  {
    match c
    case CreateStream(_, _) =>
    case CreateConsumer(_, name, _) =>
      if Taken(reg, name) {
        AgainAgrees(v, reg, c, i, m);
      } else {
        NewAgrees(v, reg, c, i, m);
      }
    case Publish(_, _) => PublishAgrees(v, reg, c, i, m);
    case Ack(_, _, _) => AckAgrees(v, reg, c, i, m);
    case Restart => RestartAgrees(v, reg, i, m);
  }

  // ----- runs -----

  lemma StepKeeps(v: Server, reg: seq<Registered>, c: Command)
    requires Saved(v, reg) && Acceptable(v, reg, c)
    ensures Saved(Step(v, c), Register(v, reg, c))
  {
    match c
    case CreateStream(name, subjects) => CreateKeeps(v, reg, name, subjects);
    case CreateConsumer(stream, name, delivery) => JoinedKeeps(v, reg, stream, name, delivery);
    case Publish(subject, text) => PublishKeeps(v, reg, 0, subject, text);
    case Ack(stream, consumer, id) => AckKeeps(v, reg, stream, consumer, id);
    case Restart => RestartKeeps(v, reg);
  }

  predicate AllAcceptable(v: Server, reg: seq<Registered>, run: seq<Command>)
    decreases run
  {
    run == [] ||
    (Acceptable(v, reg, run[0]) && AllAcceptable(Step(v, run[0]), Register(v, reg, run[0]), run[1..]))
  }

  function Run(v: Server, reg: seq<Registered>, run: seq<Command>): Server
    requires AllAcceptable(v, reg, run)
    decreases run
  {
    if run == [] then v else Run(Step(v, run[0]), Register(v, reg, run[0]), run[1..])
  }

  function RunRegistry(v: Server, reg: seq<Registered>, run: seq<Command>): seq<Registered>
    requires AllAcceptable(v, reg, run)
    decreases run
  {
    if run == [] then reg else RunRegistry(Step(v, run[0]), Register(v, reg, run[0]), run[1..])
  }

  lemma {:induction false} RunSaved(v: Server, reg: seq<Registered>, run: seq<Command>)
    requires Saved(v, reg) && AllAcceptable(v, reg, run)
    ensures Saved(Run(v, reg, run), RunRegistry(v, reg, run))
    decreases run
  {
    if run != [] {
      StepKeeps(v, reg, run[0]);
      RunSaved(Step(v, run[0]), Register(v, reg, run[0]), run[1..]);
    }
  }

  /** No consumer is created twice. */
  predicate AllNew(v: Server, reg: seq<Registered>, run: seq<Command>)
    decreases run
  {
    run == [] ||
    ((run[0].CreateConsumer? ==> !Taken(reg, run[0].name)) && (run[0].CreateStream? ==> run[0].subjects != [])
     && AllNew(Step(v, run[0]), Register(v, reg, run[0]), run[1..]))
  }

  /** The place was there before the command, or it is that of a consumer that was just created. */
  lemma PlaceBefore(v: Server, c: Command, i: nat, m: nat)
    requires (c.CreateStream? ==> c.subjects != []) && !c.Restart?
    requires i < |Step(v, c).streams| && m < |Step(v, c).streams[i].consumers|
    ensures i < |v.streams|
    ensures m < |v.streams[i].consumers|
      || (c.CreateConsumer? && !Knows(v.streams[i].consumers, c.name)
          && i == Position(v.streams, c.stream) && m == |v.streams[i].consumers|)
  {
    if c.Publish? && i < |v.streams| {
      PublishedAt(v, 0, c.subject, c.text, i);
    } else if c.Publish? {
      PublishedLength(v, 0, c.subject, c.text);
    } else if c.Ack? && Acknowledges(v, c.stream, c.consumer) {
      AckInAt(v.streams[Position(v.streams, c.stream)].consumers, c.consumer, c.id);
    }
  }

  lemma {:induction false} PublishedLength(v: Server, n: nat, subject: string, text: string)
    ensures |Published(v, n, subject, text).streams| == |v.streams|
    decreases |v.streams| - n
  {
    if n < |v.streams| {
      if Receives(v.streams[n], subject) {
        PublishedLength(StoredAt(v, n, text), n + 1, subject, text);
      } else {
        PublishedLength(v, n + 1, subject, text);
      }
    }
  }

  lemma NewcomerAgrees(v: Server, reg: seq<Registered>, c: Command, i: nat)
    requires Saved(v, reg) && c.CreateConsumer? && !Taken(reg, c.name) && i == Position(v.streams, c.stream) < |v.streams|
    requires !Knows(v.streams[i].consumers, c.name)
    ensures AgreesAt(Step(v, c), Register(v, reg, c), i, |v.streams[i].consumers|)
  {
    SameNumber(v, reg, i);
    OfOneMore(reg, Registered(c.stream, Consumer(c.name, c.delivery, 0, [])), v.streams[i].name);
  }

  lemma NewKeepsAgreement(v: Server, reg: seq<Registered>, c: Command)
    requires Saved(v, reg) && Agrees(v, reg) && Acceptable(v, reg, c) && (c.CreateConsumer? ==> !Taken(reg, c.name))
    ensures Agrees(Step(v, c), Register(v, reg, c))
  {
    StepKeeps(v, reg, c);
    AgreesEverywhere(v, reg);
    AgreesEverywhere(Step(v, c), Register(v, reg, c));
    forall i | 0 <= i < |Step(v, c).streams| ensures AgreesIn(Step(v, c), Register(v, reg, c), i) {
      forall m | 0 <= m < |Step(v, c).streams[i].consumers| ensures AgreesAt(Step(v, c), Register(v, reg, c), i, m) {
        NewKeepsAgreementAt(v, reg, c, i, m);
      }
    }
  }

  lemma NewKeepsAgreementAt(v: Server, reg: seq<Registered>, c: Command, i: nat, m: nat)
    requires Saved(v, reg) && Acceptable(v, reg, c) && (c.CreateConsumer? ==> !Taken(reg, c.name))
    requires forall i :: 0 <= i < |v.streams| ==> AgreesIn(v, reg, i)
    requires i < |Step(v, c).streams| && m < |Step(v, c).streams[i].consumers|
    ensures AgreesAt(Step(v, c), Register(v, reg, c), i, m)
  {
    if c.Restart? {
      RestartPlace(v, reg, i, m);
      RestartAgrees(v, reg, i, m);
    } else {
      PlaceBefore(v, c, i, m);
      if m < |v.streams[i].consumers| {
        assert AgreesIn(v, reg, i);
        AgreesAfter(v, reg, c, i, m);
        if c.CreateConsumer? {
          NewAgrees(v, reg, c, i, m);
        }
      } else {
        NewcomerAgrees(v, reg, c, i);
      }
    }
  }

  lemma RestoredCount(s: Stream)
    ensures |Restored(s).consumers| == |s.consumers|
  {
  }

  lemma RestartPlace(v: Server, reg: seq<Registered>, i: nat, m: nat)
    requires Saved(v, reg) && i < |Restarted(v).streams| && m < |Restarted(v).streams[i].consumers|
    ensures i < |v.streams| && m < |v.streams[i].consumers|
  {
    RestartedStream(v, reg, i);
    RestoredCount(v.streams[i].(consumers := Of(reg, v.streams[i].name)));
    SameNumber(v, reg, i);
  }

  lemma {:induction false} NewRunAgrees(v: Server, reg: seq<Registered>, run: seq<Command>)
    requires Saved(v, reg) && Agrees(v, reg) && AllAcceptable(v, reg, run) && AllNew(v, reg, run)
    ensures Agrees(Run(v, reg, run), RunRegistry(v, reg, run))
    decreases run
  {
    if run != [] {
      StepKeeps(v, reg, run[0]);
      NewKeepsAgreement(v, reg, run[0]);
      NewRunAgrees(Step(v, run[0]), Register(v, reg, run[0]), run[1..]);
    }
  }

  const EMPTY := Server([], Files([], [], []))

  lemma EmptySaved()
    ensures Saved(EMPTY, []) && Agrees(EMPTY, [])
  {
    assert RelLines([]) == [] && Lines(Consumers([])) == [];
  }

  /** After any run from an empty server, restarts and consumers created again included, loading the
      files rebuilds the same streams in the same order, the consumers as they were last written. What
      is loaded is as in memory exactly if the memory agrees with that, and so it is in particular
      if no consumer was created twice. */
  lemma LoadAfterRun(run: seq<Command>)
    requires AllAcceptable(EMPTY, [], run)
    ensures var v, reg := Run(EMPTY, [], run), RunRegistry(EMPTY, [], run);
      && Load(v.files) == RestoreAll(OnFile(v.streams, reg))
      && (Load(v.files) == RestoreAll(v.streams) <==> Agrees(v, reg))
      && (AllNew(EMPTY, [], run) ==> Load(v.files) == RestoreAll(v.streams))
  {
    EmptySaved();
    RunSaved(EMPTY, [], run);
    var v, reg := Run(EMPTY, [], run), RunRegistry(EMPTY, [], run);
    LoadRestores(v, reg);
    LoadExact(v, reg);
    if AllNew(EMPTY, [], run) {
      NewRunAgrees(EMPTY, [], run);
    }
  }

  // ----- the text of the files -----

  function Reread(f: Files): Files {
    Files(ReadLines(FileText(f.data)), ReadLines(FileText(f.rel)), ReadLines(FileText(f.consumers)))
  }

  lemma {:induction false} PlainRelLine(name: string, consumers: seq<string>)
    requires Field(name) && forall i :: 0 <= i < |consumers| ==> Field(consumers[i])
    ensures Plain(RelLine(name, consumers))
  {
    if consumers != [] {
      var rest, last := RelLine(name, consumers[..|consumers| - 1]), consumers[|consumers| - 1];
      PlainRelLine(name, consumers[..|consumers| - 1]);
      PlainConcat(rest, "," + last);
      assert rest + "," + last == rest + ("," + last);
    }
  }

  lemma PlainConsumerLine(c: Consumer)
    requires ConsumerOk(c)
    ensures Plain(LineOf(c))
  {
    PrintShape(c.lastAck);
    PlainConcat(c.name + "," + c.delivery + ",", Print(c.lastAck));
  }

  /** The lines are read from the files as they were written. */
  lemma FilesReread(v: Server, reg: seq<Registered>)
    requires Saved(v, reg)
    ensures Reread(v.files) == v.files
  {
    forall i | 0 <= i < |v.streams| ensures Plain(v.files.rel[i]) && Plain(v.files.data[i]) {
      assert StreamSaved(v.files.data[i], v.streams[i], reg);
      SavedFields(v, reg, i);
      PlainRelLine(v.streams[i].name, Names(v.streams[i].consumers));
    }
    forall k | 0 <= k < |reg| ensures Plain(v.files.consumers[k]) {
      PlainConsumerLine(reg[k].consumer);
    }
    ReadWhatWasWritten(v.files.data);
    ReadWhatWasWritten(v.files.rel);
    ReadWhatWasWritten(v.files.consumers);
  }

  lemma SavedFields(v: Server, reg: seq<Registered>, i: nat)
    requires Saved(v, reg) && i < |v.streams|
    ensures forall k :: 0 <= k < |v.streams[i].consumers| ==> Field(Names(v.streams[i].consumers)[k])
  {
    forall k | 0 <= k < |v.streams[i].consumers| ensures Field(Names(v.streams[i].consumers)[k]) {
      SavedField(v, reg, i, k);
    }
  }
}
