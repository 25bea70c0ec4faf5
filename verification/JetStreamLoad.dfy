/** Loading rebuilds what the running server holds. */
module JetStreamLoad {
  import opened Wrappers
  import opened Text
  import opened FileProcessing
  import opened JetStreamFormat
  import opened JetStreams

  /** A consumer together with the stream it was created in, in order of creation. */
  datatype Registered = Registered(stream: string, consumer: Consumer)

  function Of(reg: seq<Registered>, stream: string): seq<Consumer> {
    if reg == [] then []
    else (if reg[0].stream == stream then [reg[0].consumer] else []) + Of(reg[1..], stream)
  }

  function Consumers(reg: seq<Registered>): seq<Consumer> {
    seq(|reg|, i requires 0 <= i < |reg| => reg[i].consumer)
  }

  function Bare(cs: seq<Consumer>): seq<Consumer> {
    seq(|cs|, i requires 0 <= i < |cs| => cs[i].(queue := []))
  }

  function Lines(cs: seq<Consumer>): seq<string> {
    seq(|cs|, i requires 0 <= i < |cs| => LineOf(cs[i]))
  }

  function RelLines(streams: seq<Stream>): seq<string> {
    seq(|streams|, i requires 0 <= i < |streams| => StreamRelLine(streams[i]))
  }

  // ----- the invariant -----

  predicate Dense(messages: seq<Message>) {
    forall i :: 0 <= i < |messages| ==> messages[i].id == i
  }

  /** A message text that the data file keeps, up to white space. */
  predicate Storable(text: string) {
    ',' !in text && '\n' !in text && ChopReturn(text) == text
  }

  predicate AllStorable(messages: seq<Message>) {
    forall i :: 0 <= i < |messages| ==> Storable(messages[i].text)
  }

  predicate StreamOk(s: Stream) {
    && Field(s.name) && s.subjects != [] && Field(s.subjects[0])
    && AllStorable(s.messages) && Dense(s.messages)
    && s.idCounter == |s.messages| <= USIZE_LIMIT
  }

  predicate ConsumerOk(c: Consumer) {
    Field(c.name) && Field(c.delivery) && c.lastAck < USIZE_LIMIT && c.queue == []
  }

  ghost predicate RegistryOk(reg: seq<Registered>) {
    && (forall k :: 0 <= k < |reg| ==> ConsumerOk(reg[k].consumer))
    && (forall j, k :: 0 <= j < k < |reg| ==> reg[j].consumer.name != reg[k].consumer.name)
  }

  ghost predicate DistinctStreams(streams: seq<Stream>) {
    forall i, j :: 0 <= i < j < |streams| ==> streams[i].name != streams[j].name
  }

  /** The line holds the stream up to white space. */
  predicate DataSaved(line: string, s: Stream) {
    s.subjects != [] && Key(line) == s.name && Parsed(line) == Ok(ParsedStream(s.name, s.subjects[0], NormalAll(s.messages)))
  }

  ghost predicate InStreams(streams: seq<Stream>, name: string) {
    exists i :: 0 <= i < |streams| && streams[i].name == name
  }

  /** A line that is read as it was written. */
  predicate Plain(line: string) {
    '\n' !in line && ChopReturn(line) == line
  }

  predicate Deliverable(cs: seq<Consumer>) {
    forall i :: 0 <= i < |cs| ==> Field(cs[i].delivery)
  }

  /** `line` holds the stream, whose consumers have the names of the registry. */
  predicate StreamSaved(line: string, s: Stream, reg: seq<Registered>) {
    StreamOk(s) && DataSaved(line, s) && Plain(line) && Deliverable(s.consumers) && Names(s.consumers) == Names(Of(reg, s.name))
  }

  /** The files hold the streams and the consumers of the registry, whose acknowledgements (and delivery
      subjects) may be others than those in memory. */
  ghost predicate Saved(v: Server, reg: seq<Registered>) {
    && DistinctStreams(v.streams) && RegistryOk(reg)
    && |v.files.data| == |v.streams|
    && (forall i :: 0 <= i < |v.streams| ==> StreamSaved(v.files.data[i], v.streams[i], reg))
    && v.files.rel == RelLines(v.streams)
    && v.files.consumers == Lines(Consumers(reg))
    && (forall k :: 0 <= k < |reg| ==> InStreams(v.streams, reg[k].stream))
  }

  /** The consumers in memory are as the registry says. */
  predicate Agrees(v: Server, reg: seq<Registered>) {
    forall i :: 0 <= i < |v.streams| ==> Bare(v.streams[i].consumers) == Of(reg, v.streams[i].name)
  }

  /** The streams with the consumers that the registry has. */
  function OnFile(streams: seq<Stream>, reg: seq<Registered>): seq<Stream> {
    seq(|streams|, i requires 0 <= i < |streams| => streams[i].(consumers := Of(reg, streams[i].name)))
  }

  /** What a restart makes of a stream: white space collapsed, only the first subject, and every
      message queued again for every consumer. */
  function Restored(s: Stream): Stream {
    var ms := NormalAll(s.messages);
    Stream(s.name, s.subjects[..if s.subjects == [] then 0 else 1], ms, s.idCounter, SendAll(Bare(s.consumers), ms))
  }

  function RestoreAll(streams: seq<Stream>): seq<Stream> {
    seq(|streams|, i requires 0 <= i < |streams| => Restored(streams[i]))
  }

  // ----- consumers -----

  lemma {:induction false} LoadConsumersBack(cs: seq<Consumer>)
    requires forall k :: 0 <= k < |cs| ==> ConsumerOk(cs[k])
    ensures LoadConsumers(Lines(cs)) == cs
  {
    if cs != [] {
      var rest, c := cs[..|cs| - 1], cs[|cs| - 1];
      LoadConsumersBack(rest);
      assert Lines(cs)[..|cs| - 1] == Lines(rest);
      ReadBackConsumer(c.name, c.delivery, c.lastAck);
    }
  }

  ghost predicate IsRegistered(reg: seq<Registered>, stream: string, name: string) {
    exists k :: 0 <= k < |reg| && reg[k].stream == stream && reg[k].consumer.name == name
  }

  lemma IsRegisteredHead(reg: seq<Registered>, stream: string, name: string)
    requires reg != []
    ensures IsRegistered(reg, stream, name) <==>
      (reg[0].stream == stream && reg[0].consumer.name == name) || IsRegistered(reg[1..], stream, name)
  {
    if IsRegistered(reg[1..], stream, name) {
      var k :| 0 <= k < |reg[1..]| && reg[1..][k].stream == stream && reg[1..][k].consumer.name == name;
      assert reg[k + 1] == reg[1..][k];
    }
    if IsRegistered(reg, stream, name) {
      var k :| 0 <= k < |reg| && reg[k].stream == stream && reg[k].consumer.name == name;
      assert k > 0 ==> reg[1..][k - 1] == reg[k];
    }
  }

  lemma {:induction false} OfMembers(reg: seq<Registered>, stream: string, name: string)
    ensures name in Names(Of(reg, stream)) <==> IsRegistered(reg, stream, name)
  {
    if reg != [] {
      OfMembers(reg[1..], stream, name);
      IsRegisteredHead(reg, stream, name);
      var head := if reg[0].stream == stream then [reg[0].consumer] else [];
      assert Names(Of(reg, stream)) == Names(head) + Names(Of(reg[1..], stream));
      assert head != [] ==> Names(head)[0] == reg[0].consumer.name;
    }
  }

  /** Names being distinct, a consumer is listed under a stream iff it was created there. */
  lemma ListedIffCreated(reg: seq<Registered>, stream: string, k: nat)
    requires RegistryOk(reg) && k < |reg|
    ensures reg[k].consumer.name in Names(Of(reg, stream)) <==> reg[k].stream == stream
  {
    OfMembers(reg, stream, reg[k].consumer.name);
  }

  lemma {:induction false} ListedIsOf(reg: seq<Registered>, stream: string, names: seq<string>)
    requires forall k :: 0 <= k < |reg| ==> (reg[k].consumer.name in names <==> reg[k].stream == stream)
    ensures Listed(Consumers(reg), names, true) == Of(reg, stream)
  {
    if reg != [] {
      ListedIsOf(reg[1..], stream, names);
      assert Consumers(reg)[1..] == Consumers(reg[1..]);
    }
  }

  lemma {:induction false} ListedAfter(cs: seq<Consumer>, names: seq<string>, others: seq<string>)
    requires forall n :: n in others ==> n !in names
    ensures Listed(Listed(cs, names, false), others, true) == Listed(cs, others, true)
  {
    if cs != [] {
      ListedAfter(cs[1..], names, others);
      var rest := Listed(cs[1..], names, false);
      assert ([cs[0]] + rest)[1..] == rest;
    }
  }

  /** The list of a relation line, as it is read back. */
  lemma RelLineNames(s: Stream)
    requires Field(s.name) && forall i :: 0 <= i < |s.consumers| ==> Field(s.consumers[i].name)
    ensures var parts := Split(StreamRelLine(s), ',');
      |parts| >= 1 && Trim(parts[0]) == s.name && TrimAll(parts[1..]) == Names(s.consumers)
  {
    RelLineSplits(s.name, Names(s.consumers));
    TrimIsIdentity(s.name);
    var names := Names(s.consumers);
    assert ([s.name] + names)[1..] == names;
    forall i | 0 <= i < |names| ensures Trim(names[i]) == names[i] {
      TrimIsIdentity(names[i]);
    }
  }

  /** `cs` can be dealt out to `streams`. */
  ghost predicate Dealable(streams: seq<Stream>, cs: seq<Consumer>) {
    && (forall i :: 0 <= i < |streams| ==> Field(streams[i].name) && Listed(cs, Names(streams[i].consumers), true) == Bare(streams[i].consumers))
    && (forall i, k :: 0 <= i < |streams| && 0 <= k < |streams[i].consumers| ==> Field(streams[i].consumers[k].name))
    && (forall i, j, n :: 0 <= i < j < |streams| && n in Names(streams[i].consumers) ==> n !in Names(streams[j].consumers))
  }

  function Owners(streams: seq<Stream>, acc: map<string, seq<Consumer>>): map<string, seq<Consumer>>
    decreases streams
  {
    if streams == [] then acc else Owners(streams[1..], acc[streams[0].name := Bare(streams[0].consumers)])
  }

  lemma {:induction false} AssignDeals(streams: seq<Stream>, cs: seq<Consumer>, acc: map<string, seq<Consumer>>)
    requires Dealable(streams, cs)
    ensures Assign(RelLines(streams), cs, acc) == Owners(streams, acc)
    decreases streams
  {
    if streams != [] {
      var s, rest := streams[0], streams[1..];
      var cs' := Listed(cs, Names(s.consumers), false);
      assert RelLines(streams)[1..] == RelLines(rest);
      RelLineNames(s);
      DealRest(streams, cs);
      AssignDeals(rest, cs', acc[s.name := Bare(s.consumers)]);
    }
  }

  lemma DealRest(streams: seq<Stream>, cs: seq<Consumer>)
    requires streams != [] && Dealable(streams, cs)
    ensures Dealable(streams[1..], Listed(cs, Names(streams[0].consumers), false))
  {
    var cs' := Listed(cs, Names(streams[0].consumers), false);
    forall i | 0 <= i < |streams[1..]|
      ensures Listed(cs', Names(streams[1..][i].consumers), true) == Bare(streams[1..][i].consumers)
    {
      ListedAfter(cs, Names(streams[0].consumers), Names(streams[i + 1].consumers));
    }
  }

  lemma {:induction false} OwnersAt(streams: seq<Stream>, acc: map<string, seq<Consumer>>, i: nat)
    requires DistinctStreams(streams) && i < |streams|
    ensures streams[i].name in Owners(streams, acc)
    ensures Owners(streams, acc)[streams[i].name] == Bare(streams[i].consumers)
    decreases streams
  {
    var acc' := acc[streams[0].name := Bare(streams[0].consumers)];
    if i > 0 {
      OwnersAt(streams[1..], acc', i - 1);
    } else {
      OwnersKeeps(streams[1..], acc', streams[0].name);
    }
  }

  lemma {:induction false} OwnersKeeps(streams: seq<Stream>, acc: map<string, seq<Consumer>>, name: string)
    requires name in acc && forall i :: 0 <= i < |streams| ==> streams[i].name != name
    ensures name in Owners(streams, acc) && Owners(streams, acc)[name] == acc[name]
    decreases streams
  {
    if streams != [] {
      OwnersKeeps(streams[1..], acc[streams[0].name := Bare(streams[0].consumers)], name);
    }
  }

  // ----- streams -----

  lemma {:induction false} NextIdDense(messages: seq<Message>)
    requires Dense(messages)
    ensures NextId(messages) == |messages|
  {
    if messages != [] {
      NextIdDense(messages[..|messages| - 1]);
    }
  }

  lemma LoadFirst(data: seq<string>, s: Stream, owners: map<string, seq<Consumer>>)
    requires data != [] && StreamOk(s) && DataSaved(data[0], s)
    requires s.name in owners && owners[s.name] == Bare(s.consumers)
    ensures LoadStreams(data, owners) == [Restored(s)] + LoadStreams(data[1..], owners - {s.name})
  {
    NextIdDense(NormalAll(s.messages));
    assert s.subjects[..1] == [s.subjects[0]];
  }

  /** Streams with a saved line and an entry in the table of consumers. */
  ghost predicate Loadable(data: seq<string>, streams: seq<Stream>, owners: map<string, seq<Consumer>>) {
    && |data| == |streams| && DistinctStreams(streams)
    && forall i :: 0 <= i < |streams| ==>
      && StreamOk(streams[i]) && DataSaved(data[i], streams[i])
      && streams[i].name in owners && owners[streams[i].name] == Bare(streams[i].consumers)
  }

  lemma LoadableRest(data: seq<string>, streams: seq<Stream>, owners: map<string, seq<Consumer>>)
    requires streams != [] && Loadable(data, streams, owners)
    ensures Loadable(data[1..], streams[1..], owners - {streams[0].name})
  {
  }

  lemma RestoreFirst(streams: seq<Stream>)
    requires streams != []
    ensures RestoreAll(streams) == [Restored(streams[0])] + RestoreAll(streams[1..])
  {
  }

  lemma {:induction false} LoadStreamsBack(data: seq<string>, streams: seq<Stream>, owners: map<string, seq<Consumer>>)
    requires Loadable(data, streams, owners)
    ensures LoadStreams(data, owners) == RestoreAll(streams)
    decreases data
  {
    if data != [] {
      assert data != [] && streams != [];
      LoadFirst(data, streams[0], owners);
      RestoreFirst(streams);
      LoadableRest(data, streams, owners);
      LoadStreamsBack(data[1..], streams[1..], owners - {streams[0].name});
    }
  }

  lemma SavedIsDealable(v: Server, reg: seq<Registered>)
    requires Saved(v, reg) && Agrees(v, reg)
    ensures Dealable(v.streams, Consumers(reg))
  {
    forall i | 0 <= i < |v.streams|
      ensures Listed(Consumers(reg), Names(v.streams[i].consumers), true) == Bare(v.streams[i].consumers)
    {
      SavedNames(v, reg, i);
      ListedIsOf(reg, v.streams[i].name, Names(v.streams[i].consumers));
    }
    forall i, k | 0 <= i < |v.streams| && 0 <= k < |v.streams[i].consumers| ensures Field(v.streams[i].consumers[k].name) {
      SavedField(v, reg, i, k);
    }
    forall i, j, n | 0 <= i < j < |v.streams| && n in Names(v.streams[i].consumers)
      ensures n !in Names(v.streams[j].consumers)
    {
      SavedNames(v, reg, i);
      SavedNames(v, reg, j);
      OfMembers(reg, v.streams[i].name, n);
      var k :| 0 <= k < |reg| && reg[k].stream == v.streams[i].name && reg[k].consumer.name == n;
    }
  }

  lemma SavedNames(v: Server, reg: seq<Registered>, i: nat)
    requires Saved(v, reg) && i < |v.streams|
    ensures Names(v.streams[i].consumers) == Names(Of(reg, v.streams[i].name))
    ensures forall k :: 0 <= k < |reg| ==> (reg[k].consumer.name in Names(v.streams[i].consumers) <==> reg[k].stream == v.streams[i].name)
  {
    assert StreamSaved(v.files.data[i], v.streams[i], reg);
    ListedIffCreatedAll(reg, v.streams[i].name);
  }

  lemma ListedIffCreatedAll(reg: seq<Registered>, stream: string)
    requires RegistryOk(reg)
    ensures forall k :: 0 <= k < |reg| ==> (reg[k].consumer.name in Names(Of(reg, stream)) <==> reg[k].stream == stream)
  {
    forall k | 0 <= k < |reg| ensures reg[k].consumer.name in Names(Of(reg, stream)) <==> reg[k].stream == stream {
      ListedIffCreated(reg, stream, k);
    }
  }

  lemma SavedField(v: Server, reg: seq<Registered>, i: nat, k: nat)
    requires Saved(v, reg) && i < |v.streams| && k < |v.streams[i].consumers|
    ensures Field(v.streams[i].consumers[k].name)
  {
    var n := v.streams[i].consumers[k].name;
    assert Names(v.streams[i].consumers)[k] == n;
    SavedNames(v, reg, i);
    OfMembers(reg, v.streams[i].name, n);
  }

  lemma LoadAgrees(v: Server, reg: seq<Registered>)
    requires Saved(v, reg) && Agrees(v, reg)
    ensures Load(v.files) == RestoreAll(v.streams)
  {
    var cs := Consumers(reg);
    LoadConsumersBack(cs);
    SavedIsDealable(v, reg);
    AssignDeals(v.streams, cs, map[]);
    forall i | 0 <= i < |v.streams|
      ensures v.streams[i].name in Owners(v.streams, map[])
      ensures Owners(v.streams, map[])[v.streams[i].name] == Bare(v.streams[i].consumers)
    {
      assert StreamSaved(v.files.data[i], v.streams[i], reg);
      OwnersAt(v.streams, map[], i);
    }
    LoadStreamsBack(v.files.data, v.streams, Owners(v.streams, map[]));
  }

  lemma {:induction false} OfOk(reg: seq<Registered>, stream: string)
    requires forall k :: 0 <= k < |reg| ==> ConsumerOk(reg[k].consumer)
    ensures forall m :: 0 <= m < |Of(reg, stream)| ==> ConsumerOk(Of(reg, stream)[m])
  {
    if reg != [] {
      OfOk(reg[1..], stream);
    }
  }

  lemma BareOf(reg: seq<Registered>, stream: string)
    requires RegistryOk(reg)
    ensures Bare(Of(reg, stream)) == Of(reg, stream) && Deliverable(Of(reg, stream))
  {
    OfOk(reg, stream);
    assert forall m :: 0 <= m < |Of(reg, stream)| ==> ConsumerOk(Of(reg, stream)[m]);
  }

  /** The server as its files see it. */
  lemma OnFileSaved(v: Server, reg: seq<Registered>)
    requires Saved(v, reg)
    ensures Saved(Server(OnFile(v.streams, reg), v.files), reg) && Agrees(Server(OnFile(v.streams, reg), v.files), reg)
  {
    var w := OnFile(v.streams, reg);
    forall i | 0 <= i < |w| ensures StreamSaved(v.files.data[i], w[i], reg) && StreamRelLine(w[i]) == StreamRelLine(v.streams[i]) {
      assert StreamSaved(v.files.data[i], v.streams[i], reg);
      BareOf(reg, w[i].name);
    }
    assert RelLines(w) == RelLines(v.streams);
    forall k | 0 <= k < |reg| ensures InStreams(w, reg[k].stream) {
      var j :| 0 <= j < |v.streams| && v.streams[j].name == reg[k].stream;
      assert w[j].name == reg[k].stream;
    }
    forall i | 0 <= i < |w| ensures Bare(w[i].consumers) == Of(reg, w[i].name) {
      BareOf(reg, w[i].name);
    }
  }

  /** Loading the files rebuilds the streams, in order, with their names, first subjects, messages,
      counters and consumers, these with the last acknowledgements that were written. */
  lemma LoadRestores(v: Server, reg: seq<Registered>)
    requires Saved(v, reg)
    ensures Load(v.files) == RestoreAll(OnFile(v.streams, reg))
  {
    OnFileSaved(v, reg);
    LoadAgrees(Server(OnFile(v.streams, reg), v.files), reg);
  }

  lemma RestoredBare(s: Stream)
    ensures Bare(Restored(s).consumers) == Bare(s.consumers)
  {
  }

  /** What is loaded is what a restart makes of the memory exactly when the memory agrees with what was
      written last of each consumer. */
  lemma LoadExact(v: Server, reg: seq<Registered>)
    requires Saved(v, reg)
    ensures Load(v.files) == RestoreAll(v.streams) <==> Agrees(v, reg)
  {
    if Agrees(v, reg) {
      LoadAgrees(v, reg);
    }
    if Load(v.files) == RestoreAll(v.streams) {
      LoadRestores(v, reg);
      forall i | 0 <= i < |v.streams| ensures Bare(v.streams[i].consumers) == Of(reg, v.streams[i].name) {
        var w := OnFile(v.streams, reg);
        assert RestoreAll(w)[i] == RestoreAll(v.streams)[i];
        RestoredBare(w[i]);
        RestoredBare(v.streams[i]);
        BareOf(reg, v.streams[i].name);
      }
    }
  }
}
