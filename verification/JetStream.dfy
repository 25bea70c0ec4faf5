/** The stored streams: what each operation does in memory and in the three files, and what
    loading the files rebuilds. */
module JetStreams {
  import opened Wrappers
  import opened Sequences
  import opened Text
  import opened FileProcessing
  import opened JetStreamFormat

  /** A push consumer; `queue` is the channel to its sending thread. */
  datatype Consumer = Consumer(name: string, delivery: string, lastAck: nat, queue: seq<Message>)

  datatype Stream = Stream(name: string, subjects: seq<string>, messages: seq<Message>, idCounter: nat, consumers: seq<Consumer>)

  /** Lines of `jetstream_data.csv`, `jetstream_consumers.csv` and `consumers.csv`. */
  datatype Files = Files(data: seq<string>, rel: seq<string>, consumers: seq<string>)

  datatype Server = Server(streams: seq<Stream>, files: Files)

  function Names(cs: seq<Consumer>): seq<string> {
    seq(|cs|, i requires 0 <= i < |cs| => cs[i].name)
  }

  function SendTo(cs: seq<Consumer>, m: Message): seq<Consumer> {
    seq(|cs|, i requires 0 <= i < |cs| => cs[i].(queue := cs[i].queue + [m]))
  }

  function StreamDataLine(s: Stream): string
    requires s.subjects != []
  {
    DataLine(s.name, s.subjects[0], s.messages)
  }

  function StreamRelLine(s: Stream): string {
    RelLine(s.name, Names(s.consumers))
  }

  function LineOf(c: Consumer): string {
    ConsumerLine(c.name, c.delivery, c.lastAck)
  }

  // ----- one stream -----

  function Stored(s: Stream, text: string): Stream {
    var m := Message(text, s.idCounter);
    s.(messages := s.messages + [m], consumers := SendTo(s.consumers, m), idCounter := s.idCounter + 1)
  }

  predicate Knows(cs: seq<Consumer>, name: string) {
    exists i :: 0 <= i < |cs| && cs[i].name == name
  }

  function WithConsumer(s: Stream, c: Consumer): Stream {
    if Knows(s.consumers, c.name) then s else s.(consumers := s.consumers + [c])
  }

  /** The first consumer called `name` gets a new last acknowledgement. */
  function AckIn(cs: seq<Consumer>, name: string, id: nat): seq<Consumer> {
    if cs == [] then []
    else if cs[0].name == name then [cs[0].(lastAck := id)] + cs[1..]
    else [cs[0]] + AckIn(cs[1..], name, id)
  }

  function FirstNamed(cs: seq<Consumer>, name: string): (i: nat)
    ensures i <= |cs|
    ensures i < |cs| ==> cs[i].name == name
    ensures forall j :: 0 <= j < i ==> cs[j].name != name
  {
    FirstIndex(cs, (c: Consumer) => c.name == name)
  }

  lemma FirstNamedAfter(cs: seq<Consumer>, name: string)
    requires cs != [] && cs[0].name != name
    ensures FirstNamed(cs, name) == 1 + FirstNamed(cs[1..], name)
  {
  }

  lemma PutInTail(cs: seq<Consumer>, j: nat, c: Consumer)
    requires j + 1 < |cs|
    ensures cs[j + 1 := c] == [cs[0]] + cs[1..][j := c]
  {
  }

  lemma {:induction false} AckInAt(cs: seq<Consumer>, name: string, id: nat)
    ensures var i := FirstNamed(cs, name);
      AckIn(cs, name, id) == if i < |cs| then cs[i := cs[i].(lastAck := id)] else cs
  {
    if cs != [] && cs[0].name != name {
      FirstNamedAfter(cs, name);
      AckInAt(cs[1..], name, id);
      var j := FirstNamed(cs[1..], name);
      if j + 1 < |cs| {
        PutInTail(cs, j, cs[j + 1].(lastAck := id));
      }
    }
  }

  /** A stream as it runs, with the files it writes. */
  class JetStream {
    const name: string
    const subjects: seq<string>
    const data: CsvFile
    const rel: CsvFile
    const acks: CsvFile
    var messages: seq<Message>
    var consumers: seq<Consumer>
    var idCounter: nat

    constructor (name: string, subjects: seq<string>, data: CsvFile, rel: CsvFile, acks: CsvFile)
      ensures View() == Stream(name, subjects, [], 0, [])
      ensures this.data == data && this.rel == rel && this.acks == acks
    {
      this.name, this.subjects := name, subjects;
      this.data, this.rel, this.acks := data, rel, acks;
      messages, consumers, idCounter := [], [], 0;
    }

    ghost function View(): Stream
      reads this
    {
      Stream(name, subjects, messages, idCounter, consumers)
    }

    method StoreMsg(text: string)
      requires subjects != [] && data != rel
      modifies this, data, rel
      ensures View() == Stored(old(View()), text)
      ensures data.lines == Upsert(old(data.lines), StreamDataLine(View()), name)
      ensures rel.lines == Upsert(old(rel.lines), StreamRelLine(View()), name)
    {
      messages := messages + [Message(text, idCounter)];
      consumers := SendTo(consumers, Message(text, idCounter));
      idCounter := idCounter + 1;
      data.UpdateCsvFile(DataLine(name, subjects[0], messages), name);
      rel.UpdateCsvFile(RelLine(name, Names(consumers)), name);
    }

    method AddConsumer(c: Consumer)
      modifies this`consumers, rel
      ensures View() == WithConsumer(old(View()), c)
      ensures rel.lines == if Knows(old(consumers), c.name) then old(rel.lines)
                           else Upsert(old(rel.lines), StreamRelLine(View()), name)
    {
      if Knows(consumers, c.name) {
        return;
      }
      consumers := consumers + [c];
      rel.UpdateCsvFile(RelLine(name, Names(consumers)), name);
    }

    /** `alive` tells whether the consumer's thread still takes acknowledgements: if not, the line is
        not written. */
    method Ack(consumer: string, id: nat, alive: bool) returns (r: Result<(), string>)
      modifies this`consumers, acks
      ensures View() == old(View()).(consumers := AckIn(old(consumers), consumer, id))
      ensures r.Ok? <==> Knows(old(consumers), consumer) && alive
      ensures r.Err? ==> acks.lines == old(acks.lines)
      ensures r.Ok? ==>
        var c := old(consumers)[FirstNamed(old(consumers), consumer)].(lastAck := id);
        acks.lines == Upsert(old(acks.lines), LineOf(c), c.name)
    {
      AckInAt(consumers, consumer, id);
      var i := FirstNamed(consumers, consumer);
      if i == |consumers| {
        return Err("Consumer not found");
      }
      consumers := consumers[i := consumers[i].(lastAck := id)];
      if !alive {
        return Err("Error al enviar ack");
      }
      acks.UpdateCsvFile(ConsumerLine(consumers[i].name, consumers[i].delivery, consumers[i].lastAck), consumers[i].name);
      r := Ok(());
    }
  }

  // ----- loading -----

  /** The consumer of a line, if the line can be read. */
  function ConsumerOf(line: string): seq<Consumer> {
    match ParseConsumersData(line)
    case Err(_) => []
    case Ok(c) => [Consumer(c.name, c.delivery, c.lastAck, [])]
  }

  function LoadConsumers(lines: seq<string>): seq<Consumer> {
    if lines == [] then [] else LoadConsumers(lines[..|lines| - 1]) + ConsumerOf(lines[|lines| - 1])
  }

  /** The consumers whose name is listed, or those whose name is not. */
  function Listed(cs: seq<Consumer>, names: seq<string>, yes: bool): seq<Consumer> {
    if cs == [] then []
    else if (cs[0].name in names) == yes then [cs[0]] + Listed(cs[1..], names, yes)
    else Listed(cs[1..], names, yes)
  }

  function TrimAll(parts: seq<string>): seq<string> {
    seq(|parts|, i requires 0 <= i < |parts| => Trim(parts[i]))
  }

  function Assign(rel: seq<string>, cs: seq<Consumer>, acc: map<string, seq<Consumer>>): map<string, seq<Consumer>>
    decreases rel
  {
    if rel == [] then acc
    else
      var parts := Split(rel[0], ',');
      var names := TrimAll(parts[1..]);
      Assign(rel[1..], Listed(cs, names, false), acc[Trim(parts[0]) := Listed(cs, names, true)])
  }

  /** One past the greatest number, or 0. */
  function NextId(messages: seq<Message>): nat {
    if messages == [] then 0
    else
      var n := NextId(messages[..|messages| - 1]);
      var id := messages[|messages| - 1].id;
      if id + 1 > n then id + 1 else n
  }

  /** Every stored message, sent again to each consumer. */
  function SendAll(cs: seq<Consumer>, messages: seq<Message>): seq<Consumer> {
    seq(|cs|, i requires 0 <= i < |cs| => cs[i].(queue := cs[i].queue + messages))
  }

  function LoadStreams(data: seq<string>, owners: map<string, seq<Consumer>>): seq<Stream>
    decreases data
  {
    if data == [] then []
    else
      match Parsed(data[0])
      case Err(_) => LoadStreams(data[1..], owners)
      case Ok(p) =>
        if p.name !in owners then LoadStreams(data[1..], owners)
        else
          [Stream(p.name, [p.subject], p.messages, NextId(p.messages), SendAll(owners[p.name], p.messages))]
          + LoadStreams(data[1..], owners - {p.name})
  }

  function Load(f: Files): seq<Stream> {
    LoadStreams(f.data, Assign(f.rel, LoadConsumers(f.consumers), map[]))
  }

  lemma SendAllNone(cs: seq<Consumer>)
    ensures SendAll(cs, []) == cs
  {
    forall i | 0 <= i < |cs| ensures SendAll(cs, [])[i] == cs[i] {
      assert cs[i].queue + [] == cs[i].queue;
    }
  }

  lemma SendAllOneMore(cs: seq<Consumer>, messages: seq<Message>, m: Message)
    ensures SendTo(SendAll(cs, messages), m) == SendAll(cs, messages + [m])
  {
    forall i | 0 <= i < |cs| ensures SendTo(SendAll(cs, messages), m)[i] == SendAll(cs, messages + [m])[i] {
      assert cs[i].queue + messages + [m] == cs[i].queue + (messages + [m]);
    }
  }

  /** `send_data_to_consumers`. */
  method SendDataToConsumers(cs: seq<Consumer>, messages: seq<Message>) returns (out: seq<Consumer>)
    ensures out == SendAll(cs, messages)
  {
    out := cs;
    SendAllNone(cs);
    for i := 0 to |messages|
      invariant out == SendAll(cs, messages[..i])
    {
      SendAllOneMore(cs, messages[..i], messages[i]);
      assert messages[..i + 1] == messages[..i] + [messages[i]];
      out := SendTo(out, messages[i]);
    }
    assert messages[..|messages|] == messages;
  }

  /** One more line read. */
  lemma LoadOneMore(lines: seq<string>, i: nat)
    requires i < |lines|
    ensures LoadConsumers(lines[..i + 1]) == LoadConsumers(lines[..i]) + ConsumerOf(lines[i])
  {
    assert lines[..i + 1][..i] == lines[..i];
  }

  /** The consumer of a line writes its line again, if there is one. */
  method LoadConsumer(acks: CsvFile, line: string) returns (cs: seq<Consumer>)
    modifies acks
    ensures cs == ConsumerOf(line)
    ensures acks.lines == if cs == [] then old(acks.lines) else Upsert(old(acks.lines), LineOf(cs[0]), cs[0].name)
  {
    var p := ParseConsumersData(line);
    if p.Err? {
      return [];
    }
    var c := Consumer(p.value.name, p.value.delivery, p.value.lastAck, []);
    acks.UpdateCsvFile(LineOf(c), c.name);
    cs := [c];
  }

  /** `load_consumers`: each consumer that is loaded writes its line again. */
  method LoadConsumersFile(acks: CsvFile) returns (cs: seq<Consumer>)
    modifies acks
    ensures cs == LoadConsumers(old(acks.lines))
    ensures acks.lines == Rewritten(old(acks.lines), cs)
  {
    var lines := acks.lines;
    cs := [];
    for i := 0 to |lines|
      invariant cs == LoadConsumers(lines[..i])
      invariant acks.lines == Rewritten(lines, cs)
    {
      LoadOneMore(lines, i);
      var one := LoadConsumer(acks, lines[i]);
      RewrittenMore(lines, cs, one);
      cs := cs + one;
    }
    assert lines[..|lines|] == lines;
  }

  lemma RewrittenMore(lines: seq<string>, cs: seq<Consumer>, one: seq<Consumer>)
    requires |one| <= 1
    ensures Rewritten(lines, cs + one)
         == if one == [] then Rewritten(lines, cs) else Upsert(Rewritten(lines, cs), LineOf(one[0]), one[0].name)
  {
    if one == [] {
      assert cs + one == cs;
    } else {
      assert (cs + one)[..|cs|] == cs;
    }
  }

  /** `_load_file_storage`, lines 281-294. */
  method AssignOwners(rel: seq<string>, cs: seq<Consumer>) returns (owners: map<string, seq<Consumer>>)
    ensures owners == Assign(rel, cs, map[])
  {
    owners := map[];
    var rest := cs;
    for i := 0 to |rel|
      invariant Assign(rel, cs, map[]) == Assign(rel[i..], rest, owners)
    {
      assert rel[i..][1..] == rel[i + 1..];
      var parts := Split(rel[i], ',');
      var names := TrimAll(parts[1..]);
      owners, rest := owners[Trim(parts[0]) := Listed(rest, names, true)], Listed(rest, names, false);
    }
  }

  /** `_load_file_storage`, lines 296-319. */
  method LoadStreamsFrom(data: seq<string>, owners: map<string, seq<Consumer>>) returns (streams: seq<Stream>)
    ensures streams == LoadStreams(data, owners)
  {
    streams := [];
    var left := owners;
    for i := 0 to |data|
      invariant LoadStreams(data, owners) == streams + LoadStreams(data[i..], left)
    {
      assert data[i..][1..] == data[i + 1..];
      var p := ParseJsData(data[i]);
      if p.Ok? && p.value.name in left {
        var m := p.value.messages;
        var loaded := SendDataToConsumers(left[p.value.name], m);
        var s := Stream(p.value.name, [p.value.subject], m, NextId(m), loaded);
        ghost var rest := LoadStreams(data[i + 1..], left - {p.value.name});
        assert streams + ([s] + rest) == (streams + [s]) + rest;
        streams := streams + [s];
        left := left - {p.value.name};
      }
    }
  }

  /** `_load_file_storage`. */
  method LoadFileStorage(data: CsvFile, rel: CsvFile, acks: CsvFile) returns (streams: seq<Stream>)
    requires acks != data && acks != rel
    modifies acks
    ensures streams == Load(Files(data.lines, rel.lines, old(acks.lines)))
    ensures acks.lines == Rewritten(old(acks.lines), LoadConsumers(old(acks.lines)))
  {
    var cs := LoadConsumersFile(acks);
    var owners := AssignOwners(rel.lines, cs);
    streams := LoadStreamsFrom(data.lines, owners);
  }

  function Rewritten(lines: seq<string>, cs: seq<Consumer>): seq<string> {
    if cs == [] then lines
    else
      var c := cs[|cs| - 1];
      Upsert(Rewritten(lines, cs[..|cs| - 1]), LineOf(c), c.name)
  }
}
