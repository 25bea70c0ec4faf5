/** A run that the files cannot hold: a text with a comma. */
module CommaRun {
  import opened Wrappers
  import opened Text
  import Subjects
  import opened FileProcessing
  import opened JetStreamFormat
  import opened JetStreams
  import opened JetStreamLoad
  import opened JetStreamRuns
  import opened Consumers

  const COMMA := [Message("x,7 y", 0), Message("t", 1)]
  const BROKEN := [Message("x", 0), Message("y", 7), Message("t", 1)]

  lemma PrintDigit(n: nat)
    requires n < 10
    ensures |Print(n)| == 1 && Print(n)[0] == '0' + n as char
  {
  }

  lemma CommaLine(name: string, subject: string, messages: seq<Message>)
    requires name == "n" && subject == "s" && messages == COMMA
    ensures DataLine(name, subject, messages) == "n,s,0 x,7 y,1 t"
  {
    PrintDigit(0);
    PrintDigit(1);
    assert Print(0) == "0" && Print(1) == "1";
    assert COMMA[..1] == [Message("x,7 y", 0)] && [Message("x,7 y", 0)][..0] == [];
    assert DataLine("n", "s", []) == "n,s";
    assert DataLine("n", "s", [Message("x,7 y", 0)]) == "n,s,0 x,7 y";
  }

  lemma CommaSplits(line: string)
    requires line == "n,s,0 x,7 y,1 t"
    ensures Split(line, ',') == ["n", "s", "0 x", "7 y", "1 t"]
  {
    var parts := ["n", "s", "0 x", "7 y", "1 t"];
    assert parts[1..] == ["s", "0 x", "7 y", "1 t"] && parts[1..][1..] == ["0 x", "7 y", "1 t"];
    assert parts[1..][1..][1..] == ["7 y", "1 t"] && ["7 y", "1 t"][1..] == ["1 t"];
    assert Join(["7 y", "1 t"], ",") == "7 y,1 t";
    assert Join(["0 x", "7 y", "1 t"], ",") == "0 x,7 y,1 t";
    assert Join(parts[1..], ",") == "s,0 x,7 y,1 t";
    SplitJoin(parts, ',');
  }

  lemma FieldIs(m: Message, text: string)
    requires Print(m.id) + " " + m.text == text && |m.text| == 1 && !IsWhite(m.text[0])
    ensures MessageField(m) == text && NormalMessage(m) == m
  {
    OneLetter(m.text);
  }

  lemma BrokenFields()
    ensures MessageFields(BROKEN) == ["0 x", "7 y", "1 t"] && NormalAll(BROKEN) == BROKEN && IdsFit(BROKEN)
  {
    PrintDigit(0);
    PrintDigit(7);
    PrintDigit(1);
    FieldIs(BROKEN[0], "0 x");
    FieldIs(BROKEN[1], "7 y");
    FieldIs(BROKEN[2], "1 t");
    assert |BROKEN| == 3;
  }

  lemma OneLetter(text: string)
    requires |text| == 1 && !IsWhite(text[0])
    ensures Normal(text) == text
  {
    SplitWhiteJoin([text]);
  }

  lemma ParsedFrom(line: string, name: string, subject: string, fields: seq<string>, messages: seq<Message>)
    requires Split(line, ',') == [name, subject] + fields && MessageFields(messages) == fields
    requires Trimmed(name) && Trimmed(subject) && IdsFit(messages)
    ensures Parsed(line) == Ok(ParsedStream(name, subject, NormalAll(messages)))
  {
    ParseMessageFields(messages);
    TrimIsIdentity(name);
    TrimIsIdentity(subject);
    assert Split(line, ',')[2..] == fields;
  }

  /** The line of the two messages is read as three. */
  lemma CommaLoads(name: string, subject: string, messages: seq<Message>)
    requires name == "n" && subject == "s" && messages == COMMA
    ensures Parsed(DataLine(name, subject, messages)) == Ok(ParsedStream(name, subject, BROKEN))
  {
    var line, fields := DataLine(name, subject, messages), ["0 x", "7 y", "1 t"];
    CommaLine(name, subject, messages);
    CommaSplits(line);
    assert Split(line, ',') == [name, subject] + fields;
    BrokenFields();
    ParsedFrom(line, name, subject, fields, BROKEN);
  }

  lemma {:induction false} DataLineStart(name: string, subject: string, messages: seq<Message>)
    requires Field(name)
    ensures Key(DataLine(name, subject, messages)) == name
  {
    TrimIsIdentity(name);
    if messages == [] {
      SplitFree(name, ',');
      SplitConcat(name, ',', subject);
      assert name + "," + subject == name + [','] + subject;
    } else {
      var m := messages[|messages| - 1];
      var rest := DataLine(name, subject, messages[..|messages| - 1]);
      DataLineStart(name, subject, messages[..|messages| - 1]);
      SplitConcat(rest, ',', Print(m.id) + " " + m.text);
      assert rest + "," + Print(m.id) + " " + m.text == rest + [','] + (Print(m.id) + " " + m.text);
    }
  }

  /** A server that holds one stream and wrote its lines. */
  function Single(s: Stream): Server
    requires s.subjects != [] && |s.consumers| <= 1
  {
    Server([s], Files([StreamDataLine(s)], [StreamRelLine(s)], if s.consumers == [] then [] else [LineOf(s.consumers[0])]))
  }

  lemma StoreInSingle(s: Stream, subject: string, text: string)
    requires Field(s.name) && s.subjects != [] && |s.consumers| == 1 && Receives(s, subject)
    ensures Published(Single(s), 0, subject, text) == Single(Stored(s, text))
  {
    var v, t := Single(s), Stored(s, text);
    DataLineStart(s.name, s.subjects[0], s.messages);
    RelLineStart(s.name, Names(s.consumers));
    UpsertPlace(v.files.data, 0, StreamDataLine(t), s.name);
    UpsertPlace(v.files.rel, 0, StreamRelLine(t), s.name);
    assert StoredAt(v, 0, text) == Single(t);
    assert Published(StoredAt(v, 0, text), 1, subject, text) == StoredAt(v, 0, text);
  }

  lemma CreateFirst(s: Stream)
    requires s.messages == [] && s.idCounter == 0 && s.consumers == [] && s.subjects != []
    ensures Step(EMPTY, CreateStream(s.name, s.subjects)) == Single(s)
  {
    UpsertNew([], StreamDataLine(s), s.name);
    UpsertNew([], StreamRelLine(s), s.name);
  }

  lemma JoinFirst(s: Stream, c: Consumer)
    requires Field(s.name) && s.subjects != [] && s.consumers == [] && c.lastAck == 0 && c.queue == []
    ensures Step(Single(s), CreateConsumer(s.name, c.name, c.delivery)) == Single(s.(consumers := [c]))
  {
    var t := s.(consumers := [c]);
    RelLineStart(s.name, Names(s.consumers));
    UpsertPlace(Single(s).files.rel, 0, StreamRelLine(t), s.name);
    UpsertNew([], LineOf(c), c.name);
    assert WithConsumer(s, c) == t;
    assert [s][0 := t] == [t];
    assert Joined(Single(s), s.name, c.name, c.delivery).files == Single(t).files;
  }

  lemma PublishBoth(s: Stream)
    requires Field(s.name) && s.subjects == ["s"] && |s.consumers| == 1
    ensures Step(Step(Single(s), Publish("s", "x,7 y")), Publish("s", "t")) == Single(Stored(Stored(s, "x,7 y"), "t"))
  {
    var s1 := Stored(s, "x,7 y");
    Subjects.MatchesItself("s");
    assert Subjects.Matches(s.subjects[0], "s") && Subjects.Matches(s1.subjects[0], "s");
    StoreInSingle(s, "s", "x,7 y");
    StoreInSingle(s1, "s", "t");
  }

  lemma LoadSingle(s: Stream, messages: seq<Message>)
    requires Field(s.name) && |s.subjects| == 1 && |s.consumers| == 1 && s.consumers[0].lastAck < USIZE_LIMIT
    requires Field(s.consumers[0].name) && Field(s.consumers[0].delivery)
    requires Parsed(StreamDataLine(s)) == Ok(ParsedStream(s.name, s.subjects[0], messages))
    ensures Load(Single(s).files) == [Stream(s.name, s.subjects, messages, NextId(messages), SendAll(Bare(s.consumers), messages))]
  {
    var cs := Bare(s.consumers);
    var owners := map[s.name := cs];
    LoadConsumersBack(cs);
    assert Lines(cs) == Single(s).files.consumers;
    assert RelLines([s]) == [StreamRelLine(s)];
    DealSingle(s);
    AssignDeals([s], cs, map[]);
    OwnersSingle(s);
    LoadOneStream(StreamDataLine(s), owners);
    assert [s.subjects[0]] == s.subjects;
  }

  lemma OwnersSingle(s: Stream)
    ensures Owners([s], map[]) == map[s.name := Bare(s.consumers)]
  {
    assert [s][1..] == [];
    assert Owners([], map[s.name := Bare(s.consumers)]) == map[s.name := Bare(s.consumers)];
  }

  lemma LoadOneStream(line: string, owners: map<string, seq<Consumer>>)
    requires Parsed(line).Ok? && Parsed(line).value.name in owners
    ensures var p := Parsed(line).value;
      LoadStreams([line], owners) == [Stream(p.name, [p.subject], p.messages, NextId(p.messages), SendAll(owners[p.name], p.messages))]
  {
    var p := Parsed(line).value;
    assert [line][1..] == [];
    assert LoadStreams([], owners - {p.name}) == [];
  }

  lemma DealSingle(s: Stream)
    requires Field(s.name) && |s.consumers| == 1 && Field(s.consumers[0].name)
    ensures Dealable([s], Bare(s.consumers))
  {
    assert Names(s.consumers)[0] == s.consumers[0].name;
    assert Listed(Bare(s.consumers)[1..], Names(s.consumers), true) == [];
  }

  const FOLLOWER := Consumer("c", "d", 0, [])
  const FRESH := Stream("n", ["s"], [], 0, [])

  /** A stream with the given messages, all of them queued for its one consumer. */
  function Holding(messages: seq<Message>, next: nat): Stream {
    FRESH.(messages := messages, idCounter := next, consumers := [FOLLOWER.(queue := messages)])
  }

  function BothPublished(): Server {
    Step(Step(Step(Step(EMPTY, CreateStream("n", ["s"])), CreateConsumer("n", "c", "d")), Publish("s", "x,7 y")), Publish("s", "t"))
  }

  lemma BothStored()
    ensures Stored(Stored(FRESH.(consumers := [FOLLOWER]), "x,7 y"), "t") == Holding(COMMA, 2)
  {
    var s1 := Stored(FRESH.(consumers := [FOLLOWER]), "x,7 y");
    assert s1.messages == [Message("x,7 y", 0)] && s1.consumers == [FOLLOWER.(queue := s1.messages)];
    var s2 := Stored(s1, "t");
    assert s2.messages == COMMA && s2.consumers == [FOLLOWER.(queue := COMMA)];
  }

  lemma BothAre()
    ensures BothPublished() == Single(Holding(COMMA, 2))
  {
    CreateFirst(FRESH);
    JoinFirst(FRESH, FOLLOWER);
    PublishBoth(FRESH.(consumers := [FOLLOWER]));
    BothStored();
  }

  lemma SendAgain(cs: seq<Consumer>, messages: seq<Message>)
    requires |cs| == 1
    ensures SendAll(Bare(cs), messages) == [cs[0].(queue := messages)]
  {
    var none: seq<Message> := [];
    assert none + messages == messages;
  }

  /** What the run leaves in the files is loaded as three messages: the text is cut at its comma, and
      the second part comes under a number of its own choice. */
  lemma CommaReloads()
    ensures BothPublished().streams == [Holding(COMMA, 2)]
    ensures Restarted(BothPublished()).streams == [Holding(BROKEN, 8)]
  {
    BothAre();
    HoldingReloads(Holding(COMMA, 2));
    BrokenNext();
  }

  lemma HoldingReloads(s: Stream)
    requires s == Holding(COMMA, 2)
    ensures Restarted(Single(s)).streams == [Holding(BROKEN, NextId(BROKEN))]
  {
    CommaLoads(s.name, s.subjects[0], s.messages);
    LoadSingle(s, BROKEN);
    SendAgain(s.consumers, BROKEN);
  }

  lemma NextIdMore(messages: seq<Message>, m: Message)
    ensures NextId(messages + [m]) == if m.id + 1 > NextId(messages) then m.id + 1 else NextId(messages)
  {
    assert (messages + [m])[..|messages|] == messages;
  }

  lemma BrokenNext()
    ensures NextId(BROKEN) == 8
  {
    var none: seq<Message> := [];
    NextIdMore(none, BROKEN[0]);
    NextIdMore(none + [BROKEN[0]], BROKEN[1]);
    NextIdMore(none + [BROKEN[0]] + [BROKEN[1]], BROKEN[2]);
    assert none + [BROKEN[0]] + [BROKEN[1]] + [BROKEN[2]] == BROKEN;
  }

  /** Then every message that is sent is acknowledged, and yet the last one stored is skipped: its
      number is below the one acknowledged before it. */
  lemma CommaLosesAMessage(acks: seq<Event>)
    requires |acks| == 3 && forall n :: 0 <= n < 3 ==> acks[n].Acked?
    ensures Restarted(BothPublished()).streams == [Holding(BROKEN, 8)]
    ensures var c := Holding(BROKEN, 8).consumers[0];
      var p := ProcessAll(Sender(c.lastAck, 0, []), c.queue, acks);
      p.open && p.sender.out == [Message("x", 0), Message("y", 7)] && Message("t", 1) in c.queue
  {
    CommaReloads();
    SkipLast(BROKEN, acks);
    assert BROKEN[2] in BROKEN && BROKEN[..2] == [Message("x", 0), Message("y", 7)];
  }

  lemma AckedAtOnce(s: Sender, queue: seq<Message>, acks: seq<Event>)
    requires queue != [] && acks != [] && acks[0].Acked? && s.lastAck <= queue[0].id
    ensures ProcessAll(s, queue, acks)
         == ProcessAll(Sender(queue[0].id, s.sends + 1, s.out + [queue[0]]), queue[1..], acks[1..])
  {
  }

  lemma SkipLast(queue: seq<Message>, acks: seq<Event>)
    requires |queue| == 3 && queue[0].id <= queue[1].id && queue[2].id < queue[1].id
    requires |acks| == 3 && acks[0].Acked? && acks[1].Acked?
    ensures ProcessAll(Sender(0, 0, []), queue, acks).open
    ensures ProcessAll(Sender(0, 0, []), queue, acks).sender.out == queue[..2]
  {
    AckedAtOnce(Sender(0, 0, []), queue, acks);
    assert [] + [queue[0]] == [queue[0]];
    AckedAtOnce(Sender(queue[0].id, 1, [queue[0]]), queue[1..], acks[1..]);
    var s := Sender(queue[1].id, 2, [queue[0]] + [queue[1]]);
    SkipOld(s, queue[1..][1..], acks[1..][1..]);
    assert s.out == queue[..2];
  }

  lemma SkipOld(s: Sender, queue: seq<Message>, events: seq<Event>)
    requires |queue| == 1 && queue[0].id < s.lastAck
    ensures ProcessAll(s, queue, events) == Progress(s, events, true)
  {
    assert ProcessAll(s, queue[1..], events) == Progress(s, events, true);
  }
}
