/** The lines that a stream writes and how they are read back (`store_jetstream_data`,
    `store_jetstream_consumer_rel`, `to_csv`, `parse_js_data`, `parse_consumers_data`). */
module JetStreamFormat {
  import opened Wrappers
  import opened Text

  datatype Message = Message(text: string, id: nat)

  /** What a line of the data file holds. */
  datatype ParsedStream = ParsedStream(name: string, subject: string, messages: seq<Message>)

  datatype ParsedConsumer = ParsedConsumer(name: string, delivery: string, lastAck: nat)

  datatype Error = ParserError

  /** A name or subject that the file format keeps as it is. */
  predicate Field(s: string) {
    Trimmed(s) && ',' !in s && '\n' !in s
  }

  // ----- writing -----

  /** The data line, built message by message. */
  function DataLine(name: string, subject: string, messages: seq<Message>): string {
    if messages == [] then name + "," + subject
    else
      var m := messages[|messages| - 1];
      DataLine(name, subject, messages[..|messages| - 1]) + "," + Print(m.id) + " " + m.text
  }

  function MessageField(m: Message): string {
    Print(m.id) + " " + m.text
  }

  function MessageFields(messages: seq<Message>): seq<string> {
    seq(|messages|, i requires 0 <= i < |messages| => MessageField(messages[i]))
  }

  lemma {:induction false} JoinOneMore(parts: seq<string>, last: string, sep: string)
    requires parts != []
    ensures Join(parts + [last], sep) == Join(parts, sep) + sep + last
  {
    if |parts| > 1 {
      assert (parts + [last])[1..] == parts[1..] + [last];
      JoinOneMore(parts[1..], last, sep);
      assert parts[0] + sep + (Join(parts[1..], sep) + sep + last) == parts[0] + sep + Join(parts[1..], sep) + sep + last;
    } else {
      assert (parts + [last])[1..] == [last];
    }
  }

  /** Built by appending, the line is the fields joined by commas. */
  lemma {:induction false} DataLineIsJoin(name: string, subject: string, messages: seq<Message>)
    ensures DataLine(name, subject, messages) == Join([name, subject] + MessageFields(messages), ",")
  {
    var head := [name, subject];
    if messages == [] {
      assert head + MessageFields(messages) == head;
      assert head[1..] == [subject];
    } else {
      var rest, m := messages[..|messages| - 1], messages[|messages| - 1];
      DataLineIsJoin(name, subject, rest);
      assert head + MessageFields(messages) == (head + MessageFields(rest)) + [MessageField(m)];
      JoinOneMore(head + MessageFields(rest), MessageField(m), ",");
      var l := DataLine(name, subject, rest);
      assert l + "," + Print(m.id) + " " + m.text == l + "," + (Print(m.id) + " " + m.text);
    }
  }

  function ConsumerLine(name: string, delivery: string, lastAck: nat): string {
    name + "," + delivery + "," + Print(lastAck)
  }

  /** The name of the stream followed by those of its consumers. */
  function RelLine(name: string, consumers: seq<string>): string {
    if consumers == [] then name
    else RelLine(name, consumers[..|consumers| - 1]) + "," + consumers[|consumers| - 1]
  }

  lemma {:induction false} RelLineIsJoin(name: string, consumers: seq<string>)
    ensures RelLine(name, consumers) == Join([name] + consumers, ",")
  {
    if consumers == [] {
      assert [name] + consumers == [name];
    } else {
      var rest := consumers[..|consumers| - 1];
      RelLineIsJoin(name, rest);
      assert [name] + consumers == ([name] + rest) + [consumers[|consumers| - 1]];
      JoinOneMore([name] + rest, consumers[|consumers| - 1], ",");
    }
  }

  // ----- reading -----

  /** One message field: the number, then the words; anything else is skipped. */
  function ParseMessage(part: string): Option<Message> {
    var words := SplitWhite(part);
    if words == [] then None
    else
      match ParseUsize(words[0])
      case None => None
      case Some(id) => Some(Message(Join(words[1..], " "), id))
  }

  function ParseMessages(parts: seq<string>): seq<Message> {
    if parts == [] then []
    else
      ParseMessages(parts[..|parts| - 1]) +
      match ParseMessage(parts[|parts| - 1])
      case None => []
      case Some(m) => [m]
  }

  function Parsed(line: string): Result<ParsedStream, Error> {
    var parts := Split(line, ',');
    if |parts| < 2 then Err(ParserError)
    else Ok(ParsedStream(Trim(parts[0]), Trim(parts[1]), ParseMessages(parts[2..])))
  }

  method ParseJsData(line: string) returns (r: Result<ParsedStream, Error>)
    ensures r == Parsed(line)
  {
    var parts := Split(line, ',');
    if |parts| < 2 {
      return Err(ParserError);
    }
    var messages: seq<Message> := [];
    for i := 2 to |parts|
      invariant messages == ParseMessages(parts[2..i])
    {
      ParseOneMore(parts, i);
      var words := SplitWhite(parts[i]);
      if words != [] {
        var id := ParseUsize(words[0]);
        if id.Some? {
          messages := messages + [Message(Join(words[1..], " "), id.value)];
        }
      }
    }
    assert parts[2..|parts|] == parts[2..];
    r := Ok(ParsedStream(Trim(parts[0]), Trim(parts[1]), messages));
  }

  lemma ParseOneMore(parts: seq<string>, i: nat)
    requires 2 <= i < |parts|
    ensures ParseMessages(parts[2..i + 1])
         == if ParseMessage(parts[i]).None? then ParseMessages(parts[2..i]) else ParseMessages(parts[2..i]) + [ParseMessage(parts[i]).value]
  {
    assert parts[2..i + 1][..i - 2] == parts[2..i];
    assert ParseMessages(parts[2..i]) + [] == ParseMessages(parts[2..i]);
  }

  function ParseConsumersData(line: string): Result<ParsedConsumer, Error> {
    var parts := Split(line, ',');
    if |parts| < 3 then Err(ParserError)
    else
      match ParseUsize(Trim(parts[2]))
      case None => Err(ParserError)
      case Some(n) => Ok(ParsedConsumer(Trim(parts[0]), Trim(parts[1]), n))
  }

  // ----- round trips -----

  function NormalMessage(m: Message): Message {
    Message(Normal(m.text), m.id)
  }

  function NormalAll(messages: seq<Message>): seq<Message> {
    seq(|messages|, i requires 0 <= i < |messages| => NormalMessage(messages[i]))
  }

  predicate CommaFree(messages: seq<Message>) {
    forall i :: 0 <= i < |messages| ==> ',' !in messages[i].text
  }

  predicate IdsFit(messages: seq<Message>) {
    forall i :: 0 <= i < |messages| ==> messages[i].id < USIZE_LIMIT
  }

  lemma ParseMessageField(m: Message)
    requires m.id < USIZE_LIMIT
    ensures ParseMessage(MessageField(m)) == Some(NormalMessage(m))
  {
    ParsePrint(m.id);
    var p := Print(m.id);
    SplitWhiteFirst(p, " " + m.text);
    assert p + " " + m.text == p + (" " + m.text);
    assert (" " + m.text)[1..] == m.text;
  }

  lemma FieldsOneMore(rest: seq<Message>, m: Message)
    ensures MessageFields(rest + [m]) == MessageFields(rest) + [MessageField(m)]
    ensures NormalAll(rest + [m]) == NormalAll(rest) + [NormalMessage(m)]
  {
  }

  lemma ParseLastField(fields: seq<string>, m: Message)
    requires m.id < USIZE_LIMIT
    ensures ParseMessages(fields + [MessageField(m)]) == ParseMessages(fields) + [NormalMessage(m)]
  {
    ParseMessageField(m);
    assert (fields + [MessageField(m)])[..|fields|] == fields;
  }

  lemma {:induction false} ParseMessageFields(messages: seq<Message>)
    requires IdsFit(messages)
    ensures ParseMessages(MessageFields(messages)) == NormalAll(messages)
  {
    if messages != [] {
      var rest, m := messages[..|messages| - 1], messages[|messages| - 1];
      assert messages == rest + [m];
      ParseMessageFields(rest);
      FieldsOneMore(rest, m);
      ParseLastField(MessageFields(rest), m);
    }
  }

  lemma DataLineSplits(name: string, subject: string, messages: seq<Message>)
    requires ',' !in name && ',' !in subject && CommaFree(messages) && IdsFit(messages)
    ensures Split(DataLine(name, subject, messages), ',') == [name, subject] + MessageFields(messages)
  {
    DataLineIsJoin(name, subject, messages);
    var parts := [name, subject] + MessageFields(messages);
    forall i | 0 <= i < |parts| ensures ',' !in parts[i] {
      if i >= 2 {
        ParsePrint(messages[i - 2].id);
        assert parts[i] == MessageField(messages[i - 2]);
      }
    }
    SplitJoin(parts, ',');
  }

  lemma ParsedDataLine(name: string, subject: string, messages: seq<Message>)
    requires ',' !in name && ',' !in subject && CommaFree(messages) && IdsFit(messages)
    ensures Parsed(DataLine(name, subject, messages)) == Ok(ParsedStream(Trim(name), Trim(subject), NormalAll(messages)))
  {
    DataLineSplits(name, subject, messages);
    var parts := [name, subject] + MessageFields(messages);
    assert parts[2..] == MessageFields(messages);
    ParseMessageFields(messages);
  }

  lemma {:induction false} PiecesCommaFree(parts: seq<string>)
    requires forall i :: 0 <= i < |parts| ==> ',' !in parts[i]
    ensures CommaFree(ParseMessages(parts))
  {
    if parts != [] {
      var part := parts[|parts| - 1];
      PiecesCommaFree(parts[..|parts| - 1]);
      var words := SplitWhite(part);
      if words != [] {
        SplitWhiteKeeps(part, ',');
        SomeHasHead(words[0], words[1..], ',');
        assert [words[0]] + words[1..] == words;
        JoinKeeps(words[1..], " ", ',');
      }
    }
  }

  /** Reading gives back the messages, with white space collapsed, exactly when none of them
      holds a comma: a comma always loses part of its message. */
  lemma ReadBackExact(name: string, subject: string, messages: seq<Message>)
    requires ',' !in name && ',' !in subject && IdsFit(messages)
    ensures (Parsed(DataLine(name, subject, messages)).Ok?
             && Parsed(DataLine(name, subject, messages)).value.messages == NormalAll(messages))
       <==> CommaFree(messages)
  {
    if CommaFree(messages) {
      ParsedDataLine(name, subject, messages);
    } else {
      var i :| 0 <= i < |messages| && ',' in messages[i].text;
      NormalKeeps(messages[i].text, ',');
      assert NormalAll(messages)[i] == NormalMessage(messages[i]);
      assert !CommaFree(NormalAll(messages));
      if Parsed(DataLine(name, subject, messages)).Ok? {
        PiecesCommaFree(Split(DataLine(name, subject, messages), ',')[2..]);
      }
    }
  }

  lemma NormalAllTwice(messages: seq<Message>)
    ensures NormalAll(NormalAll(messages)) == NormalAll(messages)
    ensures CommaFree(messages) ==> CommaFree(NormalAll(messages))
    ensures IdsFit(messages) ==> IdsFit(NormalAll(messages))
  {
    forall i | 0 <= i < |messages|
      ensures NormalMessage(NormalMessage(messages[i])) == NormalMessage(messages[i])
      ensures ',' in Normal(messages[i].text) <==> ',' in messages[i].text
    {
      NormalTwice(messages[i].text);
      NormalKeeps(messages[i].text, ',');
    }
  }

  /** What was read once is written and read again without any change. */
  lemma SecondSaveIsIdentity(name: string, subject: string, messages: seq<Message>)
    requires Field(name) && Field(subject) && CommaFree(messages) && IdsFit(messages)
    ensures var p := Parsed(DataLine(name, subject, messages));
      p.Ok? && Parsed(DataLine(p.value.name, p.value.subject, p.value.messages)) == p
  {
    TrimIsIdentity(name);
    TrimIsIdentity(subject);
    ParsedDataLine(name, subject, messages);
    NormalAllTwice(messages);
    ParsedDataLine(name, subject, NormalAll(messages));
  }

  lemma ConsumerLineSplits(name: string, delivery: string, lastAck: nat)
    requires ',' !in name && ',' !in delivery && lastAck < USIZE_LIMIT
    ensures Split(ConsumerLine(name, delivery, lastAck), ',') == [name, delivery, Print(lastAck)]
  {
    ParsePrint(lastAck);
    var parts := [name, delivery, Print(lastAck)];
    assert parts[1..] == [delivery, Print(lastAck)] && parts[1..][1..] == [Print(lastAck)];
    assert name + "," + (delivery + "," + Print(lastAck)) == name + "," + delivery + "," + Print(lastAck);
    assert Join(parts[1..], ",") == delivery + "," + Print(lastAck);
    assert Join(parts, ",") == ConsumerLine(name, delivery, lastAck);
    SplitJoin(parts, ',');
  }

  /** A consumer's line gives back its name, its delivery subject and its last acknowledgement. */
  lemma ReadBackConsumer(name: string, delivery: string, lastAck: nat)
    requires Field(name) && Field(delivery) && lastAck < USIZE_LIMIT
    ensures ParseConsumersData(ConsumerLine(name, delivery, lastAck)) == Ok(ParsedConsumer(name, delivery, lastAck))
  {
    ConsumerLineSplits(name, delivery, lastAck);
    ParsePrint(lastAck);
    TrimIsIdentity(name);
    TrimIsIdentity(delivery);
    TrimIsIdentity(Print(lastAck));
  }

  lemma RelLineSplits(name: string, consumers: seq<string>)
    requires ',' !in name && forall i :: 0 <= i < |consumers| ==> ',' !in consumers[i]
    ensures Split(RelLine(name, consumers), ',') == [name] + consumers
  {
    RelLineIsJoin(name, consumers);
    SplitJoin([name] + consumers, ',');
  }
}
