/** The text of the commands between client and server, as one side writes it and the other reads
    it. */
module Protocol {
  import opened Wrappers
  import opened Sequences
  import opened Text

  // ----- reading -----

  /** `trim_start_matches`: the prefix is taken off as often as it is there. */
  function TrimStartMatches(s: string, prefix: string): string
    requires prefix != ""
    decreases |s|
  {
    if prefix <= s then TrimStartMatches(s[|prefix|..], prefix) else s
  }

  /** Position of the first `c`, or the length. */
  function IndexOf(s: string, c: char): (i: nat)
    ensures i <= |s| && c !in s[..i]
    ensures i < |s| ==> s[i] == c
  {
    FirstIndex(s, (x: char) => x == c)
  }

  function CommandOf(text: string): string {
    text[..IndexOf(text, ' ')]
  }

  function RestOf(text: string): string {
    var i := IndexOf(text, ' ');
    if i == |text| then "" else text[i + 1..]
  }

  /** Position of the first line end, or the length. */
  function LineEnd(s: string): (i: nat)
    ensures i <= |s|
    ensures i < |s| ==> i + 1 < |s| && s[i] == '\r' && s[i + 1] == '\n'
    ensures forall j :: 0 <= j < i && j + 1 < |s| ==> !(s[j] == '\r' && s[j + 1] == '\n')
  {
    if |s| < 2 then |s|
    else if s[0] == '\r' && s[1] == '\n' then 0
    else 1 + LineEnd(s[1..])
  }

  predicate OneLine(s: string) {
    LineEnd(s) == |s|
  }

  function FirstLine(s: string): string {
    s[..LineEnd(s)]
  }

  function AfterLine(s: string): string {
    if LineEnd(s) == |s| then "" else s[LineEnd(s) + 2..]
  }

  datatype PubHeader = PubHeader(subject: string, bytes: string, replyTo: Option<string>)

  /** The server's `parse_msg`. */
  function ParsePub(operation: string): Option<PubHeader> {
    var words := Split(FirstLine(operation), ' ');
    if |words| == 2 then Some(PubHeader(words[0], words[1], None))
    else if |words| == 3 then Some(PubHeader(words[0], words[2], Some(words[1])))
    else None
  }

  function PayloadOf(operation: string, bytes: string): string {
    if bytes == "0" then "" else FirstLine(AfterLine(operation))
  }

  datatype MsgHeader = MsgHeader(subject: string, size: nat, replyTo: Option<string>)

  datatype Error = MalformedMessage | ParserError

  function TrimEach(words: seq<string>): seq<string> {
    seq(|words|, i requires 0 <= i < |words| => Trim(words[i]))
  }

  /** The client's `parse_msg`. */
  function ParseMsg(text: string): Result<MsgHeader, Error> {
    var words := TrimEach(Split(text, ' '));
    if |words| < 4 then Err(MalformedMessage)
    else
      match ParseUsize(if |words| == 4 then words[3] else words[4])
      case None => Err(MalformedMessage)
      case Some(size) => Ok(MsgHeader(words[1], size, if |words| == 4 then None else Some(words[3])))
  }

  datatype AckCommand = AckCommand(stream: string, consumer: string, id: nat)

  /** `parse_ack_cmd`, of what follows `$JS.ACK.` in the command. */
  function ParseAck(op: string): Result<AckCommand, Error> {
    var parts := Split(TrimStartMatches(op, "$JS.ACK."), '.');
    if |parts| < 3 then Err(ParserError)
    else
      match ParseUsize(parts[2])
      case None => Err(ParserError)
      case Some(id) => Ok(AckCommand(parts[0], parts[1], id))
  }

  // ----- writing -----

  function Spaced(words: seq<string>): string {
    Join(words, " ")
  }

  /** The client's `publish`; `bytes` is the length of the encrypted payload. */
  function PubText(subject: string, payload: string, replyTo: Option<string>, bytes: nat): string {
    "PUB " + (subject + " " + (if replyTo.Some? then replyTo.value + " " else "") + Print(bytes)) + "\r\n" + payload + "\r\n"
  }

  /** The first line that the server writes to a subscriber. */
  function MsgText(subject: string, sid: string, replyTo: Option<string>, bytes: string): string {
    "MSG " + subject + " " + sid + " " + (if replyTo.Some? then replyTo.value + " " else "") + bytes
  }

  /** `to_command`, without the line end. */
  function AckText(stream: string, consumer: string, id: string): string {
    "$JS.ACK." + stream + "." + consumer + "." + id
  }

  // ----- round trips -----

  predicate Word(s: string) {
    ' ' !in s && '\r' !in s && Trimmed(s)
  }

  function PubWords(subject: string, replyTo: Option<string>, bytes: nat): seq<string> {
    if replyTo.Some? then [subject, replyTo.value, Print(bytes)] else [subject, Print(bytes)]
  }

  lemma JoinTwo(a: string, b: string)
    ensures Spaced([a, b]) == a + " " + b
  {
    assert [a, b][1..] == [b] && Join([b], " ") == b;
  }

  lemma JoinFirst(a: string, rest: seq<string>)
    requires rest != []
    ensures Spaced([a] + rest) == a + " " + Spaced(rest)
  {
    assert ([a] + rest)[1..] == rest;
  }

  lemma PubLineIsJoin(subject: string, replyTo: Option<string>, bytes: nat)
    ensures subject + " " + (if replyTo.Some? then replyTo.value + " " else "") + Print(bytes) == Spaced(PubWords(subject, replyTo, bytes))
  {
    var p := Print(bytes);
    if replyTo.Some? {
      JoinTwo(replyTo.value, p);
      JoinFirst(subject, [replyTo.value, p]);
      assert [subject] + [replyTo.value, p] == PubWords(subject, replyTo, bytes);
      assert subject + " " + (replyTo.value + " ") + p == subject + " " + (replyTo.value + " " + p);
    } else {
      JoinTwo(subject, p);
      assert subject + " " + "" + p == subject + " " + p;
    }
  }

  lemma LineEndOf(line: string, rest: string)
    requires OneLine(line)
    ensures FirstLine(line + "\r\n" + rest) == line && AfterLine(line + "\r\n" + rest) == rest
  {
    var s := line + "\r\n" + rest;
    assert s[|line|] == '\r' && s[|line| + 1] == '\n';
    assert forall j :: 0 <= j < |line| ==> s[j] == line[j];
    assert LineEnd(s) == |line|;
  }

  lemma IndexAfter(a: string, c: char, b: string)
    requires c !in a
    ensures IndexOf(a + [c] + b, c) == |a|
  {
    assert (a + [c] + b)[|a|] == c;
    assert forall j :: 0 <= j < |a| ==> (a + [c] + b)[j] == a[j];
  }

  lemma RestOfCommand(command: string, rest: string)
    requires ' ' !in command
    ensures CommandOf(command + " " + rest) == command && RestOf(command + " " + rest) == rest
  {
    IndexAfter(command, ' ', rest);
  }

  lemma {:induction false} NoReturnOneLine(s: string)
    requires '\r' !in s
    ensures OneLine(s)
  {
    if |s| >= 2 {
      NoReturnOneLine(s[1..]);
    }
  }

  lemma PubLineReads(subject: string, replyTo: Option<string>, bytes: nat)
    requires Word(subject) && (replyTo.Some? ==> Word(replyTo.value))
    ensures var line := Spaced(PubWords(subject, replyTo, bytes));
      OneLine(line) && Split(line, ' ') == PubWords(subject, replyTo, bytes)
  {
    var words := PubWords(subject, replyTo, bytes);
    PrintShape(bytes);
    forall i | 0 <= i < |words| ensures ' ' !in words[i] && '\r' !in words[i] {
    }
    SplitJoin(words, ' ');
    JoinKeeps(words, " ", '\r');
    NoReturnOneLine(Spaced(words));
  }

  /** The server reads the header that the client wrote, and exactly the payloads without a line end
      reach it whole; under a length of 0 it looks at none. */
  lemma PubRoundTripExact(subject: string, payload: string, replyTo: Option<string>, bytes: nat)
    requires Word(subject) && (replyTo.Some? ==> Word(replyTo.value))
    ensures var text := PubText(subject, payload, replyTo, bytes);
      && CommandOf(text) == "PUB"
      && ParsePub(RestOf(text)) == Some(PubHeader(subject, Print(bytes), replyTo))
      && (bytes == 0 ==> PayloadOf(RestOf(text), Print(bytes)) == "")
      && (bytes > 0 ==> (PayloadOf(RestOf(text), Print(bytes)) == payload <==> OneLine(payload)))
  {
    var line := Spaced(PubWords(subject, replyTo, bytes));
    var rest := line + "\r\n" + (payload + "\r\n");
    PubLineIsJoin(subject, replyTo, bytes);
    assert PubText(subject, payload, replyTo, bytes) == "PUB" + " " + rest;
    RestOfCommand("PUB", rest);
    PubLineReads(subject, replyTo, bytes);
    LineEndOf(line, payload + "\r\n");
    PrintIsZero(bytes);
    if OneLine(payload) {
      LineEndOf(payload, "");
      assert payload + "\r\n" + "" == payload + "\r\n";
    } else {
      FirstLineShorter(payload, "\r\n");
    }
  }

  lemma PrintIsZero(n: nat)
    ensures Print(n) == "0" <==> n == 0
  {
    PrintShape(n);
    PrintShape(0);
    assert Value("0") == 0;
  }

  lemma FirstLineShorter(s: string, t: string)
    requires !OneLine(s)
    ensures |FirstLine(s + t)| < |s|
  {
    var i := LineEnd(s);
    assert (s + t)[i] == '\r' && (s + t)[i + 1] == '\n';
  }

  function MsgWords(subject: string, sid: string, replyTo: Option<string>, bytes: string): seq<string> {
    ["MSG", subject, sid] + (if replyTo.Some? then [replyTo.value] else []) + [bytes]
  }

  function MsgTail(replyTo: Option<string>, bytes: string): seq<string> {
    if replyTo.Some? then [replyTo.value, bytes] else [bytes]
  }

  lemma MsgTailIsJoin(replyTo: Option<string>, bytes: string)
    ensures Spaced(MsgTail(replyTo, bytes)) == (if replyTo.Some? then replyTo.value + " " else "") + bytes
  {
    if replyTo.Some? {
      JoinTwo(replyTo.value, bytes);
    } else {
      assert "" + bytes == bytes;
    }
  }

  lemma MsgTextIsJoin(subject: string, sid: string, replyTo: Option<string>, bytes: string)
    ensures MsgText(subject, sid, replyTo, bytes) == Spaced(MsgWords(subject, sid, replyTo, bytes))
  {
    var tail := MsgTail(replyTo, bytes);
    MsgTailIsJoin(replyTo, bytes);
    JoinFirst(sid, tail);
    JoinFirst(subject, [sid] + tail);
    JoinFirst("MSG", [subject] + ([sid] + tail));
    assert ["MSG"] + ([subject] + ([sid] + tail)) == MsgWords(subject, sid, replyTo, bytes);
    var r, l := if replyTo.Some? then replyTo.value + " " else "", Spaced(tail);
    assert "MSG " + subject + " " + sid + " " + r + bytes == "MSG" + " " + (subject + " " + (sid + " " + (r + bytes)));
  }

  predicate SpaceFree(words: seq<string>) {
    forall i :: 0 <= i < |words| ==> ' ' !in words[i] && Trimmed(words[i])
  }

  lemma SplitSpaced(words: seq<string>)
    requires words != [] && SpaceFree(words)
    ensures TrimEach(Split(Spaced(words), ' ')) == words
  {
    SplitJoin(words, ' ');
    forall i | 0 <= i < |words| ensures Trim(words[i]) == words[i] {
      TrimIsIdentity(words[i]);
    }
  }

  lemma DigitsAreWord(n: nat)
    ensures Word(Print(n))
  {
    PrintShape(n);
  }

  lemma MsgWordsFree(subject: string, sid: string, replyTo: Option<string>, bytes: string)
    requires Word(subject) && Word(sid) && (replyTo.Some? ==> Word(replyTo.value)) && Word(bytes)
    ensures SpaceFree(MsgWords(subject, sid, replyTo, bytes))
  {
  }

  /** The client reads the header that the server wrote. */
  lemma MsgRoundTrip(subject: string, sid: string, replyTo: Option<string>, bytes: nat)
    requires Word(subject) && Word(sid) && (replyTo.Some? ==> Word(replyTo.value)) && bytes < USIZE_LIMIT
    ensures ParseMsg(MsgText(subject, sid, replyTo, Print(bytes))) == Ok(MsgHeader(subject, bytes, replyTo))
  {
    ParsePrint(bytes);
    DigitsAreWord(bytes);
    MsgTextIsJoin(subject, sid, replyTo, Print(bytes));
    MsgWordsFree(subject, sid, replyTo, Print(bytes));
    SplitSpaced(MsgWords(subject, sid, replyTo, Print(bytes)));
  }

  // ----- acknowledgements -----

  lemma AckTail(stream: string, consumer: string, id: string)
    requires '.' !in id
    ensures Split(stream + "." + consumer + "." + id, '.') == Split(stream, '.') + Split(consumer, '.') + [id]
  {
    var t := stream + "." + consumer;
    assert t + "." + id == t + ['.'] + id && t == stream + ['.'] + consumer;
    SplitConcat(t, '.', id);
    SplitConcat(stream, '.', consumer);
    SplitFree(id, '.');
  }

  lemma ThreeParts(stream: string, consumer: string, id: string)
    requires '.' !in stream && '.' !in consumer && '.' !in id
    ensures Split(stream + "." + consumer + "." + id, '.') == [stream, consumer, id]
  {
    AckTail(stream, consumer, id);
    SplitFree(stream, '.');
    SplitFree(consumer, '.');
  }

  /** What comes after the prefix begins with it again for one stream and one consumer only. */
  lemma PrefixAgain(stream: string, consumer: string, id: string)
    requires '.' !in stream && '.' !in consumer && '.' !in id
    requires "$JS.ACK." <= stream + "." + consumer + "." + id
    ensures stream == "$JS" && consumer == "ACK"
  {
    var s := stream + "." + consumer + "." + id;
    var rest := s[8..];
    assert s == "$JS.ACK." + rest;
    assert "$JS.ACK." + rest == "$JS" + "." + "ACK" + "." + rest;
    ThreeParts(stream, consumer, id);
    PrefixParts(rest);
    var parts := Split(s, '.');
    assert parts == [stream, consumer, id];
    assert parts == ["$JS", "ACK"] + Split(rest, '.');
    assert parts[0] == "$JS" && parts[1] == "ACK";
  }

  lemma PrefixParts(rest: string)
    ensures Split("$JS" + "." + "ACK" + "." + rest, '.') == ["$JS", "ACK"] + Split(rest, '.')
  {
    var t := "$JS" + "." + "ACK";
    assert t + "." + rest == t + ['.'] + rest && t == "$JS" + ['.'] + "ACK";
    SplitConcat(t, '.', rest);
    SplitConcat("$JS", '.', "ACK");
    SplitFree("$JS", '.');
    SplitFree("ACK", '.');
  }

  // ----- what the server makes of the text -----

  /** The command of a text that the client writes with a line end: the reader stops at the first
      line end, and the executor cuts what it read at the first blank. */
  function CommandRead(text: string): string {
    CommandOf(FirstLine(text + "\r\n"))
  }

  lemma OneLineIff(s: string)
    ensures OneLine(s) <==> forall j :: 0 <= j < |s| - 1 ==> !(s[j] == '\r' && s[j + 1] == '\n')
  {
  }

  lemma OneLineConcat(a: string, b: string)
    requires OneLine(a) && OneLine(b) && !(a != "" && b != "" && a[|a| - 1] == '\r' && b[0] == '\n')
    ensures OneLine(a + b)
  {
    OneLineIff(a);
    OneLineIff(b);
    OneLineIff(a + b);
  }

  lemma OneLinePart(s: string, from: nat, to: nat)
    requires OneLine(s) && from <= to <= |s|
    ensures OneLine(s[from..to])
  {
    OneLineIff(s);
    var part := s[from..to];
    forall j | 0 <= j < |part| - 1 ensures !(part[j] == '\r' && part[j + 1] == '\n') {
      assert part[j] == s[from + j] && part[j + 1] == s[from + j + 1];
    }
    OneLineIff(part);
  }

  /** A piece of a text is a stretch of it. */
  lemma {:induction false} PieceFrom(s: string, c: char, i: nat) returns (from: nat)
    requires i < |Split(s, c)|
    ensures from + |Split(s, c)[i]| <= |s| && s[from..from + |Split(s, c)[i]|] == Split(s, c)[i]
    ensures i == 0 ==> from == 0
  {
    if s == "" || (s[0] == c && i == 0) {
      from := 0;
    } else if s[0] == c {
      from := PieceFrom(s[1..], c, i - 1);
      from := from + 1;
    } else {
      from := PieceFrom(s[1..], c, i);
      var r := Split(s[1..], c);
      if i == 0 {
        assert s[..1 + |r[0]|] == [s[0]] + s[1..][..|r[0]|];
      } else {
        from := from + 1;
      }
    }
  }

  /** A text that is neither cut at a blank nor at a line end. */
  predicate NoCut(s: string) {
    ' ' !in s && OneLine(s)
  }

  lemma PieceNoCut(s: string, c: char, i: nat)
    requires NoCut(s) && i < |Split(s, c)|
    ensures NoCut(Split(s, c)[i])
  {
    var from := PieceFrom(s, c, i);
    OneLinePart(s, from, from + |Split(s, c)[i]|);
  }

  lemma {:induction false} TrimmedTail(s: string, prefix: string)
    requires prefix != ""
    ensures |TrimStartMatches(s, prefix)| <= |s|
    ensures TrimStartMatches(s, prefix) == s[|s| - |TrimStartMatches(s, prefix)|..]
    decreases |s|
  {
    if prefix <= s {
      TrimmedTail(s[|prefix|..], prefix);
    }
  }

  lemma TrimmedNoCut(s: string, prefix: string)
    requires NoCut(s) && prefix != ""
    ensures NoCut(TrimStartMatches(s, prefix))
  {
    TrimmedTail(s, prefix);
    OneLinePart(s, |s| - |TrimStartMatches(s, prefix)|, |s|);
  }

  lemma CommandNoCut(text: string)
    ensures NoCut(CommandRead(text))
  {
    var s := text + "\r\n";
    OneLineIff(FirstLine(s));
    OneLinePart(FirstLine(s), 0, IndexOf(FirstLine(s), ' '));
  }

  lemma WholeRead(text: string)
    requires NoCut(text)
    ensures CommandRead(text) == text
  {
    LineEndOf(text, "");
    assert text + "\r\n" + "" == text + "\r\n";
    assert IndexOf(text, ' ') == |text|;
  }

  /** A name that the command carries whole. */
  predicate CommandPart(s: string) {
    NoCut(s) && '.' !in s
  }

  lemma NoCutDot(a: string, b: string)
    requires NoCut(a) && NoCut(b)
    ensures NoCut(a + "." + b)
  {
    OneLineConcat(a, ".");
    OneLineConcat(a + ".", b);
  }

  lemma AckTextNoCut(stream: string, consumer: string, id: nat)
    requires NoCut(stream) && NoCut(consumer)
    ensures NoCut(AckText(stream, consumer, Print(id)))
  {
    PrintShape(id);
    NoReturnOneLine(Print(id));
    NoCutDot("$JS.ACK", stream);
    NoCutDot("$JS.ACK" + "." + stream, consumer);
    NoCutDot("$JS.ACK" + "." + stream + "." + consumer, Print(id));
    assert "$JS.ACK" + "." == "$JS.ACK.";
  }

  /** Names without dots: only the pair that spells the prefix again is misread. */
  lemma AckTailReads(stream: string, consumer: string, id: nat)
    requires id < USIZE_LIMIT && '.' !in stream && '.' !in consumer
    ensures ParseAck(AckText(stream, consumer, Print(id))) == Ok(AckCommand(stream, consumer, id))
       <==> !(stream == "$JS" && consumer == "ACK")
  {
    var tail := stream + "." + consumer + "." + Print(id);
    ParsePrint(id);
    PrintShape(id);
    assert AckText(stream, consumer, Print(id)) == "$JS.ACK." + tail;
    assert ("$JS.ACK." + tail)[8..] == tail;
    assert TrimStartMatches("$JS.ACK." + tail, "$JS.ACK.") == TrimStartMatches(tail, "$JS.ACK.");
    ThreeParts(stream, consumer, Print(id));
    if stream == "$JS" && consumer == "ACK" {
      OnlyTheId(id);
    } else if "$JS.ACK." <= tail {
      PrefixAgain(stream, consumer, Print(id));
      assert false;
    }
  }

  /** What is read as names carries no blank, no line end and no dot. */
  lemma ReadNamesArePlain(text: string)
    ensures var r := ParseAck(CommandRead(text));
      r.Ok? ==> CommandPart(r.value.stream) && CommandPart(r.value.consumer)
  {
    CommandNoCut(text);
    var s := TrimStartMatches(CommandRead(text), "$JS.ACK.");
    TrimmedNoCut(CommandRead(text), "$JS.ACK.");
    if |Split(s, '.')| >= 3 {
      PieceNoCut(s, '.', 0);
      PieceNoCut(s, '.', 1);
    }
  }

  /** The acknowledgement that the client sends is read as it was meant exactly when the names of the
      stream and of the consumer have no dot, no blank and no line end, and do not spell the prefix
      of the command again. */
  lemma AckRoundTripExact(stream: string, consumer: string, id: nat)
    requires id < USIZE_LIMIT
    ensures ParseAck(CommandRead(AckText(stream, consumer, Print(id)))) == Ok(AckCommand(stream, consumer, id))
       <==> CommandPart(stream) && CommandPart(consumer) && !(stream == "$JS" && consumer == "ACK")
  {
    var text := AckText(stream, consumer, Print(id));
    ReadNamesArePlain(text);
    if CommandPart(stream) && CommandPart(consumer) {
      AckTextNoCut(stream, consumer, id);
      WholeRead(text);
      AckTailReads(stream, consumer, id);
    }
  }

  /** A consumer whose name holds a blank: its acknowledgements are not understood. */
  lemma BlankInName()
    ensures ParseAck(CommandRead(AckText("s", "my c", Print(3)))) != Ok(AckCommand("s", "my c", 3))
  {
    AckRoundTripExact("s", "my c", 3);
    assert "my c"[2] == ' ';
  }

  lemma OnlyTheId(id: nat)
    ensures TrimStartMatches("$JS" + "." + "ACK" + "." + Print(id), "$JS.ACK.") == Print(id)
    ensures Split(Print(id), '.') == [Print(id)]
  {
    PrintShape(id);
    var s := "$JS" + "." + "ACK" + "." + Print(id);
    assert s == "$JS.ACK." + Print(id) && s[8..] == Print(id);
    assert Print(id)[0] != '$';
    SplitFree(Print(id), '.');
  }
}
