/** What commas in stored texts do to a load, and which messages a consumer is never sent because of
    them. */
module CommaExact {
  import opened Wrappers
  import opened Text
  import opened JetStreamFormat
  import opened Consumers

  /** The part of a text before its first comma, and the messages that the other parts are taken for. */
  function Own(m: Message): Message {
    Message(Normal(Split(m.text, ',')[0]), m.id)
  }

  function Extras(m: Message): seq<Message> {
    ParseMessages(Split(m.text, ',')[1..])
  }

  /** The messages that are loaded for those that were stored. */
  function Loaded(ms: seq<Message>): seq<Message> {
    if ms == [] then []
    else Loaded(ms[..|ms| - 1]) + ([Own(ms[|ms| - 1])] + Extras(ms[|ms| - 1]))
  }

  lemma LoadedMore(ms: seq<Message>, m: Message)
    ensures Loaded(ms + [m]) == Loaded(ms) + ([Own(m)] + Extras(m))
  {
    assert (ms + [m])[..|ms|] == ms;
  }

  // ----- the line read again -----

  lemma {:induction false} SplitPrefix(a: string, b: string, c: char)
    requires c !in a
    ensures Split(a + b, c) == [a + Split(b, c)[0]] + Split(b, c)[1..]
  {
    if a == "" {
      assert a + b == b && a + Split(b, c)[0] == Split(b, c)[0];
      assert [Split(b, c)[0]] + Split(b, c)[1..] == Split(b, c);
    } else {
      assert (a + b)[1..] == a[1..] + b;
      SplitPrefix(a[1..], b, c);
      assert [a[0]] + (a[1..] + Split(b, c)[0]) == a + Split(b, c)[0];
    }
  }

  lemma {:induction false} ParseConcat(a: seq<string>, b: seq<string>)
    ensures ParseMessages(a + b) == ParseMessages(a) + ParseMessages(b)
    decreases |b|
  {
    if b == [] {
      assert a + b == a && ParseMessages(a) + [] == ParseMessages(a);
    } else {
      assert (a + b)[..|a + b| - 1] == a + b[..|b| - 1];
      ParseConcat(a, b[..|b| - 1]);
    }
  }

  lemma FieldLoads(m: Message)
    requires m.id < USIZE_LIMIT
    ensures ParseMessages(Split(MessageField(m), ',')) == [Own(m)] + Extras(m)
  {
    var parts, head := Split(m.text, ','), Message(Split(m.text, ',')[0], m.id);
    PrintShape(m.id);
    var prefix := Print(m.id) + " ";
    assert ',' !in prefix && MessageField(m) == prefix + m.text;
    SplitPrefix(prefix, m.text, ',');
    assert prefix + parts[0] == MessageField(head);
    ParseConcat([MessageField(head)], parts[1..]);
    ParseLastField([], head);
    assert [] + [MessageField(head)] == [MessageField(head)] && ParseMessages([]) + [NormalMessage(head)] == [Own(m)];
  }

  /** The fields of the line, cut at every comma. */
  function Fields(ms: seq<Message>): seq<string> {
    if ms == [] then [] else Fields(ms[..|ms| - 1]) + Split(MessageField(ms[|ms| - 1]), ',')
  }

  lemma {:induction false} FieldsLoad(ms: seq<Message>)
    requires IdsFit(ms)
    ensures ParseMessages(Fields(ms)) == Loaded(ms)
  {
    if ms != [] {
      FieldsLoad(ms[..|ms| - 1]);
      ParseConcat(Fields(ms[..|ms| - 1]), Split(MessageField(ms[|ms| - 1]), ','));
      FieldLoads(ms[|ms| - 1]);
    }
  }

  lemma HeadSplits(name: string, subject: string)
    requires ',' !in name && ',' !in subject
    ensures Split(DataLine(name, subject, []), ',') == [name, subject]
  {
    SplitFree(name, ',');
    SplitFree(subject, ',');
    SplitConcat(name, ',', subject);
    assert name + "," + subject == name + [','] + subject;
  }

  lemma LineOneMore(name: string, subject: string, ms: seq<Message>)
    requires ms != []
    ensures DataLine(name, subject, ms) == DataLine(name, subject, ms[..|ms| - 1]) + [','] + MessageField(ms[|ms| - 1])
  {
    var line, m := DataLine(name, subject, ms[..|ms| - 1]), ms[|ms| - 1];
    assert line + "," + Print(m.id) + " " + m.text == line + [','] + (Print(m.id) + " " + m.text);
  }

  lemma {:induction false} LineSplits(name: string, subject: string, ms: seq<Message>)
    requires ',' !in name && ',' !in subject
    ensures Split(DataLine(name, subject, ms), ',') == [name, subject] + Fields(ms)
  {
    if ms == [] {
      HeadSplits(name, subject);
      assert [name, subject] + Fields(ms) == [name, subject];
    } else {
      LineSplits(name, subject, ms[..|ms| - 1]);
      LineOneMore(name, subject, ms);
      SplitConcat(DataLine(name, subject, ms[..|ms| - 1]), ',', MessageField(ms[|ms| - 1]));
      Regroup([name, subject], Fields(ms[..|ms| - 1]), Split(MessageField(ms[|ms| - 1]), ','));
    }
  }

  lemma Regroup(a: seq<string>, b: seq<string>, c: seq<string>)
    ensures a + b + c == a + (b + c)
  {
  }

  /** Whatever the texts: each message is loaded as its part before the first comma, followed by what its other
      parts are taken for. */
  lemma LoadsExactly(name: string, subject: string, ms: seq<Message>)
    requires ',' !in name && ',' !in subject && IdsFit(ms)
    ensures Parsed(DataLine(name, subject, ms)) == Ok(ParsedStream(Trim(name), Trim(subject), Loaded(ms)))
  {
    LineSplits(name, subject, ms);
    FieldsLoad(ms);
    assert ([name, subject] + Fields(ms))[2..] == Fields(ms);
  }

  // ----- which messages are skipped -----

  /** Where message number `x` is among those loaded. */
  function Place(ms: seq<Message>, x: nat): nat
    requires x < |ms|
  {
    |Loaded(ms[..x])|
  }

  lemma {:induction false} LoadedPrefix(ms: seq<Message>, x: nat)
    requires x <= |ms|
    ensures Loaded(ms[..x]) <= Loaded(ms)
    decreases |ms| - x
  {
    if x == |ms| {
      assert ms[..x] == ms;
    } else {
      LoadedPrefix(ms, x + 1);
      assert ms[..x + 1] == ms[..x] + [ms[x]];
      LoadedMore(ms[..x], ms[x]);
    }
  }

  lemma AtPlace(queue: seq<Message>, a: seq<Message>, m: Message, b: seq<Message>)
    requires a + ([m] + b) <= queue
    ensures |a| < |queue| && queue[|a|] == m && queue[..|a|] == a
  {
    assert queue[|a|] == (a + ([m] + b))[|a|];
    assert queue[..|a|] == (a + ([m] + b))[..|a|];
  }

  lemma PlaceIs(ms: seq<Message>, x: nat)
    requires x < |ms|
    ensures Place(ms, x) < |Loaded(ms)| && Loaded(ms)[Place(ms, x)] == Own(ms[x]) && Loaded(ms)[..Place(ms, x)] == Loaded(ms[..x])
  {
    LoadedPrefix(ms, x + 1);
    assert ms[..x + 1] == ms[..x] + [ms[x]];
    LoadedMore(ms[..x], ms[x]);
    AtPlace(Loaded(ms), Loaded(ms[..x]), Own(ms[x]), Extras(ms[x]));
  }

  /** No part of the messages is taken for one with a number above `x`. */
  predicate NoneNumbersMore(ms: seq<Message>, x: nat) {
    forall i :: 0 <= i < |ms| ==> AllAtMost(Extras(ms[i]), x)
  }

  lemma AtMostConcat(a: seq<Message>, b: seq<Message>, x: nat)
    ensures AllAtMost(a + b, x) <==> AllAtMost(a, x) && AllAtMost(b, x)
  {
    if AllAtMost(a + b, x) {
      assert forall j :: 0 <= j < |a| ==> a[j] == (a + b)[j];
      assert forall j :: 0 <= j < |b| ==> b[j] == (a + b)[|a| + j];
    }
  }

  lemma NoneNumbersLast(rest: seq<Message>, m: Message, x: nat)
    ensures NoneNumbersMore(rest + [m], x) <==> NoneNumbersMore(rest, x) && AllAtMost(Extras(m), x)
  {
    var ms := rest + [m];
    if NoneNumbersMore(ms, x) {
      forall i | 0 <= i < |rest| ensures AllAtMost(Extras(rest[i]), x) {
        assert ms[i] == rest[i];
      }
      assert ms[|rest|] == m;
    }
  }

  lemma {:induction false} LoadedAtMost(ms: seq<Message>, x: nat)
    requires forall i :: 0 <= i < |ms| ==> ms[i].id <= x
    ensures AllAtMost(Loaded(ms), x) <==> NoneNumbersMore(ms, x)
  {
    if ms != [] {
      var rest, m := ms[..|ms| - 1], ms[|ms| - 1];
      assert ms == rest + [m];
      LoadedAtMost(rest, x);
      AtMostConcat(Loaded(rest), [Own(m)] + Extras(m), x);
      AtMostConcat([Own(m)], Extras(m), x);
      NoneNumbersLast(rest, m, x);
    }
  }

  lemma EarlierAtMost(ms: seq<Message>, x: nat)
    requires x < |ms| && forall i :: 0 <= i < |ms| ==> ms[i].id == i
    ensures AllAtMost(Loaded(ms[..x]), x) <==> NoneNumbersMore(ms[..x], x)
  {
    forall i | 0 <= i < |ms[..x]| ensures ms[..x][i].id <= x {
      assert ms[..x][i] == ms[i];
    }
    LoadedAtMost(ms[..x], x);
  }

  lemma SkipAt(queue: seq<Message>, lastAck: nat, k: nat, x: nat, quiet: bool)
    requires k < |queue| && queue[k].id == x && (quiet <==> AllAtMost(queue[..k], x))
    ensures Fresh(lastAck, queue[..k + 1]) == Fresh(lastAck, queue[..k]) + if lastAck <= x && quiet then [queue[k]] else []
  {
    FreshExact(lastAck, queue, k);
  }

  /** A thread that takes all that is loaded sends a message exactly if its number is not below the last
      acknowledgement, and no part of an earlier message was taken for one with a greater number. */
  lemma CommaSkipsExact(ms: seq<Message>, lastAck: nat, x: nat)
    requires x < |ms| && forall i :: 0 <= i < |ms| ==> ms[i].id == i
    ensures var queue, k := Loaded(ms), Place(ms, x);
      && k < |queue| && queue[k] == Own(ms[x])
      && Fresh(lastAck, queue[..k + 1])
         == Fresh(lastAck, queue[..k]) + if lastAck <= x && NoneNumbersMore(ms[..x], x) then [queue[k]] else []
  {
    PlaceIs(ms, x);
    EarlierAtMost(ms, x);
    SkipAt(Loaded(ms), lastAck, Place(ms, x), x, NoneNumbersMore(ms[..x], x));
  }
}
