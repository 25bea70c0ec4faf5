/** When creating a consumer breaks the match between the files and the streams in memory. */
module JetStreamRecreate {
  import opened Text
  import opened JetStreamFormat
  import opened JetStreams
  import opened JetStreamLoad
  import opened JetStreamRuns

  // ----- loading gives a consumer name to one stream only -----

  ghost predicate NoneShared(a: seq<Consumer>, b: seq<Consumer>) {
    forall i, j :: 0 <= i < |a| && 0 <= j < |b| ==> a[i].name != b[j].name
  }

  ghost predicate Within(cs: seq<Consumer>, all: seq<Consumer>) {
    forall i :: 0 <= i < |cs| ==> cs[i] in all
  }

  ghost predicate Apart(owners: map<string, seq<Consumer>>) {
    forall a, b :: a in owners && b in owners && a != b ==> NoneShared(owners[a], owners[b])
  }

  /** Owners apart from one another and from those who are left, all taken from `all`. */
  ghost predicate Dealt(owners: map<string, seq<Consumer>>, left: seq<Consumer>, all: seq<Consumer>) {
    && Apart(owners) && Within(left, all)
    && forall a :: a in owners ==> NoneShared(owners[a], left) && Within(owners[a], all)
  }

  ghost predicate ByName(cs: seq<Consumer>, names: seq<string>, yes: bool) {
    forall i :: 0 <= i < |cs| ==> (cs[i].name in names) == yes
  }

  lemma {:induction false} ListedShape(cs: seq<Consumer>, names: seq<string>, yes: bool)
    ensures Within(Listed(cs, names, yes), cs) && ByName(Listed(cs, names, yes), names, yes)
  {
    if cs != [] {
      ListedShape(cs[1..], names, yes);
      var rest := Listed(cs[1..], names, yes);
      forall i | 0 <= i < |rest| ensures rest[i] in cs {
        var k :| 0 <= k < |cs[1..]| && cs[1..][k] == rest[i];
        assert cs[k + 1] == rest[i];
      }
    }
  }

  lemma WithinTwice(a: seq<Consumer>, b: seq<Consumer>, c: seq<Consumer>)
    requires Within(a, b) && Within(b, c)
    ensures Within(a, c)
  {
    forall i | 0 <= i < |a| ensures a[i] in c {
      var k :| 0 <= k < |b| && b[k] == a[i];
    }
  }

  lemma ByNameApart(a: seq<Consumer>, b: seq<Consumer>, names: seq<string>)
    requires ByName(a, names, true) && ByName(b, names, false)
    ensures NoneShared(a, b)
  {
    forall i, j | 0 <= i < |a| && 0 <= j < |b| ensures a[i].name != b[j].name {
      assert (a[i].name in names) && !(b[j].name in names);
    }
  }

  lemma DealOne(owners: map<string, seq<Consumer>>, left: seq<Consumer>, all: seq<Consumer>, key: string, names: seq<string>)
    requires Dealt(owners, left, all)
    ensures Dealt(owners[key := Listed(left, names, true)], Listed(left, names, false), all)
  {
    var own, rest := Listed(left, names, true), Listed(left, names, false);
    ListedShape(left, names, true);
    ListedShape(left, names, false);
    WithinTwice(own, left, all);
    WithinTwice(rest, left, all);
    ByNameApart(own, rest, names);
    forall a | a in owners ensures NoneShared(owners[a], own) && NoneShared(own, owners[a]) && NoneShared(owners[a], rest) {
      SharedSubset(owners[a], left, own);
      SharedSubset(owners[a], left, rest);
    }
  }

  lemma SharedSubset(a: seq<Consumer>, b: seq<Consumer>, c: seq<Consumer>)
    requires NoneShared(a, b) && Within(c, b)
    ensures NoneShared(a, c)
  {
    forall i, j | 0 <= i < |a| && 0 <= j < |c| ensures a[i].name != c[j].name {
      var k :| 0 <= k < |b| && b[k] == c[j];
    }
  }

  lemma {:induction false} AssignDealt(rel: seq<string>, cs: seq<Consumer>, acc: map<string, seq<Consumer>>, all: seq<Consumer>)
    requires Dealt(acc, cs, all)
    ensures Apart(Assign(rel, cs, acc))
    ensures forall a :: a in Assign(rel, cs, acc) ==> Within(Assign(rel, cs, acc)[a], all)
    decreases rel
  {
    if rel != [] {
      var parts := Split(rel[0], ',');
      var names := TrimAll(parts[1..]);
      DealOne(acc, cs, all, Trim(parts[0]), names);
      AssignDealt(rel[1..], Listed(cs, names, false), acc[Trim(parts[0]) := Listed(cs, names, true)], all);
    }
  }

  /** Streams of different names, each with the consumers of its owner. */
  ghost predicate Owned(l: seq<Stream>, owners: map<string, seq<Consumer>>) {
    && (forall i :: 0 <= i < |l| ==> l[i].name in owners && Bare(l[i].consumers) == Bare(owners[l[i].name]))
    && DistinctStreams(l)
  }

  lemma OwnedOneMore(s: Stream, rest: seq<Stream>, owners: map<string, seq<Consumer>>)
    requires s.name in owners && Bare(s.consumers) == Bare(owners[s.name]) && Owned(rest, owners - {s.name})
    ensures Owned([s] + rest, owners)
  {
  }

  lemma SendAllBare(cs: seq<Consumer>, messages: seq<Message>)
    ensures Bare(SendAll(cs, messages)) == Bare(cs)
  {
  }

  lemma {:induction false} LoadedOwners(data: seq<string>, owners: map<string, seq<Consumer>>)
    ensures Owned(LoadStreams(data, owners), owners)
    decreases data
  {
    if data != [] {
      var p := Parsed(data[0]);
      if p.Ok? && p.value.name in owners {
        var rest := owners - {p.value.name};
        LoadedOwners(data[1..], rest);
        var s := Stream(p.value.name, [p.value.subject], p.value.messages, NextId(p.value.messages),
                        SendAll(owners[p.value.name], p.value.messages));
        SendAllBare(owners[p.value.name], p.value.messages);
        OwnedOneMore(s, LoadStreams(data[1..], rest), owners);
      } else {
        LoadedOwners(data[1..], owners);
      }
    }
  }

  lemma SharedBare(a: seq<Consumer>, b: seq<Consumer>, a': seq<Consumer>, b': seq<Consumer>)
    requires NoneShared(a, b) && Bare(a) == Bare(a') && Bare(b) == Bare(b')
    ensures NoneShared(a', b')
  {
    forall i, j | 0 <= i < |a'| && 0 <= j < |b'| ensures a'[i].name != b'[j].name {
      assert Bare(a)[i].name == Bare(a')[i].name && Bare(b)[j].name == Bare(b')[j].name;
    }
  }

  /** Whatever the files hold: no consumer name is in two loaded streams. */
  lemma OneStreamEach(f: Files, i: nat, j: nat)
    requires i < j < |Load(f)|
    ensures NoneShared(Load(f)[i].consumers, Load(f)[j].consumers)
  {
    var all := LoadConsumers(f.consumers);
    var owners := Assign(f.rel, all, map[]);
    AssignDealt(f.rel, all, map[], all);
    LoadedOwners(f.data, owners);
    var a, b := Load(f)[i], Load(f)[j];
    SharedBare(owners[a.name], owners[b.name], a.consumers, b.consumers);
  }

  // ----- creating a consumer again -----

  predicate SameAgain(reg: seq<Registered>, stream: string, name: string, delivery: string) {
    exists k :: 0 <= k < |reg| && reg[k] == Registered(stream, Consumer(name, delivery, 0, []))
  }

  /** The consumer at a place agrees with what is written of it once the command is carried out. */
  predicate StillAgrees(v: Server, reg: seq<Registered>, c: Command, i: nat, m: nat)
    requires c.CreateConsumer? && i < |v.streams| && m < |v.streams[i].consumers|
  {
    if CreatesAgain(c, v.streams[i], m) then v.streams[i].consumers[m].(queue := []) == Consumer(c.name, c.delivery, 0, [])
    else AgreesAt(v, reg, i, m)
  }

  predicate AllStillAgree(v: Server, reg: seq<Registered>, c: Command)
    requires c.CreateConsumer?
  {
    forall i, m :: 0 <= i < |v.streams| && 0 <= m < |v.streams[i].consumers| ==> StillAgrees(v, reg, c, i, m)
  }

  lemma PlacesAfter(v: Server, reg: seq<Registered>, c: Command, i: nat)
    requires Saved(v, reg) && Acceptable(v, reg, c) && c.CreateConsumer? && Position(v.streams, c.stream) < |v.streams|
    requires i < |v.streams|
    ensures |Step(v, c).streams| == |v.streams|
    ensures AgreesIn(Step(v, c), Register(v, reg, c), i)
      <==> forall m :: 0 <= m < |v.streams[i].consumers| ==> StillAgrees(v, reg, c, i, m)
  {
    var v', reg' := Step(v, c), Register(v, reg, c);
    forall m | 0 <= m < |v.streams[i].consumers| ensures AgreesAt(v', reg', i, m) <==> StillAgrees(v, reg, c, i, m) {
      AgreesAfter(v, reg, c, i, m);
    }
    forall m | |v.streams[i].consumers| <= m < |v'.streams[i].consumers| ensures AgreesAt(v', reg', i, m) {
      PlaceBefore(v, c, i, m);
      TakenIsKnown(v, reg, c.stream, c.name);
      NewcomerAgrees(v, reg, c, i);
    }
    assert |v.streams[i].consumers| <= |v'.streams[i].consumers|;
  }

  lemma AgreesAfterCreating(v: Server, reg: seq<Registered>, c: Command)
    requires Saved(v, reg) && Acceptable(v, reg, c) && c.CreateConsumer? && Position(v.streams, c.stream) < |v.streams|
    ensures Agrees(Step(v, c), Register(v, reg, c)) <==> AllStillAgree(v, reg, c)
  {
    StepKeeps(v, reg, c);
    AgreesEverywhere(Step(v, c), Register(v, reg, c));
    assert |Step(v, c).streams| == |v.streams|;
    forall i | 0 <= i < |v.streams|
      ensures AgreesIn(Step(v, c), Register(v, reg, c), i)
        <==> forall m :: 0 <= m < |v.streams[i].consumers| ==> StillAgrees(v, reg, c, i, m)
    {
      PlacesAfter(v, reg, c, i);
    }
  }

  /** The place of a consumer of the registry. */
  lemma {:induction false} OfPlace(reg: seq<Registered>, k: nat) returns (m: nat)
    requires k < |reg|
    ensures m < |Of(reg, reg[k].stream)| && Of(reg, reg[k].stream)[m] == reg[k].consumer
  {
    if k == 0 {
      m := 0;
    } else {
      m := OfPlace(reg[1..], k - 1);
      if reg[0].stream == reg[k].stream {
        m := m + 1;
      }
    }
  }

  lemma {:induction false} OfFrom(reg: seq<Registered>, stream: string, m: nat) returns (k: nat)
    requires m < |Of(reg, stream)|
    ensures k < |reg| && reg[k] == Registered(stream, Of(reg, stream)[m])
  {
    if reg[0].stream == stream && m == 0 {
      k := 0;
    } else {
      k := OfFrom(reg[1..], stream, if reg[0].stream == stream then m - 1 else m);
      k := k + 1;
    }
  }

  /** From a state in which memory and files agree, they still do exactly if the name is new or the
      consumer is as it was first created. */
  lemma AgreeingCreation(v: Server, reg: seq<Registered>, c: Command)
    requires Saved(v, reg) && Agrees(v, reg) && c.CreateConsumer? && OnlyHere(reg, c.stream, c.name)
    requires Position(v.streams, c.stream) < |v.streams|
    ensures AllStillAgree(v, reg, c) <==> !Taken(reg, c.name) || SameAgain(reg, c.stream, c.name, c.delivery)
  {
    if AllStillAgree(v, reg, c) && Taken(reg, c.name) {
      CreatedAsNew(v, reg, c);
    }
    if !Taken(reg, c.name) || SameAgain(reg, c.stream, c.name, c.delivery) {
      forall i, m | 0 <= i < |v.streams| && 0 <= m < |v.streams[i].consumers| ensures StillAgrees(v, reg, c, i, m) {
        AsNewAgrees(v, reg, c, i, m);
      }
    }
  }

  lemma MemoryIsWritten(v: Server, reg: seq<Registered>, i: nat, m: nat)
    requires Saved(v, reg) && Agrees(v, reg) && i < |v.streams| && m < |v.streams[i].consumers|
    ensures AgreesAt(v, reg, i, m)
  {
    AgreesEverywhere(v, reg);
    assert AgreesIn(v, reg, i);
  }

  lemma CreatedAsNew(v: Server, reg: seq<Registered>, c: Command)
    requires Saved(v, reg) && Agrees(v, reg) && c.CreateConsumer? && OnlyHere(reg, c.stream, c.name)
    requires Position(v.streams, c.stream) < |v.streams| && Taken(reg, c.name) && AllStillAgree(v, reg, c)
    ensures SameAgain(reg, c.stream, c.name, c.delivery)
  {
    var i := Position(v.streams, c.stream);
    var k :| 0 <= k < |reg| && reg[k].consumer.name == c.name;
    var m := OfPlace(reg, k);
    SameNumber(v, reg, i);
    MemoryIsWritten(v, reg, i, m);
    assert StillAgrees(v, reg, c, i, m);
    assert reg[k] == Registered(c.stream, Consumer(c.name, c.delivery, 0, []));
  }

  lemma AsNewAgrees(v: Server, reg: seq<Registered>, c: Command, i: nat, m: nat)
    requires Saved(v, reg) && Agrees(v, reg) && c.CreateConsumer? && i < |v.streams| && m < |v.streams[i].consumers|
    requires !Taken(reg, c.name) || SameAgain(reg, c.stream, c.name, c.delivery)
    ensures StillAgrees(v, reg, c, i, m)
  {
    MemoryIsWritten(v, reg, i, m);
    SameNumber(v, reg, i);
    var n := OfFrom(reg, v.streams[i].name, m);
    if SameAgain(reg, c.stream, c.name, c.delivery) {
      var k :| 0 <= k < |reg| && reg[k] == Registered(c.stream, Consumer(c.name, c.delivery, 0, []));
      assert reg[n].consumer.name == c.name ==> n == k;
    }
  }

  /** Streams that share a consumer name are not what any files hold. */
  lemma SharedNotLoaded(f: Files, streams: seq<Stream>, i: nat, a: nat, j: nat, b: nat)
    requires i < j < |streams| && a < |streams[i].consumers| && b < |streams[j].consumers|
    requires streams[i].consumers[a].name == streams[j].consumers[b].name
    ensures Load(f) != RestoreAll(streams)
  {
    assert RestoreAll(streams)[i].consumers[a].name == RestoreAll(streams)[j].consumers[b].name;
    if Load(f) == RestoreAll(streams) {
      OneStreamEach(f, i, j);
    }
  }

  lemma JoinedElsewhere(v: Server, reg: seq<Registered>, k: nat, i: nat, delivery: string)
    requires Saved(v, reg) && k < |reg| && i < |v.streams| && reg[k].stream != v.streams[i].name
    ensures var name := reg[k].consumer.name;
      var s := v.streams[i];
      Joined(v, s.name, name, delivery).streams == v.streams[i := s.(consumers := s.consumers + [Consumer(name, delivery, 0, [])])]
  {
    PositionIs(v.streams, i);
    KnowsIffRegistered(v, reg, i, reg[k].consumer.name);
    OneOwner(reg, reg[k].stream, v.streams[i].name, reg[k].consumer.name);
  }

  /** The stream of a registered consumer and its place there. */
  lemma OwnerPlace(v: Server, reg: seq<Registered>, k: nat) returns (j: nat, b: nat)
    requires Saved(v, reg) && k < |reg|
    ensures j < |v.streams| && v.streams[j].name == reg[k].stream
    ensures b < |v.streams[j].consumers| && v.streams[j].consumers[b].name == reg[k].consumer.name
  {
    j := Position(v.streams, reg[k].stream);
    assert InStreams(v.streams, reg[k].stream);
    KnowsIffRegistered(v, reg, j, reg[k].consumer.name);
    b := FirstNamed(v.streams[j].consumers, reg[k].consumer.name);
  }

  /** Created again in another stream, a consumer is in two streams but is loaded in one. */
  lemma OtherStreamDiffers(v: Server, reg: seq<Registered>, k: nat, i: nat, delivery: string)
    requires Saved(v, reg) && k < |reg| && i < |v.streams| && reg[k].stream != v.streams[i].name
    ensures var v' := Joined(v, v.streams[i].name, reg[k].consumer.name, delivery);
      Load(v'.files) != RestoreAll(v'.streams)
  {
    var v' := Joined(v, v.streams[i].name, reg[k].consumer.name, delivery);
    JoinedElsewhere(v, reg, k, i, delivery);
    var j, b := OwnerPlace(v, reg, k);
    if i < j {
      SharedNotLoaded(v'.files, v'.streams, i, |v.streams[i].consumers|, j, b);
    } else {
      SharedNotLoaded(v'.files, v'.streams, j, b, i, |v.streams[i].consumers|);
    }
  }

  lemma NotSameAgain(reg: seq<Registered>, k: nat, stream: string, delivery: string)
    requires RegistryOk(reg) && k < |reg| && reg[k].stream != stream
    ensures !SameAgain(reg, stream, reg[k].consumer.name, delivery)
  {
    var name := reg[k].consumer.name;
    forall j | 0 <= j < |reg| ensures reg[j] != Registered(stream, Consumer(name, delivery, 0, [])) {
      assert reg[j].consumer.name == name ==> j == k;
    }
  }

  lemma HereLoads(v: Server, reg: seq<Registered>, c: Command)
    requires Saved(v, reg) && c.CreateConsumer? && Field(c.name) && Field(c.delivery) && Position(v.streams, c.stream) < |v.streams|
    requires OnlyHere(reg, c.stream, c.name)
    ensures Load(Step(v, c).files) == RestoreAll(Step(v, c).streams) <==> AllStillAgree(v, reg, c)
  {
    StepKeeps(v, reg, c);
    LoadExact(Step(v, c), Register(v, reg, c));
    AgreesAfterCreating(v, reg, c);
  }

  /** Creating a consumer in a stream leaves the files in step with the memory exactly when its name is
      used in no other stream, the consumer in memory (if there is one) is as new, and every other
      one agrees with what was written of it.  From a state in step this is: the name is new, or the
      same consumer was created there before and nothing was acknowledged since. */
  lemma RecreationExact(v: Server, reg: seq<Registered>, c: Command)
    requires Saved(v, reg) && c.CreateConsumer? && Field(c.name) && Field(c.delivery) && Position(v.streams, c.stream) < |v.streams|
    ensures var v' := Step(v, c);
      && (Load(v'.files) == RestoreAll(v'.streams) <==> OnlyHere(reg, c.stream, c.name) && AllStillAgree(v, reg, c))
      && (Agrees(v, reg) ==>
           (Load(v'.files) == RestoreAll(v'.streams) <==> !Taken(reg, c.name) || SameAgain(reg, c.stream, c.name, c.delivery)))
  {
    if OnlyHere(reg, c.stream, c.name) {
      HereLoads(v, reg, c);
      if Agrees(v, reg) {
        AgreeingCreation(v, reg, c);
      }
    } else {
      var k :| 0 <= k < |reg| && reg[k].consumer.name == c.name && reg[k].stream != c.stream;
      OtherStreamDiffers(v, reg, k, Position(v.streams, c.stream), c.delivery);
      NotSameAgain(reg, k, c.stream, c.delivery);
    }
  }

  // ----- a run that does it -----

  lemma OneAck(s: Stream, c: Consumer, id: nat)
    requires s.consumers == [c]
    ensures Knows(s.consumers, c.name) && AckIn(s.consumers, c.name, id) == [c.(lastAck := id)]
    ensures Acknowledged(s, c.name, id) == c.(lastAck := id, queue := [])
  {
    assert s.consumers[0].name == c.name;
    AckInAt(s.consumers, c.name, id);
  }

  lemma OneConsumerAcks(v: Server, reg: seq<Registered>, c: Consumer, id: nat)
    requires Saved(v, reg) && id < USIZE_LIMIT && |v.streams| == 1 && v.streams[0].consumers == [c] && c.queue == []
    requires reg == [Registered(v.streams[0].name, c)]
    ensures var ack := Ack(v.streams[0].name, c.name, id);
      && Saved(Step(v, ack), Register(v, reg, ack))
      && Step(v, ack).streams == [v.streams[0].(consumers := [c.(lastAck := id)])]
      && Register(v, reg, ack) == [Registered(v.streams[0].name, c.(lastAck := id))]
  {
    StepKeeps(v, reg, Ack(v.streams[0].name, c.name, id));
    OneAck(v.streams[0], c, id);
    PositionIs(v.streams, 0);
  }

  lemma FirstStream(s: Stream)
    requires Field(s.name) && s.subjects != [] && Field(s.subjects[0])
    requires s.messages == [] && s.idCounter == 0 && s.consumers == []
    ensures var v := Step(EMPTY, CreateStream(s.name, s.subjects)); v.streams == [s] && Saved(v, [])
  {
    EmptySaved();
    StepKeeps(EMPTY, [], CreateStream(s.name, s.subjects));
  }

  lemma FirstConsumer(v: Server, c: Consumer)
    requires Saved(v, []) && |v.streams| == 1 && v.streams[0].consumers == []
    requires Field(c.name) && Field(c.delivery) && c.lastAck == 0 && c.queue == []
    ensures var create := CreateConsumer(v.streams[0].name, c.name, c.delivery);
      && Step(v, create).streams == [v.streams[0].(consumers := [c])]
      && Register(v, [], create) == [Registered(v.streams[0].name, c)] && Saved(Step(v, create), Register(v, [], create))
  {
    var s := v.streams[0];
    StepKeeps(v, [], CreateConsumer(s.name, c.name, c.delivery));
    PositionIs(v.streams, 0);
    assert !Knows(s.consumers, c.name);
    assert WithConsumer(s, c) == s.(consumers := [c]);
  }

  /** A consumer is created, acknowledges, and its program starts again: the next load forgets what it
      acknowledged. */
  lemma AcknowledgedAndCreatedAgain()
    ensures ForgetsAfterRun(Stream("n", ["s"], [], 0, []), Consumer("c", "d", 0, []), 5)
  {
    ForgottenAfterRun(Stream("n", ["s"], [], 0, []), Consumer("c", "d", 0, []), 5);
  }

  ghost predicate ForgetsAfterRun(s: Stream, c: Consumer, id: nat)
    requires s.subjects != []
  {
    var create := CreateConsumer(s.name, c.name, c.delivery);
    var v := Step(Step(Step(EMPTY, CreateStream(s.name, s.subjects)), create), Ack(s.name, c.name, id));
    var v' := Step(v, create);
    && v'.streams == v.streams == [s.(consumers := [c.(lastAck := id)])]
    && Load(v.files) == RestoreAll(v.streams)
    && Load(v'.files) == RestoreAll([s.(consumers := [c])]) != RestoreAll(v'.streams)
  }

  lemma ForgottenAfterRun(s: Stream, c: Consumer, id: nat)
    requires Field(s.name) && s.subjects != [] && Field(s.subjects[0])
    requires s.messages == [] && s.idCounter == 0 && s.consumers == []
    requires Field(c.name) && Field(c.delivery) && c.lastAck == 0 && c.queue == [] && 0 < id < USIZE_LIMIT
    ensures ForgetsAfterRun(s, c, id)
  {
    var create := CreateConsumer(s.name, c.name, c.delivery);
    var v := Step(Step(EMPTY, CreateStream(s.name, s.subjects)), create);
    FirstStream(s);
    FirstConsumer(Step(EMPTY, CreateStream(s.name, s.subjects)), c);
    OneConsumerAcks(v, [Registered(s.name, c)], c, id);
    AgreeingLoads(Step(v, Ack(s.name, c.name, id)), c.(lastAck := id));
    CreatedAgainLoads(Step(v, Ack(s.name, c.name, id)), c.(lastAck := id));
    assert c.(lastAck := id).(lastAck := 0) == c;
    RestoredDiffer(s, c, c.(lastAck := id));
  }

  lemma RestoredDiffer(s: Stream, c: Consumer, d: Consumer)
    requires c.lastAck != d.lastAck
    ensures RestoreAll([s.(consumers := [c])]) != RestoreAll([s.(consumers := [d])])
  {
    var x, y := RestoreAll([s.(consumers := [c])])[0], RestoreAll([s.(consumers := [d])])[0];
    assert x.consumers[0].lastAck == c.lastAck && y.consumers[0].lastAck == d.lastAck;
  }

  lemma AgreeingLoads(v: Server, c: Consumer)
    requires |v.streams| == 1 && v.streams[0].consumers == [c] && c.queue == []
    requires Saved(v, [Registered(v.streams[0].name, c)])
    ensures Load(v.files) == RestoreAll(v.streams)
  {
    OfSingle(Registered(v.streams[0].name, c));
    assert Bare([c]) == [c];
    LoadExact(v, [Registered(v.streams[0].name, c)]);
  }

  lemma CreatedAgainLoads(v: Server, c: Consumer)
    requires |v.streams| == 1 && v.streams[0].consumers == [c] && c.queue == []
    requires Saved(v, [Registered(v.streams[0].name, c)])
    ensures var v' := Step(v, CreateConsumer(v.streams[0].name, c.name, c.delivery));
      v'.streams == v.streams && Load(v'.files) == RestoreAll([v.streams[0].(consumers := [c.(lastAck := 0)])])
  {
    var s, create := v.streams[0], CreateConsumer(v.streams[0].name, c.name, c.delivery);
    var reg, reg' := [Registered(s.name, c)], [Registered(s.name, c.(lastAck := 0))];
    SavedSingle(v, reg);
    JoinedAgain(v, reg, s.name, c.name, c.delivery);
    assert Register(v, reg, create) == reg';
    StepKeeps(v, reg, create);
    LoadRestores(Step(v, create), reg');
    OfSingle(reg'[0]);
    assert OnFile(v.streams, reg') == [s.(consumers := [c.(lastAck := 0)])];
  }

  lemma SavedSingle(v: Server, reg: seq<Registered>)
    requires Saved(v, reg) && |v.streams| == 1 && |reg| == 1 && reg[0].stream == v.streams[0].name
    ensures Position(v.streams, v.streams[0].name) == 0 && Taken(reg, reg[0].consumer.name)
    ensures Field(reg[0].consumer.name) && Field(reg[0].consumer.delivery)
  {
  }

  lemma OfSingle(r: Registered)
    ensures Of([r], r.stream) == [r.consumer]
  {
    assert [r][1..] == [];
  }
}
