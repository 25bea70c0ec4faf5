/** The two threads of a connection, the one that pings and the one that listens, and the flag that
    closes both: every interleaving of the sections between their locks and sends. */
module Connection {
  import opened Wrappers
  import opened Text
  import opened Protocol

  datatype Thread = Pinger | Listener

  /** What is sent to the command executor. */
  datatype Item = SendPing | StaleError | ReadError | Shutdown(thread: Thread) | Command(text: string)

  /** Where the pinging thread is; it holds the write lock of the flag in the fifth and sixth. */
  datatype PingAt = Checking | Sending | Waiting | Writing | SendingShutdown | Setting | PingDone

  datatype ListenerAt = Reading | Failed(disconnected: bool) | Reporting | Closing | Notifying | ListenerDone

  /** What a read gives. */
  datatype Read = Message(text: string) | Disconnected | Unreadable

  /** `late` counts the pings sent while the flag was up. */
  datatype State = State(flag: bool, ping: PingAt, listener: ListenerAt, queue: seq<Item>, pongs: nat, late: nat)

  /** A thread goes on; the flags tell whether a pong came in time, and what was read. */
  datatype Move = PingMoves(pong: bool) | ListenerMoves(read: Read)

  predicate Locked(s: State) {
    s.ping == SendingShutdown || s.ping == Setting
  }

  function FirstWord(text: string): string {
    var words := SplitWhite(text);
    if words == [] then "" else words[0]
  }

  function PingMove(s: State, pong: bool): State {
    match s.ping
    case Checking => s.(ping := if s.flag then PingDone else Sending)
    case Sending => s.(queue := s.queue + [SendPing], late := if s.flag then s.late + 1 else s.late, ping := Waiting)
    case Waiting => s.(ping := if pong then Checking else Writing)
    case Writing => if s.flag then s.(ping := PingDone) else s.(queue := s.queue + [StaleError], ping := SendingShutdown)
    case SendingShutdown => s.(queue := s.queue + [Shutdown(Pinger)], ping := Setting)
    case Setting => s.(flag := true, ping := PingDone)
    case PingDone => s
  }

  /** A pong cannot be handed over once the pinging thread has ended: the listener returns. */
  function Heard(s: State, text: string): State {
    if FirstWord(text) == "PONG" then (if s.ping == PingDone then s.(listener := ListenerDone) else s.(pongs := s.pongs + 1))
    else if FirstWord(text) == "" || FirstWord(text) == "SEND_PING" || FirstWord(text) == "SHUTDOWN" then s
    else s.(queue := s.queue + [Command(text)])
  }

  /** The sections that need the lock wait while the other thread holds it. */
  function ListenerMove(s: State, read: Read): State {
    match s.listener
    case Reading =>
      (match read
       case Message(text) => Heard(s, text)
       case Disconnected => s.(listener := Failed(true))
       case Unreadable => s.(listener := Failed(false)))
    case Failed(disconnected) =>
      if Locked(s) then s
      else if s.flag then s.(listener := ListenerDone)
      else s.(listener := if disconnected then Closing else Reporting)
    case Reporting => s.(queue := s.queue + [ReadError], listener := Reading)
    case Closing => if Locked(s) then s else s.(flag := true, listener := Notifying)
    case Notifying => s.(queue := s.queue + [Shutdown(Listener)], listener := ListenerDone)
    case ListenerDone => s
  }

  function Step(s: State, m: Move): State {
    match m
    case PingMoves(pong) => PingMove(s, pong)
    case ListenerMoves(read) => ListenerMove(s, read)
  }

  class SharedConnection {
    var flag: bool
    var ping: PingAt
    var listener: ListenerAt
    var queue: seq<Item>
    var pongs: nat
    ghost var late: nat

    constructor ()
      ensures View() == START
    {
      flag, ping, listener, queue, pongs, late := false, Checking, Reading, [], 0, 0;
    }

    ghost function View(): State
      reads this
    {
      State(flag, ping, listener, queue, pongs, late)
    }

    /** `mantain_connection` up to its next lock or send. */
    method MantainConnection(pong: bool)
      modifies this
      ensures View() == Step(old(View()), PingMoves(pong))
      ensures Good(old(View())) ==> Good(View())
      ensures old(flag) ==> flag
      ensures listener == old(listener) && pongs == old(pongs) && queue[..|old(queue)|] == old(queue)
    {
      KeepsGood(View(), PingMoves(pong));
      QueueAfter(View(), PingMoves(pong));
      match ping {
        case Checking => ping := if flag then PingDone else Sending;
        case Sending =>
          queue := queue + [SendPing];
          late := if flag then late + 1 else late;
          ping := Waiting;
        case Waiting => ping := if pong then Checking else Writing;
        case Writing =>
          if flag {
            ping := PingDone;
          } else {
            queue := queue + [StaleError];
            ping := SendingShutdown;
          }
        case SendingShutdown =>
          queue := queue + [Shutdown(Pinger)];
          ping := Setting;
        case Setting =>
          flag := true;
          ping := PingDone;
        case PingDone =>
      }
    }

    /** `escuchar_mensajes` up to its next lock or send. */
    method EscucharMensajes(read: Read)
      modifies this
      ensures View() == Step(old(View()), ListenerMoves(read))
      ensures Good(old(View())) ==> Good(View())
      ensures old(flag) ==> flag
      ensures ping == old(ping) && queue[..|old(queue)|] == old(queue)
    {
      KeepsGood(View(), ListenerMoves(read));
      QueueAfter(View(), ListenerMoves(read));
      var locked := ping == SendingShutdown || ping == Setting;
      match listener {
        case Reading =>
          match read {
            case Message(text) =>
              var command := SplitWhite(text);
              if command != [] && command[0] == "PONG" {
                if ping == PingDone {
                  listener := ListenerDone;
                } else {
                  pongs := pongs + 1;
                }
              } else if command != [] && command[0] != "SEND_PING" && command[0] != "SHUTDOWN" {
                NonEmptyWord(text);
                queue := queue + [Command(text)];
              }
            case Disconnected => listener := Failed(true);
            case Unreadable => listener := Failed(false);
          }
        case Failed(disconnected) =>
          if !locked {
            if flag {
              listener := ListenerDone;
            } else {
              listener := if disconnected then Closing else Reporting;
            }
          }
        case Reporting =>
          queue := queue + [ReadError];
          listener := Reading;
        case Closing =>
          if !locked {
            flag := true;
            listener := Notifying;
          }
        case Notifying =>
          queue := queue + [Shutdown(Listener)];
          listener := ListenerDone;
        case ListenerDone =>
      }
    }
  }

  lemma NonEmptyWord(text: string)
    requires SplitWhite(text) != []
    ensures FirstWord(text) != ""
  {
    SplitWhiteWords(text);
  }

  const START := State(false, Checking, Reading, [], 0, 0)

  function Run(s: State, moves: seq<Move>): State
    decreases moves
  {
    if moves == [] then s else Run(Step(s, moves[0]), moves[1..])
  }

  // ----- what is sent -----

  function Count(queue: seq<Item>, x: Item): nat {
    if queue == [] then 0 else Count(queue[..|queue| - 1], x) + if queue[|queue| - 1] == x then 1 else 0
  }

  /** The shutdown of the pinging thread comes after its error. */
  predicate ErrorFirst(queue: seq<Item>) {
    queue == [] ||
    (ErrorFirst(queue[..|queue| - 1]) && (queue[|queue| - 1] == Shutdown(Pinger) ==> Count(queue[..|queue| - 1], StaleError) > 0))
  }

  lemma OneMore(queue: seq<Item>, x: Item, y: Item)
    ensures Count(queue + [x], y) == Count(queue, y) + if x == y then 1 else 0
    ensures ErrorFirst(queue + [x]) <==> ErrorFirst(queue) && (x == Shutdown(Pinger) ==> Count(queue, StaleError) > 0)
  {
    assert (queue + [x])[..|queue|] == queue;
  }

  predicate PingOk(s: State) {
    && Count(s.queue, Shutdown(Pinger)) <= (if s.ping == Setting || s.ping == PingDone then 1 else 0)
    && (s.ping == SendingShutdown || s.ping == Setting ==> Count(s.queue, StaleError) > 0)
    && Count(s.queue, StaleError) <= (if s.ping == SendingShutdown || s.ping == Setting || s.ping == PingDone then 1 else 0)
  }

  predicate ListenerOk(s: State) {
    && Count(s.queue, Shutdown(Listener)) <= (if s.listener == ListenerDone then 1 else 0)
    && (s.listener == Notifying ==> s.flag)
  }

  predicate LateOk(s: State) {
    if s.flag then s.late + (if s.ping == Sending then 1 else 0) <= 1 else s.late == 0
  }

  predicate Good(s: State) {
    PingOk(s) && ListenerOk(s) && LateOk(s) && ErrorFirst(s.queue)
  }

  /** What a move sends. */
  function Sent(s: State, m: Move): Option<Item> {
    match m
    case PingMoves(_) =>
      if s.ping == Sending then Some(SendPing)
      else if s.ping == Writing && !s.flag then Some(StaleError)
      else if s.ping == SendingShutdown then Some(Shutdown(Pinger))
      else None
    case ListenerMoves(read) =>
      if s.listener == Reading && read.Message? && FirstWord(read.text) !in ["PONG", "", "SEND_PING", "SHUTDOWN"] then Some(Command(read.text))
      else if s.listener == Reporting then Some(ReadError)
      else if s.listener == Notifying then Some(Shutdown(Listener))
      else None
  }

  lemma QueueAfter(s: State, m: Move)
    ensures Step(s, m).queue == s.queue + if Sent(s, m).Some? then [Sent(s, m).value] else []
  {
    assert s.queue + [] == s.queue;
  }

  lemma CountsAfter(s: State, m: Move, y: Item)
    ensures Count(Step(s, m).queue, y) == Count(s.queue, y) + if Sent(s, m) == Some(y) then 1 else 0
  {
    QueueAfter(s, m);
    if Sent(s, m).Some? {
      OneMore(s.queue, Sent(s, m).value, y);
    } else {
      assert s.queue + [] == s.queue;
    }
  }

  lemma PingGood(s: State, pong: bool)
    requires Good(s)
    ensures PingOk(PingMove(s, pong)) && ListenerOk(PingMove(s, pong)) && LateOk(PingMove(s, pong))
  {
    var m := PingMoves(pong);
    CountsAfter(s, m, Shutdown(Pinger));
    CountsAfter(s, m, Shutdown(Listener));
    CountsAfter(s, m, StaleError);
  }

  lemma ListenerGood(s: State, read: Read)
    requires Good(s)
    ensures PingOk(ListenerMove(s, read)) && ListenerOk(ListenerMove(s, read)) && LateOk(ListenerMove(s, read))
  {
    var m := ListenerMoves(read);
    CountsAfter(s, m, Shutdown(Pinger));
    CountsAfter(s, m, Shutdown(Listener));
    CountsAfter(s, m, StaleError);
  }

  lemma ErrorStaysFirst(s: State, m: Move)
    requires Good(s)
    ensures ErrorFirst(Step(s, m).queue)
  {
    QueueAfter(s, m);
    if Sent(s, m).Some? {
      OneMore(s.queue, Sent(s, m).value, StaleError);
    } else {
      assert s.queue + [] == s.queue;
    }
  }

  lemma StepGood(s: State, m: Move)
    requires Good(s)
    ensures Good(Step(s, m))
  {
    ErrorStaysFirst(s, m);
    match m
    case PingMoves(pong) => PingGood(s, pong);
    case ListenerMoves(read) => ListenerGood(s, read);
  }

  lemma KeepsGood(s: State, m: Move)
    ensures Good(s) ==> Good(Step(s, m))
    ensures s.flag ==> Step(s, m).flag
  {
    if Good(s) {
      StepGood(s, m);
    }
  }

  lemma {:induction false} RunGood(s: State, moves: seq<Move>)
    requires Good(s)
    ensures Good(Run(s, moves)) && (s.flag ==> Run(s, moves).flag)
    decreases moves
  {
    if moves != [] {
      StepGood(s, moves[0]);
      RunGood(Step(s, moves[0]), moves[1..]);
    }
  }

  /** Over every interleaving each thread asks for the shutdown at most once, the pinging thread
      only after its error, and at most one ping is sent once the flag is up. */
  lemma ClosedOnce(moves: seq<Move>)
    ensures var s := Run(START, moves);
      && Count(s.queue, Shutdown(Pinger)) <= 1 && Count(s.queue, Shutdown(Listener)) <= 1
      && ErrorFirst(s.queue) && s.late <= 1
  {
    RunGood(START, moves);
  }

  /** The flag is never lowered. */
  lemma FlagStaysUp(moves: seq<Move>, more: seq<Move>)
    ensures Run(START, moves).flag ==> Run(Run(START, moves), more).flag
  {
    RunGood(START, moves);
    RunGood(Run(START, moves), more);
  }

  lemma RunTwo(s: State, a: Move, b: Move, rest: seq<Move>)
    ensures Run(s, [a, b] + rest) == Run(Step(Step(s, a), b), rest)
  {
    assert ([a, b] + rest)[1..] == [b] + rest && ([b] + rest)[1..] == rest;
  }

  // ----- when both ask -----

  /** The pinging thread is about to give up on the connection, with the flag down, while the
      listener has read the flag and not yet written it. */
  predicate Crossing(s: State, m: Move) {
    m.PingMoves? && s.ping == Writing && !s.flag && s.listener == Closing
  }

  predicate Crossed(s: State, moves: seq<Move>)
    decreases moves
  {
    moves != [] && (Crossing(s, moves[0]) || Crossed(Step(s, moves[0]), moves[1..]))
  }

  /** Where the threads are once they have crossed: both go on to ask. */
  predicate AfterCrossing(s: State) {
    && (s.ping == SendingShutdown || s.ping == Setting || s.ping == PingDone)
    && (s.listener == Closing || s.listener == Notifying || s.listener == ListenerDone)
    && (s.ping != SendingShutdown ==> Count(s.queue, Shutdown(Pinger)) == 1)
    && (s.listener == ListenerDone ==> Count(s.queue, Shutdown(Listener)) == 1)
  }

  /** Where they are as long as they have not: if one has asked or is bound to, the other finds the
      flag up, or the lock held, before it is bound to. */
  predicate BeforeCrossing(s: State) {
    var p, l := Count(s.queue, Shutdown(Pinger)), Count(s.queue, Shutdown(Listener));
    && (s.ping == SendingShutdown || s.ping == Setting || p > 0 ==>
          s.listener != Closing && s.listener != Notifying && l == 0 && (Locked(s) || s.flag))
    && (s.listener == Notifying || l > 0 ==> s.flag && p == 0 && !Locked(s))
  }

  lemma PingCrosses(s: State, pong: bool)
    requires BeforeCrossing(s) && Good(s)
    ensures var m := PingMoves(pong);
      if Crossing(s, m) then AfterCrossing(PingMove(s, pong)) else BeforeCrossing(PingMove(s, pong))
  {
    CountsAfter(s, PingMoves(pong), Shutdown(Pinger));
    CountsAfter(s, PingMoves(pong), Shutdown(Listener));
  }

  lemma ListenerCrosses(s: State, read: Read)
    requires BeforeCrossing(s) && Good(s)
    ensures BeforeCrossing(ListenerMove(s, read))
  {
    CountsAfter(s, ListenerMoves(read), Shutdown(Pinger));
    CountsAfter(s, ListenerMoves(read), Shutdown(Listener));
  }

  lemma CrossingStep(s: State, m: Move)
    requires BeforeCrossing(s) && Good(s)
    ensures if Crossing(s, m) then AfterCrossing(Step(s, m)) else BeforeCrossing(Step(s, m))
  {
    match m
    case PingMoves(pong) => PingCrosses(s, pong);
    case ListenerMoves(read) => ListenerCrosses(s, read);
  }

  lemma AfterCrossingStep(s: State, m: Move)
    requires AfterCrossing(s) && Good(s)
    ensures AfterCrossing(Step(s, m))
  {
    CountsAfter(s, m, Shutdown(Pinger));
    CountsAfter(s, m, Shutdown(Listener));
  }

  lemma {:induction false} StaysCrossed(s: State, moves: seq<Move>)
    requires AfterCrossing(s) && Good(s)
    ensures AfterCrossing(Run(s, moves))
    decreases moves
  {
    if moves != [] {
      AfterCrossingStep(s, moves[0]);
      StepGood(s, moves[0]);
      StaysCrossed(Step(s, moves[0]), moves[1..]);
    }
  }

  lemma {:induction false} CrossedRun(s: State, moves: seq<Move>)
    requires BeforeCrossing(s) && Good(s)
    ensures if Crossed(s, moves) then AfterCrossing(Run(s, moves)) else BeforeCrossing(Run(s, moves))
    decreases moves
  {
    if moves != [] {
      CrossingStep(s, moves[0]);
      StepGood(s, moves[0]);
      if Crossing(s, moves[0]) {
        StaysCrossed(Step(s, moves[0]), moves[1..]);
      } else {
        CrossedRun(Step(s, moves[0]), moves[1..]);
      }
    }
  }

  predicate BothAsked(s: State) {
    Count(s.queue, Shutdown(Pinger)) > 0 && Count(s.queue, Shutdown(Listener)) > 0
  }

  /** Who raises the flag has asked or is about to, and no thread ends with the flag down. */
  predicate FlagOwned(s: State) {
    && (s.flag ==> Asked(s) || s.listener == Notifying)
    && (s.ping == PingDone || s.listener == ListenerDone ==> s.flag)
    && (s.ping == Setting ==> Asked(s))
  }

  predicate Asked(s: State) {
    Count(s.queue, Shutdown(Pinger)) > 0 || Count(s.queue, Shutdown(Listener)) > 0
  }

  lemma {:induction false} FlagOwnedRun(s: State, moves: seq<Move>)
    requires FlagOwned(s) && Good(s)
    ensures FlagOwned(Run(s, moves))
    decreases moves
  {
    if moves != [] {
      CountsAfter(s, moves[0], Shutdown(Pinger));
      CountsAfter(s, moves[0], Shutdown(Listener));
      StepGood(s, moves[0]);
      FlagOwnedRun(Step(s, moves[0]), moves[1..]);
    }
  }

  /** Over every interleaving both threads ask for the shutdown only if they crossed. Once both have
      finished one has asked, and both have exactly if they crossed. */
  lemma BothShutDownExact(moves: seq<Move>)
    ensures BothAsked(Run(START, moves)) ==> Crossed(START, moves)
    ensures Run(START, moves).ping == PingDone && Run(START, moves).listener == ListenerDone ==>
      Asked(Run(START, moves)) && (BothAsked(Run(START, moves)) <==> Crossed(START, moves))
  {
    CrossedRun(START, moves);
    FlagOwnedRun(START, moves);
  }

  // ----- pongs -----

  /** A pong does not come in time. */
  predicate Misses(s: State, m: Move) {
    m == PingMoves(false) && s.ping == Waiting
  }

  predicate Missed(s: State, moves: seq<Move>)
    decreases moves
  {
    moves != [] && (Misses(s, moves[0]) || Missed(Step(s, moves[0]), moves[1..]))
  }

  /** Nothing has been sent, and nothing is about to be, because of a missing pong. */
  predicate NothingStale(s: State) {
    && StaleError !in s.queue && Shutdown(Pinger) !in s.queue
    && s.ping != Writing && s.ping != SendingShutdown && s.ping != Setting
  }

  lemma StaysQuiet(s: State, m: Move)
    requires NothingStale(s) && !Misses(s, m)
    ensures NothingStale(Step(s, m))
  {
  }

  /** Over every interleaving: the stale connection is reported, and its shutdown asked for, only after a pong
      that did not come in time. */
  lemma {:induction false} StaleNeedsMiss(s: State, moves: seq<Move>)
    requires NothingStale(s) && !Missed(s, moves)
    ensures NothingStale(Run(s, moves))
    decreases moves
  {
    if moves != [] {
      StaysQuiet(s, moves[0]);
      StaleNeedsMiss(Step(s, moves[0]), moves[1..]);
    }
  }

  predicate NoDisconnection(moves: seq<Move>) {
    forall i :: 0 <= i < |moves| ==> moves[i] != ListenerMoves(Disconnected)
  }

  /** Neither thread is on its way to raise the flag. */
  predicate Open(s: State) {
    && !s.flag && NothingStale(s) && Shutdown(Listener) !in s.queue && s.ping != PingDone
    && (s.listener == Reading || s.listener == Failed(false) || s.listener == Reporting)
  }

  lemma StaysOpen(s: State, m: Move)
    requires Open(s) && !Misses(s, m) && m != ListenerMoves(Disconnected)
    ensures Open(Step(s, m))
  {
    StaysQuiet(s, m);
  }

  /** A client that answers every ping in time and does not disconnect keeps its connection, whatever it
      sends: both threads go on and the flag is never raised. */
  lemma {:induction false} PongsKeepOpen(s: State, moves: seq<Move>)
    requires Open(s) && !Missed(s, moves) && NoDisconnection(moves)
    ensures Open(Run(s, moves))
    decreases moves
  {
    if moves != [] {
      StaysOpen(s, moves[0]);
      PongsKeepOpen(Step(s, moves[0]), moves[1..]);
    }
  }

  lemma PongsKeepOpenFromStart(moves: seq<Move>)
    requires !Missed(START, moves) && NoDisconnection(moves)
    ensures var s := Run(START, moves);
      && !s.flag && s.ping != PingDone && s.listener != ListenerDone
      && StaleError !in s.queue && Shutdown(Pinger) !in s.queue && Shutdown(Listener) !in s.queue
  {
    PongsKeepOpen(START, moves);
  }

  /** After a pong the next ping is sent. */
  lemma PongGoesOn(s: State, x: bool, y: bool)
    requires s.ping == Waiting && !s.flag
    ensures Step(Step(Step(s, PingMoves(true)), PingMoves(x)), PingMoves(y)) == s.(queue := s.queue + [SendPing])
  {
  }

  /** Without one, and with the flag down, the thread reports the stale connection, asks for its shutdown,
      raises the flag and ends. */
  lemma MissShutsDown(s: State, x: bool, y: bool, z: bool)
    requires s.ping == Waiting && !s.flag
    ensures Step(Step(Step(Step(s, PingMoves(false)), PingMoves(x)), PingMoves(y)), PingMoves(z))
         == s.(queue := s.queue + [StaleError, Shutdown(Pinger)], flag := true, ping := PingDone)
  {
    assert s.queue + [StaleError] + [Shutdown(Pinger)] == s.queue + [StaleError, Shutdown(Pinger)];
  }

  // ----- two shutdowns -----

  const TIMEOUT := PingMoves(false)
  const CUT := ListenerMoves(Disconnected)

  /** No pong comes while the listener is between reading the flag and writing it. */
  lemma BothCommitted()
    ensures Run(START, [TIMEOUT, TIMEOUT] + ([TIMEOUT, CUT] + ([CUT, TIMEOUT] + [])))
         == State(false, SendingShutdown, Closing, [SendPing, StaleError], 0, 0)
  {
    RunTwo(START, TIMEOUT, TIMEOUT, [TIMEOUT, CUT] + ([CUT, TIMEOUT] + []));
    assert START.queue + [SendPing] == [SendPing];
    RunTwo(State(false, Waiting, Reading, [SendPing], 0, 0), TIMEOUT, CUT, [CUT, TIMEOUT] + []);
    RunTwo(State(false, Writing, Failed(true), [SendPing], 0, 0), CUT, TIMEOUT, []);
  }

  lemma BothFinish()
    ensures Run(State(false, SendingShutdown, Closing, [SendPing, StaleError], 0, 0), [TIMEOUT, TIMEOUT] + ([CUT, CUT] + []))
         == State(true, PingDone, ListenerDone, [SendPing, StaleError, Shutdown(Pinger)] + [Shutdown(Listener)], 0, 0)
  {
    RunTwo(State(false, SendingShutdown, Closing, [SendPing, StaleError], 0, 0), TIMEOUT, TIMEOUT, [CUT, CUT] + []);
    assert [SendPing, StaleError] + [Shutdown(Pinger)] == [SendPing, StaleError, Shutdown(Pinger)];
    RunTwo(State(true, PingDone, Closing, [SendPing, StaleError, Shutdown(Pinger)], 0, 0), CUT, CUT, []);
  }

  lemma {:induction false} RunConcat(s: State, a: seq<Move>, b: seq<Move>)
    ensures Run(s, a + b) == Run(Run(s, a), b)
    decreases a
  {
    if a == [] {
      assert a + b == b;
    } else {
      assert (a + b)[1..] == a[1..] + b;
      RunConcat(Step(s, a[0]), a[1..], b);
    }
  }

  /** Two shutdowns do happen: the listener does not look at the flag again before it writes it. */
  lemma BothShutDown() returns (moves: seq<Move>)
    ensures Count(Run(START, moves).queue, Shutdown(Pinger)) == 1
    ensures Count(Run(START, moves).queue, Shutdown(Listener)) == 1
  {
    var first := [TIMEOUT, TIMEOUT] + ([TIMEOUT, CUT] + ([CUT, TIMEOUT] + []));
    var second := [TIMEOUT, TIMEOUT] + ([CUT, CUT] + []);
    moves := first + second;
    RunConcat(START, first, second);
    BothCommitted();
    BothFinish();
    CountsOfBoth();
  }

  lemma CountsOfBoth()
    ensures Count([SendPing, StaleError, Shutdown(Pinger)] + [Shutdown(Listener)], Shutdown(Pinger)) == 1
    ensures Count([SendPing, StaleError, Shutdown(Pinger)] + [Shutdown(Listener)], Shutdown(Listener)) == 1
  {
    var q := [SendPing, StaleError, Shutdown(Pinger)];
    forall y ensures Count(q, y) == Count([SendPing, StaleError], y) + if y == Shutdown(Pinger) then 1 else 0 {
      OneMore([SendPing, StaleError], Shutdown(Pinger), y);
      assert [SendPing, StaleError] + [Shutdown(Pinger)] == q;
    }
    forall y ensures Count([SendPing, StaleError], y) == (if y == StaleError then 1 else 0) + (if y == SendPing then 1 else 0) {
      OneMore([SendPing], StaleError, y);
      OneMore([], SendPing, y);
      assert [SendPing] + [StaleError] == [SendPing, StaleError] && [] + [SendPing] == [SendPing];
    }
    OneMore(q, Shutdown(Listener), Shutdown(Pinger));
    OneMore(q, Shutdown(Listener), Shutdown(Listener));
  }

  // ----- the client cannot ask for the internal commands -----

  predicate Internal(command: string) {
    command == "SHUTDOWN" || command == "SEND_PING"
  }

  lemma InternalIsWord(text: string)
    requires Internal(CommandOf(text))
    ensures FirstWord(text) == CommandOf(text)
  {
    var i := IndexOf(text, ' ');
    var w := CommandOf(text);
    assert text == w + text[i..];
    SplitWhiteFirst(w, text[i..]);
  }

  predicate Filtered(queue: seq<Item>) {
    forall i :: 0 <= i < |queue| && queue[i].Command? ==> !Internal(CommandOf(queue[i].text))
  }

  /** Over every interleaving no text of the client reaches the executor as an internal command. */
  lemma {:induction false} NoInternalFromClient(s: State, moves: seq<Move>)
    requires Filtered(s.queue)
    ensures Filtered(Run(s, moves).queue)
    decreases moves
  {
    if moves != [] {
      QueueAfter(s, moves[0]);
      var x := Sent(s, moves[0]);
      if x.Some? && x.value.Command? && Internal(CommandOf(x.value.text)) {
        InternalIsWord(x.value.text);
        assert false;
      }
      NoInternalFromClient(Step(s, moves[0]), moves[1..]);
    }
  }

  lemma NoInternalFromStart(moves: seq<Move>, i: nat)
    requires i < |Run(START, moves).queue| && Run(START, moves).queue[i].Command?
    ensures var text := Run(START, moves).queue[i].text; CommandOf(text) != "SHUTDOWN" && CommandOf(text) != "SEND_PING"
  {
    NoInternalFromClient(START, moves);
  }

  // ----- what the listening thread passes on -----

  /** The texts that were read and are passed on: those whose first word is not one of three. */
  function Heeded(s: State, moves: seq<Move>): seq<string>
    decreases moves
  {
    if moves == [] then []
    else
      var m := moves[0];
      (if m.ListenerMoves? && s.listener == Reading && m.read.Message? && SplitWhite(m.read.text) != []
          && SplitWhite(m.read.text)[0] != "PONG" && SplitWhite(m.read.text)[0] != "SEND_PING" && SplitWhite(m.read.text)[0] != "SHUTDOWN"
       then [m.read.text] else [])
      + Heeded(Step(s, m), moves[1..])
  }

  function Texts(queue: seq<Item>): seq<string> {
    if queue == [] then []
    else Texts(queue[..|queue| - 1]) + if queue[|queue| - 1].Command? then [queue[|queue| - 1].text] else []
  }

  lemma TextsMore(queue: seq<Item>, x: Item)
    ensures Texts(queue + [x]) == Texts(queue) + if x.Command? then [x.text] else []
  {
    assert (queue + [x])[..|queue|] == queue;
  }

  lemma FirstWordNotEmpty(text: string)
    ensures FirstWord(text) == "" <==> SplitWhite(text) == []
  {
    SplitWhiteWords(text);
  }

  lemma HeededFirst(s: State, m: Move)
    ensures Texts(Step(s, m).queue) == Texts(s.queue) + Heeded(s, [m])
  {
    QueueAfter(s, m);
    var x := Sent(s, m);
    if m.ListenerMoves? && m.read.Message? {
      FirstWordNotEmpty(m.read.text);
    }
    assert [m][1..] == [];
    if x.Some? {
      TextsMore(s.queue, x.value);
    } else {
      assert s.queue + [] == s.queue && Texts(s.queue) + [] == Texts(s.queue);
    }
  }

  lemma HeededHead(s: State, moves: seq<Move>)
    requires moves != []
    ensures Heeded(s, moves) == Heeded(s, [moves[0]]) + Heeded(Step(s, moves[0]), moves[1..])
  {
    assert [moves[0]][1..] == [];
    assert Heeded(Step(s, moves[0]), []) == [];
  }

  lemma ConcatThree(a: seq<string>, b: seq<string>, c: seq<string>)
    ensures a + b + c == a + (b + c)
  {
  }

  /** Over every interleaving the executor gets exactly these texts, whole and in the order in which they were
      read. */
  lemma {:induction false} PassedOnExactly(s: State, moves: seq<Move>)
    ensures Texts(Run(s, moves).queue) == Texts(s.queue) + Heeded(s, moves)
    decreases moves
  {
    if moves == [] {
      assert Texts(s.queue) + [] == Texts(s.queue);
    } else {
      var next := Step(s, moves[0]);
      HeededFirst(s, moves[0]);
      HeededHead(s, moves);
      PassedOnExactly(next, moves[1..]);
      ConcatThree(Texts(s.queue), Heeded(s, [moves[0]]), Heeded(next, moves[1..]));
    }
  }

  /** While the pinging thread holds the lock, the listening one waits for it. */
  lemma LockHolds(s: State, read: Read)
    requires (s.ping == SendingShutdown || s.ping == Setting) && (s.listener.Failed? || s.listener == Closing)
    ensures Step(s, ListenerMoves(read)) == s
  {
  }

  /** A read that fails is reported once, and the thread reads on; one that is disconnected closes the
      connection, if nobody did before. */
  lemma FailuresReported(s: State, x: Read, y: Read)
    requires s.listener == Reading && s.ping == Waiting && !s.flag
    ensures Step(Step(Step(s, ListenerMoves(Unreadable)), ListenerMoves(x)), ListenerMoves(y)) == s.(queue := s.queue + [ReadError])
    ensures Step(Step(Step(Step(s, ListenerMoves(Disconnected)), ListenerMoves(x)), ListenerMoves(y)), ListenerMoves(x))
         == s.(queue := s.queue + [Shutdown(Listener)], flag := true, listener := ListenerDone)
  {
  }

  /** Both threads end when they find the flag up, and say nothing. */
  lemma FlagEndsBoth(s: State, x: bool, y: Read)
    requires s.flag
    ensures s.ping == Checking || s.ping == Writing ==> Step(s, PingMoves(x)) == s.(ping := PingDone)
    ensures s.listener.Failed? && s.ping == PingDone ==> Step(s, ListenerMoves(y)) == s.(listener := ListenerDone)
  {
  }

  /** A pong is handed over while there is somebody to take it; then the listening thread returns. */
  lemma PongHandedOver(s: State, text: string)
    requires s.listener == Reading && SplitWhite(text) != [] && SplitWhite(text)[0] == "PONG"
    ensures Step(s, ListenerMoves(Message(text)))
         == if s.ping == PingDone then s.(listener := ListenerDone) else s.(pongs := s.pongs + 1)
  {
  }
}
