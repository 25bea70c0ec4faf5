# Verified model of the camera, drone and messaging system

The repository is a surveillance system made of a NATS-like message server, a client library, a central
of cameras and a monitor of incidents and drones. This project models the parts of it that keep state and
proves what they promise over whole runs. `dafny verify dfyconfig.toml` checks everything.

The pipeline, and the modules that follow it:

* **Camera central** (`Camara`, `CentralSpec`, `CentralDeCamaras`, `CentralInvariante`, `CentralCorridas`,
  `CentralAvisos`). An incident wakes the cameras it reaches and their neighbours. Cameras keep counters that the code
  updates by one, walking a hash map in any order. The class `Central` has the code's loops, over sets from
  which an arbitrary camera is taken, and is proved against functions on tables; the lemmas show that the
  counters equal the ones counted from scratch, and exactly when they do not.
* **Replica in the monitor** (`MonitorCamaras`, `ReplicaReinicio`): the central's publications folded into the
  monitor's map, repetitions and a server that starts again included.
* **Streams** (`Text`, `FileProcessing`, `JetStreamFormat`, `JetStream`, `JetStreamLoad`, `JetStreamRuns`,
  `JetStreamRecreate`): messages stored as keyed lines, and rebuilt from them at a restart; consumers that are
  created again and again.
* **Delivery** (`Consumer`, `Delivery`, `CommaExact`, `CommaRun`): the stop-and-wait sender of a push consumer,
  against any sequence of acknowledgements, timeouts and disconnections, and over several runs of the server, each
  cut anywhere and followed by a load of its files; what commas in the texts do to it.
* **Broker** (`Subject`, `Coverage`, `CommandExecutor`, `CommandExecutorRuns`): subject patterns, what a list of
  permissions covers, the table of subscriptions with limits.
* **Client** (`Protocol`, `Rotation`, `Client`, `Quota`): the list of subscriptions that turns, the texts both
  sides write and read, a limit that broker and client both count down.
* **Wire** (`Framing`, `Crypto`): cutting at CR-LF, and line-wise encryption over an abstract cipher.
* **Drones** (`Monitoreo`, `MonitoreoCorridas`, `MonitoreoCierres`, `MonitoreoCentral`, `CamarasYMonitor`, `DosVidas`): the
  monitor's shared tables under every interleaving of its locked sections, timers included. `MonitoreoCierres` says
  which incidents can never be cancelled, `MonitoreoCentral` where the incidents are that were published,
  `CamarasYMonitor` feeds the publications to the camera central, `DosVidas` those of a monitor that was started
  again.
* **Locks** (`Cerrojos`): the order in which the monitor's threads take their locks.
* **Connection** (`Connection`): the pinging and the listening thread and their common flag.

`Wrappers` and `Sequences` hold what several modules share. Names follow the source: Spanish for cameras and
monitor, English for server and client.

## What the code does otherwise than expected

* A drone that resolves an incident makes the monitor cancel it at the drone's position
  (`sistema_monitoreo/src/sistema_monitoreo/sistema_monitoreo.rs:388-408`), while the central discounts the
  cameras around the position of the cancel. `CanceladoExacto` gives the exact condition for one cancel and
  `CamarasSiguenExacto` the one for whole interleavings of the monitor: each timer that cancels an open
  incident finds the drone at a place that suits. In `DronLejos` one does not, and a camera records for ever.
* `nueva_camara` does not look at incidents in progress; `AltaExacta` says exactly when that is harmless,
  `AltaAlAlcance` shows a camera that sleeps beside an open incident.
* A cancel over a camera that is already saving energy publishes "ahorro" once more, if the camera's counter is
  0: `UnAvisoPorCambio` says that this is exactly when a message announces no change, `AhorroDeMas` shows it. In
  `EnDeuda` a cancel has left the counter at -1, and then nothing is published.
* An incident that is already active and is reported again is published again and gets another timer
  (`ActivoDosVeces`); it is published once for each report that arrives while it is listed with two drones
  (`ActivoUnaVezExacto`).
* The callback of a drone that is resolving takes the lock of the incidents' drones before that of the client,
  the callback of the image detector takes them the other way round: exactly when both kinds of thread are
  there, some schedule makes two of them wait for each other (`TrabaExacta`), and then for ever.
* An incident that is removed by hand before its creation has noted it among the drones is never cancelled
  (`NuncaCerrado`); `CierreExacto` says exactly when a removal still can be published.
* A monitor that is started again counts its incidents from 0, and the central ignores the numbers that it has
  seen (`PrimeroIgnorado`, `SegundaVida`); `SegundaVidaExacta` says when it knows all the open ones.
* The counter of sends is never set back: a message that is not acknowledged in time is sent again iff fewer
  than five sends were made in the thread's life (`SentAgainIff`, `RepetitionsExact`); in `LeftBehind` a client
  that never answers is passed by.
* The number that an acknowledgement carries is not looked at (`IdsDoNotMatter`). For a client that acknowledges
  every copy in order, the one that passes a message carries its number iff as many came before it as copies of
  earlier messages were sent (`LateAckExact`); in `LateAckPassesNext` the second copy's passes the next message.
* Creating a consumer writes a line with acknowledgement 0 even if the consumer exists, as it does whenever a
  program starts again: `RecreationExact` says when the files and the memory still agree,
  `AcknowledgedAndCreatedAgain` shows a run after which they do not, `AgreesAfter` what mends it. Nothing is lost
  by it (`AtLeastOnce`).
* A stored message that holds a comma is not read back whole (`ReadBackExact`), and its parts may bring numbers
  of their own: then a later message is never sent to a consumer that acknowledges all it gets
  (`CommaLosesAMessage`). `LoadsExactly` says what is loaded, `CommaSkipsExact` which messages a thread skips then;
  `AtLeastOnce` asks for texts that the files can hold.
* The client takes the message number off a payload as often as it finds it (`DeliveredTextExact`,
  `NumberTakenTwice`).
* The server cuts a command at its first blank or line end, splits an acknowledgement at its dots, and takes
  the prefix off as often as it finds it: it is read as it was meant iff the names have no blank, dot or line
  end and do not spell the prefix again (`AckRoundTripExact`, `BlankInName`).
* A publication of a client that is gone leaves used-up subscriptions in the table, and `UNSUB sid 0` makes
  one; the next matching publication would count below zero (`ZeroExact`, `ZeroHappens`).
* `decrypt_with_crlf` keeps its last byte across a delimiter, so that a line feed right after one is taken
  for a second delimiter (`LinesFoundExact`): then, for every cipher, decrypting does not give back the text
  (`DecryptUndoesExact`, `DecryptFails`).
* `encrypted_with_crlf` writes nothing after the last line, so that messages can follow one another exactly if
  the cipher makes nothing of the empty text (`WiresJoinExact`).
* A client that sets a limit drops what is under way beyond it, while the broker counts from when it learns of
  it (`CrossingQuota`).
* `>` also matches no token at all, and a permission for `a.*` lets a user subscribe to `a.>`
  (`CoverageExact`, `PermissionIsWidened`). `ListCoverageExact` says which subscriptions a list of permissions
  covers, `SafeSubscriptionExact` that exactly the others can bring a subject that is not permitted. Without a `>`
  the server's check is enough (`CheckSuffices`).
* `validate_subject` says that tokens are alphanumeric, but one alphanumeric character in a token is enough
  (`SymbolsAreAccepted`).
* Both threads of a connection may ask for its shutdown (`BothShutDown`), exactly when the pinging one finds
  the flag down while the listening one has read it and not yet written it (`BothShutDownExact`).

## Model

| member | source | states |
|---|---|---|
| Camaras.Camara.QuitarIncidente | camara/src/camara/camara.rs:187-201 | the scan removes exactly the first occurrence and keeps the order of the rest |
| Camaras.QuitarPrimeroQuita | camara/src/camara/camara.rs:187-201 | from a list without repetitions exactly that incident disappears |
| CentralDeCamaras.Central.AvisaLindantesIncidenteCancelado | camara/src/camara/central_de_camaras.rs:182-209 | whatever the order of the map, each camera in range discounts one, and exactly those that reach nothing left publish "ahorro" once |
| CentralDeCamaras.Central.ProcesarPendiente | camara/src/camara/central_de_camaras.rs:85-137 | the two nested loops compute the same table and the same set of publications in every order |
| CentralDeCamaras.Central.ProcesarCancelado | camara/src/camara/central_de_camaras.rs:138-174 | the same for a cancel, with counters that dip below zero meanwhile |
| CentralDeCamaras.Central.ProcessIncidents | camara/src/camara/central_de_camaras.rs:60-179 | a payload that does not parse, a repeated one or an "activo" changes and publishes nothing; any other makes one step of the specification |
| CentralDeCamaras.Central.NuevaCamara | camara/src/camara/central_de_camaras.rs:331-354 | a fresh identifier, a camera saving energy, one publication |
| CentralDeCamaras.Central.EliminarCamara | camara/src/camara/central_de_camaras.rs:358-409 | neighbours discount once per incident of the camera, then it goes; nothing changes if it or the file is missing |
| CentralInvariante.GrabaSiiAlcanzada | camara/src/camara/central_de_camaras.rs:78-174 | with right counters a camera records iff a live incident reaches some camera within its neighbourhood, itself included |
| CentralInvariante.GrabaSiiAlcanzadaEn | camara/src/camara/central_de_camaras.rs:78-174 | the same on coordinates: both differ by at most the neighbour area and the incident area |
| CentralInvariante.PendienteConserva | camara/src/camara/central_de_camaras.rs:85-137 | a pending incident keeps every list, counter and state equal to the one counted from scratch |
| CentralInvariante.CanceladoExacto | camara/src/camara/central_de_camaras.rs:138-174 | a cancel keeps them right iff its position covers every camera that the incident reaches, and every further camera it covers has no neighbour |
| CentralInvariante.MismaPosicionCancelaBien | camara/src/camara/central_de_camaras.rs:138-174 | a cancel at the incident's own position always does |
| CentralInvariante.AltaExacta | camara/src/camara/central_de_camaras.rs:331-354 | adding a camera keeps them right iff no live incident reaches it, itself or through a neighbour |
| CentralInvariante.BajaExacta | camara/src/camara/central_de_camaras.rs:358-409 | removing a camera keeps them right iff the neighbour area read again selects the same neighbours or it has no incidents |
| CentralCorridas.PasoExacto | camara/src/camara/central_de_camaras.rs:60-409 | any one event keeps the counters right iff it is admissible |
| CentralCorridas.CorridaExacta | camara/src/camara/central_de_camaras.rs:60-409 | they are right in every state of a run iff every event of the run is admissible |
| CentralCorridas.GrabaTrasCorrer | camara/src/camara/central_de_camaras.rs:60-409 | after every admissible run a camera records iff, on coordinates, a live incident is within the incident area of some camera within its neighbour area |
| CentralCorridas.AltaAlAlcance | camara/src/camara/central_de_camaras.rs:331-354 | a camera that is added beside an open incident saves energy |
| CentralAvisos.CorridaSosiega | camara/src/camara/central_de_camaras.rs:60-409 | in every run, suitable cancels or not, a camera that saves energy lists nothing and counts at most 0, and no list repeats an incident |
| CentralAvisos.UnAvisoPorCambio | camara/src/camara/central_de_camaras.rs:85-174 | after every run, suitable cancels or not, a fresh message publishes exactly one message per camera that changed and no other, iff it does not cancel over a camera that saves energy with a counter of 0 |
| CentralAvisos.UnAvisoEnOrden | camara/src/camara/central_de_camaras.rs:85-174 | with right counters: iff it does not cancel over a camera that saves energy |
| CentralAvisos.AhorroDeMas | camara/src/camara/central_de_camaras.rs:138-174 | a camera that saves energy and a cancel over it: "ahorro" is published and nothing changes |
| CentralAvisos.EnDeuda | camara/src/camara/central_de_camaras.rs:138-174 | a cancel over a neighbour alone leaves a counter of -1, and a cancel over that camera then publishes nothing for it |
| CentralAvisos.BajaAvisaCambios | camara/src/camara/central_de_camaras.rs:381-389 | after every run a removal publishes "ahorro" exactly for the cameras that fall asleep, whatever area the file holds |
| CentralCorridas.ReentregaInocua | camara/src/camara/central_de_camaras.rs:69-76 | a run ends in the state of the run with first occurrences only, "activo" dropped |
| CentralCorridas.DepurarSinRepetidos | camara/src/camara/central_de_camaras.rs:69-76 | and that run holds no repetition |
| MonitorCamaras.MapaSegunAvisos | sistema_monitoreo/src/sistema_monitoreo/sistema_monitoreo.rs:51-76 | whatever messages arrive, a camera is on the map iff some "ahorro" about it has no later removal; its place is that of the first of these, its state that of the last message about it |
| MonitorCamaras.ReplicaPaso | sistema_monitoreo/src/sistema_monitoreo/sistema_monitoreo.rs:51-76 | a step's publications, in any order the central may choose, turn the replica of the old table into that of the new |
| MonitorCamaras.EcoInocuo | sistema_monitoreo/src/sistema_monitoreo/sistema_monitoreo.rs:51-76 | each message repeated any number of times in a row changes nothing |
| MonitorCamaras.ReplicaFiel | camara/src/camara/central_de_camaras.rs:331-409 | after every run the monitor's map is the central's map of position and state, repetitions or not |
| ReplicaReinicio.RecorridoInocuo | sistema_monitoreo/src/sistema_monitoreo/sistema_monitoreo.rs:51-76 | messages about cameras that keep their places and do not come back may be delivered again in any way that skips nothing and ends with the last one: the map is the same |
| ReplicaReinicio.ReplicaTrasReinicios | camara/src/camara/central_de_camaras.rs:331-409 | the publications of every run of the central are such messages: however often the server started again meanwhile, each run delivering an interval of the stream without a gap, once the end is delivered the map is the central's |
| ReplicaReinicio.ReplicaTrasReinicio | camara/src/camara/central_de_camaras.rs:331-409 | in particular after any suffix is delivered a second time |
| Text.SplitJoin | src/servidor/structs/jet_stream/js.rs:157-183 | splitting at commas undoes joining comma-free fields |
| Text.NormalTwice | src/servidor/structs/jet_stream/js.rs:248-252 | collapsing white space twice is collapsing it once |
| Text.IsWhiteIs | src/servidor/structs/jet_stream/js.rs:248-252 | white space is that of Unicode, by codes |
| Text.PrintIs | src/servidor/structs/jet_stream/js.rs:157-169 | numbers are written in decimal digits, the most significant first |
| Text.ValueMore | src/servidor/structs/jet_stream/js.rs:243-263 | a digit more multiplies the number read by ten and adds its value |
| Text.ParseUsizeExact | src/servidor/structs/jet_stream/js.rs:243-263 | a number is read iff it is decimal digits, at least one, after a plus sign or not, and below 2 to the 64th |
| FileProcessing.CsvFile.UpdateCsvFile | src/servidor/structs/jet_stream/file_processing.rs:18-56 | the loop replaces the lines of the key in place, or appends |
| FileProcessing.UpsertAt | src/servidor/structs/jet_stream/file_processing.rs:18-56 | every other line keeps its place and its key |
| FileProcessing.UpsertIsUpdate | src/servidor/structs/jet_stream/file_processing.rs:18-56 | with unique keys an update is one map update, and keys stay unique |
| FileProcessing.UpsertsSimulateMap | src/servidor/structs/jet_stream/file_processing.rs:18-56 | any sequence of updates agrees with the same sequence on a map |
| FileProcessing.ReadWhatWasWritten | src/servidor/structs/jet_stream/file_processing.rs:8-15 | lines without line ends are read back as they were written |
| FileProcessing.LinesReadBackExact | src/servidor/structs/jet_stream/file_processing.rs:8-56 | lines are read back as they were written iff none holds a line feed or ends with a carriage return |
| FileProcessing.ReadUnended | src/servidor/structs/jet_stream/file_processing.rs:8-15 | a last line without a line end is read too |
| JetStreamFormat.ParseJsData | src/servidor/structs/jet_stream/js.rs:243-263 | the loop returns the name, the subject and every message field with a number, in order; too few fields are an error |
| JetStreamFormat.ParsedDataLine | src/servidor/structs/jet_stream/js.rs:157-169 | the line of a stream is read back with the same numbers and texts with white space collapsed |
| JetStreamFormat.ReadBackExact | src/servidor/structs/jet_stream/js.rs:157-169 | its messages come back iff none of them holds a comma |
| JetStreamFormat.SecondSaveIsIdentity | src/servidor/structs/jet_stream/js.rs:243-263 | what was read once is written and read without change |
| JetStreamFormat.ReadBackConsumer | src/servidor/structs/jet_stream/js.rs:186-201 | the line of a consumer gives back its name, delivery subject and acknowledgement |
| JetStreams.JetStream.StoreMsg | src/servidor/structs/jet_stream/js.rs:102-111 | the message gets the next number, goes to every consumer's queue, and both lines are written |
| JetStreams.JetStream.AddConsumer | src/servidor/structs/jet_stream/js.rs:125-134 | a known name changes nothing; a new one is appended and the relation line written |
| JetStreams.JetStream.Ack | src/servidor/structs/jet_stream/js.rs:137-147 | the first consumer of the name, and no other, changes its acknowledgement and its line; an unknown name is an error, and so is a thread that has ended, which leaves the file as it was |
| JetStreams.LoadFileStorage | src/servidor/structs/jet_stream/js.rs:265-321 | the load loops compute the streams of the three files and rewrite the consumers' lines |
| JetStreamLoad.LoadRestores | src/servidor/structs/jet_stream/js.rs:265-321 | from files that hold the streams, loading rebuilds them in order: name, first subject, messages, counter, and consumers as they were last written |
| JetStreamLoad.LoadExact | src/servidor/structs/jet_stream/js.rs:265-321 | what is loaded is as the memory would be restored iff every consumer in memory is as it was last written |
| JetStreamRuns.StoreKeeps | src/servidor/structs/jet_stream/js.rs:102-111 | storing keeps files and memory in step |
| JetStreamRuns.CreateKeeps | src/servidor/structs/command_executor.rs:815-830 | creating a stream keeps them in step; an existing one changes nothing |
| JetStreamRuns.JoinedKeeps | src/servidor/structs/command_executor.rs:833-853 | so does creating a consumer, new or again in its stream; what is written of it says 0 |
| JetStreamRuns.AckKeeps | src/servidor/structs/command_executor.rs:869-891 | acknowledging keeps them in step |
| JetStreamRuns.PublishKeeps | src/servidor/structs/command_executor.rs:519-522 | so does a publication, stored by every stream that matches |
| JetStreamRuns.PublicationStored | src/servidor/structs/command_executor.rs:519-522 | a stream stores a publication, with the next number and for every consumer, iff any one of its subjects matches; otherwise it does not change |
| JetStreamRuns.RestartKeeps | src/servidor/structs/jet_stream/js.rs:204-321 | a restart rebuilds the streams with the acknowledgements that were written last, leaves the files as they are, and keeps them in step |
| JetStreamRuns.AgreesAfter | src/servidor/structs/command_executor.rs:833-891 | a consumer in memory is as it was last written after a restart and after its acknowledgements; creating it again leaves it so iff it was as new; no other command makes a difference |
| JetStreamRuns.LoadAfterRun | src/servidor/structs/jet_stream/js.rs:102-321 | after any run from nothing, restarts and consumers created again included, loading rebuilds the streams with the consumers as last written; this is what is in memory iff they agree, as they do if no consumer was created twice |
| JetStreamRuns.FilesReread | src/servidor/structs/jet_stream/file_processing.rs:8-56 | and the text of the files gives back their lines |
| JetStreamRecreate.OneStreamEach | src/servidor/structs/jet_stream/js.rs:274-294 | whatever the files hold, no consumer name is loaded into two streams |
| JetStreamRecreate.RecreationExact | src/servidor/structs/jet_stream/consumer.rs:135-177 | after creating a consumer, loading gives what is in memory iff its name is used in no other stream, the consumer in memory is as new and all others are as written; from files in step: iff its name is new or it is the same with nothing acknowledged |
| JetStreamRecreate.AcknowledgedAndCreatedAgain | src/servidor/structs/jet_stream/consumer.rs:135-177 | a run from nothing: created, acknowledged, created again; the next load forgets the acknowledgement |
| Consumers.ConcurrentConsumer.ProcessMessagesWithTimeout | src/servidor/structs/jet_stream/consumer.rs:60-75 | the recursion ends, for every sequence of events, after at most 5 - contador sends |
| Consumers.ConcurrentConsumer.ProcessMessages | src/servidor/structs/jet_stream/consumer.rs:49-92 | the receive loop does what the specification does with the whole queue |
| Consumers.OutputIsStuttered | src/servidor/structs/jet_stream/consumer.rs:49-110 | for every queue and every sequence of events the output is a prefix of the messages not skipped, in order, each one or more times in a row; all of them without disconnection |
| Consumers.FourRepeatsInALife | src/servidor/structs/jet_stream/consumer.rs:60-75 | a thread repeats at most four times in its life |
| Consumers.RepetitionsExact | src/servidor/structs/jet_stream/consumer.rs:60-75 | a message that waits is sent again exactly once per timeout that comes before anything else, as long as fewer than five sends were made |
| Consumers.SentAgainIff | src/servidor/structs/jet_stream/consumer.rs:60-75 | a message not acknowledged in time is sent again iff fewer than five sends were made in the thread's life |
| Consumers.LeftBehind | src/servidor/structs/jet_stream/consumer.rs:60-92 | a new thread and a client that never answers: five copies of the first message, one of the second, and both are passed |
| Consumers.IdsDoNotMatter | src/servidor/structs/jet_stream/consumer.rs:60-92 | events that differ only in the numbers of the acknowledgements have the same outcome |
| Consumers.OneAckOneMessage | src/servidor/structs/jet_stream/consumer.rs:60-92 | without timeouts as many messages are passed as acknowledgements came |
| Consumers.LateAckExact | src/servidor/structs/jet_stream/consumer.rs:60-92 | for a client that acknowledges every copy in order: the acknowledgement that passes a message carries its number iff as many came before it as copies of earlier messages were sent, and otherwise an earlier number |
| Consumers.LateAckPassesNext | src/servidor/structs/jet_stream/consumer.rs:60-92 | a message sent twice, both copies acknowledged: the second acknowledgement, with the first message's number, passes the next message |
| Consumers.FourRepeatsHappen | src/servidor/structs/jet_stream/consumer.rs:60-75 | four repetitions do happen |
| Consumers.NoRepeatsAfterFive | src/servidor/structs/jet_stream/consumer.rs:66-72 | after five sends each message is sent once only, whatever happens |
| Consumers.LastAckGrows | src/servidor/structs/jet_stream/consumer.rs:78-92 | the last acknowledgement never goes back |
| Consumers.AcknowledgedIff | src/servidor/structs/jet_stream/consumer.rs:78-92 | a message counts as acknowledged iff the thread goes on after it |
| Consumers.FreshOfDense | src/servidor/structs/jet_stream/consumer.rs:80-86 | of numbers that follow one another exactly those below the last acknowledgement are skipped |
| Consumers.FreshExact | src/servidor/structs/jet_stream/consumer.rs:80-86 | whatever the numbers, a message is skipped iff its number is below the last acknowledgement or below that of a message before it |
| Delivery.SentIsInterval | src/servidor/structs/jet_stream/consumer.rs:49-110 | a run sends an interval of numbers from the loaded acknowledgement on, with the texts of the queue, to the end if the queue was drained |
| Delivery.RunGrows | src/servidor/structs/command_executor.rs:519-891 | over the commands of a run a stream only gets messages, each goes to the end of a consumer's queue, and its acknowledgement in memory is the one of before or one that a command gave |
| Delivery.RunWrites | src/servidor/structs/command_executor.rs:833-891 | the acknowledgement that a load after the run gives is the last one of the consumer, or 0 if it was created again since |
| Delivery.JoinedIsNew | src/servidor/structs/command_executor.rs:833-853 | a consumer created under a new name starts with an empty queue and nothing acknowledged |
| Delivery.AtLeastOnce | src/servidor/structs/jet_stream/js.rs:86-321 | over any number of runs of the server, each cut anywhere, even before a send, and followed by a load of the files, consumers created again included, with acknowledgements only of numbers that were sent: one drained run has every message since the consumer joined sent to it, up to white space |
| CommaExact.LoadsExactly | src/servidor/structs/jet_stream/js.rs:157-263 | whatever the texts, each message is loaded as its part before the first comma, followed by what its other parts are taken for |
| CommaExact.CommaSkipsExact | src/servidor/structs/jet_stream/consumer.rs:78-92 | a thread that takes all that is loaded sends a message iff its number is not below the last acknowledgement and no part of an earlier message is taken for one with a greater number |
| CommaRun.CommaReloads | src/servidor/structs/jet_stream/js.rs:157-263 | two messages, the first with a comma, are loaded as three, one under a number that the text named |
| CommaRun.CommaLosesAMessage | src/servidor/structs/jet_stream/consumer.rs:78-92 | then the last message is never sent, though all that is sent is acknowledged |
| Subjects.SubjectMatchesToken | src/commons/subject.rs:1-22 | the two iterators decide: as many tokens, each equal or `*`, or a `>` reached behind tokens that fit |
| Subjects.MatchesItself | src/commons/subject.rs:1-22 | a pattern matches its own text |
| Subjects.MatchesThrough | src/commons/subject.rs:1-22 | matching is transitive when the middle has no `>` |
| Subjects.CoverageExact | src/servidor/structs/user_permissions.rs:19-24 | a permission that admits the text of a subscription covers all it can receive iff the subscription has no `>`, or the permission has one no later than the shortest subject received |
| Subjects.PermissionIsWidened | src/servidor/structs/user_permissions.rs:19-24 | `a.*` admits the subscription `a.>`, which receives a subject not permitted |
| Coverage.ListCoverageExact | src/servidor/structs/user_permissions.rs:19-24 | a list of permissions covers all a subscription can receive iff for every length up to one past the longest permission some permission admits the subscription with its free tokens set to one that occurs in no permission |
| Coverage.CoverTogether | src/servidor/structs/user_permissions.rs:19-24 | `a`, `a.*` and `a.*.>` cover `a.>` together, though none does alone |
| Subjects.ValidateSubject | src/servidor/structs/command_executor.rs:954-993 | accepted iff every token has a letter, digit or wildcard, `>` is last and `*` alone |
| Subjects.ValidSubjectExact | src/servidor/structs/command_executor.rs:954-993 | the same by codes of characters: each token has a letter, a digit or a wildcard of ASCII, `>` is last and `*` alone |
| Subjects.PlainSubjectAccepted | src/servidor/structs/command_executor.rs:967-974 | what is written with letters and digits between its dots is accepted |
| Subjects.SymbolsAreAccepted | src/servidor/structs/command_executor.rs:967-974 | a token with other characters is accepted |
| CommandExecutors.CommandExecutor.Sub | src/servidor/structs/command_executor.rs:216-249 | an entry without limit is appended iff the subject is valid and permitted, even when the connection is gone |
| CommandExecutors.CommandExecutor.Unsub | src/servidor/structs/command_executor.rs:268-336 | the first entry of that connection and sid is removed or limited; an unknown one is an error |
| CommandExecutors.CommandExecutor.WritePublishMsg | src/servidor/structs/command_executor.rs:508-571 | each connected entry that matches gets the message once, in order, and counts down; used-up ones go, unless the publisher is gone; an entry with limit 0 does not get it, nor do those after it: the subtraction comes first and overflows |
| CommandExecutorRuns.SubAddsExactly | src/servidor/structs/command_executor.rs:216-249 | an entry is added iff the subject is valid and permissions are off or the connection has one to subscribe that matches, whichever |
| CommandExecutorRuns.PubWritesExactly | src/servidor/structs/command_executor.rs:573-606 | a publication writes to every connected entry that matches iff it comes from a consumer, permissions are off or the client has one to publish that matches, whichever; otherwise it changes nothing |
| CommandExecutorRuns.WritesEntry | src/servidor/structs/command_executor.rs:537-562 | entry by entry, in their order: a connected one that matches gets the subject and the payload under its sid |
| CommandExecutorRuns.CountedEntries | src/servidor/structs/command_executor.rs:508-571 | each entry that got the message has one less to go; those with none leave unless the publisher is gone |
| CommandExecutorRuns.UnsubExactly | src/servidor/structs/command_executor.rs:268-336 | the first entry of the connection and the sid is limited or removed, no other |
| CommandExecutorRuns.UnsubUnknown | src/servidor/structs/command_executor.rs:268-336 | without such an entry nothing changes |
| CommandExecutorRuns.ClosingExactly | src/servidor/structs/command_executor.rs:656-682 | a shutdown takes the connection and its entries away, and only these; a connection that is dropped keeps its entries |
| CommandExecutorRuns.ClosedReceivesNothing | src/servidor/structs/command_executor.rs:656-682 | after a shutdown no run writes anything more to the connection |
| CommandExecutorRuns.NonInterference | src/servidor/structs/command_executor.rs:216-571 | over every run a subscription, its unsubscriptions and its removal leave the rest of the table, its order and all other deliveries as if it had never been |
| CommandExecutorRuns.QuotaExact | src/servidor/structs/command_executor.rs:291-315 | over every run an undisturbed subscription with limit n receives exactly the first n messages published for it, or all there are, and is removed iff n came; without limit it receives all |
| CommandExecutorRuns.SubscriptionLife | src/servidor/structs/command_executor.rs:216-571 | over the whole life of a subscription: from SUB on it receives all that is published for it, and from `UNSUB sid n` the next n messages and no more |
| CommandExecutorRuns.ZeroExact | src/servidor/structs/command_executor.rs:537-570 | a limit of zero is left in the table iff `UNSUB` sets it or a publisher that is gone uses one up |
| CommandExecutorRuns.ZeroHappens | src/servidor/structs/command_executor.rs:537-570 | a run in which a publisher that is gone uses up a limit and the next publication cannot be counted |
| CommandExecutorRuns.OnlyAllowedSubjects | src/servidor/structs/command_executor.rs:216-230 | over every run, refused subscriptions included: if the permissions of the users cover what the server grants, connections receive only permitted subjects |
| CommandExecutorRuns.CheckSuffices | src/servidor/structs/command_executor.rs:216-230 | they do in every run without open subscriptions: what is granted without a `>` is covered |
| CommandExecutorRuns.RefusedIsHarmless | src/servidor/structs/command_executor.rs:216-230 | a subscription that is not covered, and is refused, changes nothing |
| CommandExecutorRuns.SafeSubscriptionExact | src/servidor/structs/command_executor.rs:216-249 | an accepted subscription can bring a subject that is not permitted iff the permissions do not cover it |
| Protocol.PubRoundTripExact | cliente/src/cliente/client.rs:671-705 | the server reads subject, reply and length as the client wrote them, and the payload whole iff it has no line end; under a length of 0 an empty one |
| Protocol.MsgRoundTrip | cliente/src/cliente/client.rs:104-125 | the client reads subject, size and reply as the server wrote them |
| Protocol.AckRoundTripExact | cliente/src/cliente/suscriptor_handler.rs:24-26 | the server, which cuts the command at the first blank, reads an acknowledgement as the client meant it iff neither name has a dot, a blank or a line end and they do not spell the prefix |
| Protocol.BlankInName | src/servidor/structs/command_executor.rs:996-1014 | the acknowledgement of a consumer with a blank in its name is not understood |
| Rotation.RoundIsFair | cliente/src/cliente/client.rs:51-98 | k messages for k matching subscriptions: each gets one, their order is restored less the used-up ones, the others keep theirs |
| Rotation.CountsAreEven | cliente/src/cliente/client.rs:51-98 | without limits, after any d messages the i-th of k got d / k, and one more iff i is below the remainder |
| Client.NatsClient.HandleSubscriptionUpdate | cliente/src/cliente/client.rs:39-102 | the first match gets the message and its acknowledgement is written; it goes to the end, counted down, or away; with limit 0 it is away too and the subtraction overflows |
| Client.UpdatedGives | cliente/src/cliente/client.rs:39-102 | the first match gets the payload trimmed, and the reply; with a consumer without the number in front, which is acknowledged |
| Client.UpdatedTurns | cliente/src/cliente/client.rs:84-98 | then it goes to the end with one less to go, or away |
| Client.UpdatedIgnores | cliente/src/cliente/client.rs:51-55 | without a match nothing happens |
| Client.PlainKeepsNumber | cliente/src/cliente/client.rs:60-82 | a plain subscription gets "0.5" as it is |
| Client.NatsClient.Unsubscribe | cliente/src/cliente/client.rs:761-819 | the first subscription of the number is limited or removed; an unknown one is an error |
| Client.UnsubscribedGives | cliente/src/cliente/client.rs:761-819 | the others stay where they are |
| Client.DeliveredTextExact | cliente/src/cliente/client.rs:60-71 | a stored text reaches the subscriber, trimmed, iff it does not begin with its message's number and a dot; the acknowledgement always names the number |
| Client.NumberTakenTwice | cliente/src/cliente/client.rs:60-71 | message 0 with the text "0.x" arrives as "x" |
| Client.EachGetsOne | cliente/src/cliente/client.rs:39-102 | a series of messages as long as the matching subscriptions gives each exactly one |
| Client.NumbersApart | cliente/src/cliente/client.rs:39-102 | whatever is subscribed, unsubscribed and received, no two subscriptions of the list share a number |
| Client.HappenedLast | cliente/src/cliente/client.rs:39-102 | a history goes on event by event |
| Client.SharedEvenly | cliente/src/cliente/client.rs:39-102 | so after any such history d messages are shared out among the k matching subscriptions without limits as d / k each and one more for the first d % k |
| Quota.HeardExact | cliente/src/cliente/client.rs:39-102 | whatever else the client is subscribed to, a subscription that alone matches gets the first messages, as many as its limit allows |
| Quota.CrossingQuota | cliente/src/cliente/client.rs:761-819 | from SUB through `UNSUB sid n`: of what the broker writes for it the client gets what it handled before it set its own limit and the next n; all of it iff at most n were left |
| Framing.Reader.ReadUntilCrlf | cliente/src/cliente/client.rs:322-343 | one read gives the bytes before the first CR-LF and leaves those after it, or fails at the end |
| Framing.Reader.EscucharMensaje | src/servidor/structs/oyente_cliente.rs:154-185 | the server's reader meets the same specification |
| Framing.CutGlueExact | cliente/src/cliente/client.rs:322-343 | pieces joined by CR-LF are found again iff none holds one |
| Framing.ReadAllIsCut | src/servidor/structs/oyente_cliente.rs:154-185 | reading again and again gives all pieces that a CR-LF ends |
| Crypto.EncryptedWithCrlf | icwt_crypto/src/icwt_crypto/crypto.rs:127-144 | the encrypted lines joined by CR-LF |
| Crypto.DecryptWithCrlf | icwt_crypto/src/icwt_crypto/crypto.rs:96-124 | the pieces, cut with a last byte that outlives the delimiter, decrypted and joined; an error if any fails |
| Crypto.LinesFoundExact | icwt_crypto/src/icwt_crypto/crypto.rs:96-144 | for every cipher the encrypted lines are found again iff none holds a CR-LF and none after the first starts with a line feed |
| Crypto.DecryptUndoesEncrypt | icwt_crypto/src/icwt_crypto/crypto.rs:96-144 | so decrypting undoes encrypting whenever they are |
| Crypto.DecryptUndoesExact | icwt_crypto/src/icwt_crypto/crypto.rs:96-144 | for every cipher that can be undone, decrypting gives back the text iff the lines are found and the last one is not encrypted to nothing unless it is empty |
| Crypto.DecryptFails | icwt_crypto/src/icwt_crypto/crypto.rs:96-144 | a cipher that makes nothing of the empty text, under which no two lines come back if the second is not empty |
| Crypto.WiresJoinExact | icwt_crypto/src/icwt_crypto/crypto.rs:127-144 | a message that ends a line and the one after it are on the wire as both together iff the cipher makes nothing of the empty text |
| Crypto.TwoMessagesDecrypted | cliente/src/cliente/client.rs:1078-1099 | with such a cipher two messages in a row are decrypted to both, iff the lines are found |
| Crypto.ReadersFindLines | icwt_crypto/src/icwt_crypto/crypto.rs:127-144 | the readers find the ended lines even if some start with a line feed |
| Crypto.CutsAgreeExact | icwt_crypto/src/icwt_crypto/crypto.rs:99-116 | `decrypt_with_crlf` cuts as the readers do iff no piece after the first starts with a line feed |
| Monitoreo.SistemaDeMonitoreo.NuevoIncidente | sistema_monitoreo/src/sistema_monitoreo/sistema_monitoreo.rs:537-568 | uninterrupted, the four sections of a creation; a failed publication uses up the number |
| Monitoreo.SistemaDeMonitoreo.EliminarIncidente | sistema_monitoreo/src/sistema_monitoreo/sistema_monitoreo.rs:590-614 | uninterrupted, the three sections of a removal; an unknown incident is an error |
| Monitoreo.SistemaDeMonitoreo.Resolviendo | sistema_monitoreo/src/sistema_monitoreo/sistema_monitoreo.rs:115-155 | a report adds the drone while there are fewer than two, and with two marks the incident and returns the payload with the pair |
| Monitoreo.SistemaDeMonitoreo.AtenderReporte | sistema_monitoreo/src/sistema_monitoreo/sistema_monitoreo.rs:335-418 | the callback publishes, sets the incident active and starts a timer |
| MonitoreoCorridas.RelojTermina | sistema_monitoreo/src/sistema_monitoreo/sistema_monitoreo.rs:385-417 | over every interleaving, once a timer has woken its incident is never listed again nor published as active again |
| MonitoreoCorridas.UnParPorIncidente | sistema_monitoreo/src/sistema_monitoreo/sistema_monitoreo.rs:115-155 | over every interleaving all "activo" publications of an incident name the same two distinct drones in the same order, and both reported it |
| MonitoreoCorridas.ListadosConEntrada | sistema_monitoreo/src/sistema_monitoreo/sistema_monitoreo.rs:468-502 | over every interleaving a listed incident has an entry of at most two distinct drones, but for the last section of its creation, and a cancelled one is not listed |
| MonitoreoCorridas.NumerosUnicos | sistema_monitoreo/src/sistema_monitoreo/sistema_monitoreo.rs:537-568 | over every interleaving an incident is opened once, before anything else is published about it, and the next number was never used |
| MonitoreoCorridas.ActivoUnaVezExacto | sistema_monitoreo/src/sistema_monitoreo/sistema_monitoreo.rs:115-155 | over every interleaving an incident is published as active exactly as often as a report arrives while it is listed with two drones |
| MonitoreoCorridas.ActivoDosVeces | sistema_monitoreo/src/sistema_monitoreo/sistema_monitoreo.rs:115-155 | a run in which an incident is published as active twice and gets two timers |
| MonitoreoCierres.CierreExacto | sistema_monitoreo/src/sistema_monitoreo/sistema_monitoreo.rs:590-614 | over every interleaving, when the drones of an incident removed by hand are looked up, its cancel can still be published iff they are there or a timer of it sleeps |
| MonitoreoCierres.NuncaCerrado | sistema_monitoreo/src/sistema_monitoreo/sistema_monitoreo.rs:545-614 | removed before its creation has noted it, an incident stays open whatever happens |
| MonitoreoCentral.CorridaFiel | sistema_monitoreo/src/sistema_monitoreo/sistema_monitoreo.rs:537-614 | while no timer wakes, every cancel published repeats the position of an open incident |
| MonitoreoCentral.CancelesExactos | sistema_monitoreo/src/sistema_monitoreo/sistema_monitoreo.rs:385-614 | over every interleaving, timers included, all cancels of open incidents suit the cameras iff those of the timers do |
| CamarasYMonitor.CentralConoceAbiertos | camara/src/camara/central_de_camaras.rs:60-179 | for every interleaving the central that handled all publications holds alive exactly the incidents published and not cancelled, every listed one among them |
| CamarasYMonitor.CamarasSiguenExacto | camara/src/camara/central_de_camaras.rs:60-179 | for every interleaving the cameras' lists, counters and states are right after every message iff each timer that cancels an open incident finds the drone at a place that suits |
| CamarasYMonitor.GrabaSiRelojesSirven | camara/src/camara/central_de_camaras.rs:60-179 | then a camera records iff an open incident reaches it or a neighbour |
| CamarasYMonitor.CamarasSiguenAlMonitor | camara/src/camara/central_de_camaras.rs:60-179 | in particular as long as no timer has woken |
| CamarasYMonitor.DronLejos | sistema_monitoreo/src/sistema_monitoreo/sistema_monitoreo.rs:388-408 | an interleaving in which a drone resolves an incident from afar: nothing is open any more and a camera still records |
| DosVidas.SegundaVida | camara/src/camara/central_de_camaras.rs:69-76 | two lives of the monitor, any interleavings, one central: the opening of a second-life incident is handled iff its number was not opened in the first; alive are those opened in either and cancelled in none, numbers of the first where they were then |
| DosVidas.SegundaVidaExacta | camara/src/camara/central_de_camaras.rs:69-76 | the central knows all open incidents of the second life where they are iff each has a new number, or one that is still open from the first at the same place |
| DosVidas.PrimeroIgnorado | camara/src/camara/central_de_camaras.rs:69-76 | the first incident of the second life is not known if that of the first has come and gone |
| Cerrojos.TrabaExacta | sistema_monitoreo/src/sistema_monitoreo/sistema_monitoreo.rs:331-502 | whatever threads there are, some schedule leads to threads that wait for each other iff among them are a callback of a resolving drone and one of the detector that publishes |
| Cerrojos.TrabaParaSiempre | sistema_monitoreo/src/sistema_monitoreo/sistema_monitoreo.rs:331-502 | threads that wait for each other never move again |
| Connection.PingGood | src/servidor/structs/ping.rs:48-128 | every section of the pinging thread, from any good state, keeps its one shutdown, the listener's, and the one late ping |
| Connection.ListenerGood | src/servidor/structs/oyente_cliente.rs:46-136 | so does every section of the listening thread |
| Connection.StaleNeedsMiss | src/servidor/structs/ping.rs:63-104 | over every interleaving a stale connection is reported, and its shutdown asked for, only after a pong that did not come in time |
| Connection.PongsKeepOpenFromStart | src/servidor/structs/ping.rs:63-71 | a client that answers every ping in time and does not disconnect keeps its connection: nobody raises the flag, reports or asks for a shutdown |
| Connection.PongGoesOn | src/servidor/structs/ping.rs:63-71 | after a pong the next ping is sent |
| Connection.MissShutsDown | src/servidor/structs/ping.rs:72-104 | without one, and with the flag down, the thread reports, asks for the shutdown, raises the flag and ends |
| Connection.PassedOnExactly | src/servidor/structs/oyente_cliente.rs:46-68 | over every interleaving the executor gets exactly the texts whose first word is none of PONG, SEND_PING and SHUTDOWN, whole and in order |
| Connection.FailuresReported | src/servidor/structs/oyente_cliente.rs:69-130 | a read that fails is reported once; a disconnection raises the flag and asks for the shutdown |
| Connection.LockHolds | src/servidor/structs/oyente_cliente.rs:70-92 | while the pinging thread holds the lock the listening one waits |
| Connection.PongHandedOver | src/servidor/structs/oyente_cliente.rs:50-55 | a pong is handed over, or ends the thread if the pinging one is gone |
| Connection.FlagEndsBoth | src/servidor/structs/ping.rs:104-128 | a thread that finds the flag up ends and says nothing |
| Connection.ClosedOnce | src/servidor/structs/ping.rs:48-128 | over every interleaving each thread asks for at most one shutdown, the pinging one only after its error, and at most one ping is sent with the flag up |
| Connection.FlagStaysUp | src/servidor/structs/oyente_cliente.rs:70-121 | the flag is never lowered |
| Connection.BothShutDown | src/servidor/structs/oyente_cliente.rs:70-121 | two shutdowns do happen |
| Connection.BothShutDownExact | src/servidor/structs/oyente_cliente.rs:70-121 | over every interleaving both threads ask only if the pinging one found the flag down while the listening one was about to raise it; once both have finished one has asked, and both have iff that happened |
| Connection.NoInternalFromClient | src/servidor/structs/oyente_cliente.rs:50-68 | over every interleaving no text of the client reaches the executor as SHUTDOWN or SEND_PING |
| Connection.NoInternalFromStart | src/servidor/structs/oyente_cliente.rs:50-68 | in particular from the start: no text handed over is SHUTDOWN or SEND_PING up to its first blank |

## Left out

- Coordinates are `real`, not `f64`; `numlindantes` and incident numbers are unbounded, not `i32`.
- The text of incident, camera and drone messages (numbers printed and parsed): messages are values; a payload that does not parse is `None` for the central.
- Numbers of incidents in drone messages are parsed as `i32`: `Reportar` takes a number.
- Locks are assumed to succeed. In the central publications succeed; in the monitor their failure is a parameter of each section.
- `eliminar_camara` reads `arealindante` from the file again: the value read is a parameter.
- QuotaExact: the connection stays open, publishers are connected, writes succeed and nobody subscribes or unsubscribes under the same connection and sid; limits are at least 1 (`ZeroExact` says how 0 appears).
- NonInterference: the subscription is not made again in the run.
- OnlyAllowedSubjects: permissions do not change during the run (`CONNECT` is not modelled).
- SafeSubscriptionExact: the connection is there and no entry of the table has limit 0 (`ZeroExact`).
- LoadAfterRun: a consumer name is used in one stream only (`OneStreamEach` and `RecreationExact` cover the rest), names and subjects are trimmed and free of commas and line ends, messages are free of commas and line ends, numbers fit in a `usize`.
- AtLeastOnce: it is about sending, not about arrival; the queue's channel and the acknowledgements' channel are sequences, and a sequence that ends is a disconnection. The runs are those of `LoadAfterRun`: texts without commas and line ends, names and subjects that are trimmed and free of both, consumer names used in one stream only, numbers that fit (`CommaLosesAMessage` shows why).
- CamarasSiguenExacto: cameras are neither added nor removed meanwhile (`AltaExacta` and `BajaExacta` say when that is harmless).
- Ack: in `JetStreamRuns` every consumer's thread takes acknowledgements; a thread ends only when its consumer is dropped.
- NumbersApart: subjects that the client refuses are not subscribed to.
- In `MonitoreoCorridas` a section is one step, whether or not its locks are to be had; which threads may wait for ever is in `Cerrojos`, over the locks alone.
- When the image detector's callback fails to publish it uses its number again for the next incident; in `Monitoreo` the number is skipped, as it is for an incident of the user interface.
- LateAckExact: the client's acknowledgements all arrive, in order; which of them are lost on the way is not modelled.
- ReplicaTrasReinicios: each run of the server goes on from a message that the run before delivered or from the one after it.
- SegundaVida: the central has seen no incident before the first life.
- CrossingQuota: the client's other subscriptions do not match the subjects; if they did, what its limit drops would go to them. The limit is at least 1.
- The executor's streams are values in `JetStreamRuns`; only one stream at a time is an object (`JetStreams.JetStream`), so sharing between the executor's streams is not captured.
- A consumer's object and its thread are modelled apart: the channel between them is the queue; a thread that ended is not.
- The broker's table and the client's list hold values, which the methods replace; the client map holds only which connections are there.
- Commands arrive parsed in `CommandExecutors`; the texts of PUB, MSG and acknowledgements are in `Protocol`; those of SUB, UNSUB, CONNECT and the JSON of streams and consumers are not.
- Texts are sequences of characters in `Protocol` and of bytes in `Framing` and `Crypto`; UTF-8 is not modelled, nor AES, keys and passwords: a cipher is a pair of functions.
- `hpublish` and `HMSG`, logging, user data, the conversion of errors, TCP, files that cannot be opened, poisoned locks, sleeps and clocks.
- The threads that watch for images, the calls to the image service and the user interfaces.
- The battery, position and state of drones in the monitor's map, which no other part reads.
