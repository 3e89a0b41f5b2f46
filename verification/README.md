# Aperio client: a verified model

Aperio is a reverse tunnel. A client process keeps WebSocket connections to a
server, the server sends requests, raw TCP streams and topic messages down
them, and the client relays those to local backends. This project models the
parts of that client where correctness depends on more than one function: the
protocols between tasks, the structures several tasks share, and the codecs and
parsers whose two directions have to agree.

| module | what it models |
|---|---|
| `Drain` | closing a connection on purpose: Draining, a Ping behind it, the Pong, the wait for what is in flight, Close; client and server over two ordered channels |
| `Reconnect` | the reconnect loop: pacing of dials, the candidate list, the rotation over it |
| `Readiness` | the shared count of live connections per named service |
| `E2e`, `SealedRelay` | the end-to-end handshake, counter nonces, sealing and opening, and both relay directions against a middle that may do anything |
| `HalfClose` | one relayed TCP stream: two relay tasks, the task waiting for them, EOF, abort, teardown |
| `Filters`, `Duplicates`, `Bus`, `Faces`, `Agreement` | the message bus: reference-counted filters, the duplicate window, the MQTT and HTTP faces that hold filters, what the server is subscribed to |
| `Interleaved`, `Schedules` | the same subscriptions with every handler taken apart into its lock sections and frames |
| `Flow` | the pause switch of a stream and the registry of switches |
| `Adaptive` | adaptive concurrency over a semaphore |
| `RunCap` | the slot claim of a message-triggered command |
| `EditDistance`, `Suggest` | the spelling guess for an unknown configuration key |
| `Template` | `${VAR}` and `${VAR:-default}` expansion |
| `Frames` | the length-prefixed binary frames |
| `Egress` | the egress proxy value, its URL, and the bypass list |
| `Common`, `Text`, `Utf8` | shared types, the string operations and UTF-8 the above are built from |

How it is built. Code that updates things in place is a class or a method with
a loop, proved against a function on values (`Bus.MessageBus`,
`Reconnect.ReconnectLoop`, `Adaptive.Controller`, `E2e.Sealer`,
`EditDistance.DistanceWithin`, `Template.ExpandVars`). Code whose difficulty is
the interleaving of tasks is a state machine: a datatype of events, one per
atomic step of the source, a function `Next`, and `Exec` over any list of
events, so that a lemma about `Exec` speaks about every schedule. Clocks,
random values and environment lookups are parameters. The cryptographic
primitives are function parameters with their contracts as preconditions
(`Exchanges`: the key exchange commutes; `Opens`: opening undoes sealing;
`LabelsApart`: keys derived under the two labels differ; `Unforged`: nothing
opens that was not sealed under that key and nonce, section 2.8 of RFC 8439).

Where a stated property fails, the code is kept as it is, a lemma shows an
input, and another lemma gives the exact condition:

- a wait that ends on any Pong newer than the clock reading is safe exactly when
  no heartbeat older than the Draining is still unanswered
  (`DrainIsSafeExactlyWhen`, `OldHeartbeatBreaks`); the comment at
  aperio-client/src/service.rs:596-610 admits the case, and its own argument,
  for the Pong to the drain's own Ping, holds of every run (`OwnPongCloses`);
- the length filter of the edit distance counts bytes while the table counts
  characters, so it can hide an answer outside ASCII (`FilterIsExactWhen`,
  `FilterHidesAnEmoji`, `PicksTheNearestWhen`, `EmojiHidesPath`);
- a reload never unsubscribes a filter the file no longer names
  (`ReloadAgreesWhen`, `ReloadForgets`);
- a handler's frames can be overtaken by another's, or never sent because its
  face was stopped, leaving a wanted filter unsubscribed or an unwanted one
  subscribed (`StepStraysExactly`, `AgreedExactlyWhen`, `WantedButUnsubscribed`,
  `UnwantedButSubscribed`, `StoppedAndDeaf`);
- stopping a face loses its holds (`HoldsAreSessions`, `StopLeaks`);
- `[]:80` parses to an empty host whose URL does not parse back
  (`UrlRoundTrip`, `EmptyBracketsParse`);
- a JSON part of 2^32 bytes or more does not survive its prefix
  (`SplitOfJoined`, `LongJsonIsTakenForBody`);
- an index that wraps repeats a candidate unless the list's length divides 2^64
  (`TriesAllExactlyWhen`, `WrapMissesOne`);
- a failed open ends a stream without a TcpClose, and a frame behind the EOF
  aborts it (`EveryExitUnregisters`, `FailedOpenSendsNoClose`, `AbortMeansLost`,
  `LateFrameAborts`);
- registering one stream id twice hides a live stream's switch (`RegistryRun`,
  `ReusedIdIsHidden`).

## Model

| member | source | states |
|---|---|---|
| `Drain.SoundRun` | aperio-client/src/service.rs:575-630 | in every run each dispatched request is in exactly one place: on its way, being worked on, responded, or finished; its response is queued before it is finished |
| `Drain.DispatchStops` | aperio-client/src/service.rs:582-592 | once the server has read the Draining, the set of dispatched requests never changes again |
| `Drain.OwnPongCloses` | aperio-client/src/service.rs:596-630 | over every run from the start, whatever other heartbeats are in flight: if the wait ended with the Pong to the drain's own Ping read and both waits were on time, then at Close everything ever dispatched is received and finished, and the Close is the last frame queued with every response ahead of it |
| `Drain.OwnPongBehindOldHeartbeat` | aperio-client/src/service.rs:596-610 | a run with an older heartbeat unanswered at the clock reading whose wait still ends on the own Pong: the law above covers more than guarded drains |
| `Drain.DrainIsSafeExactlyWhen` | aperio-client/src/service.rs:581-630 | from the moment the drain reads the clock, every on-time continuation closes with everything dispatched received, finished and answered ahead of the Close, if and only if every Ping and Pong still in flight is behind the Draining |
| `Drain.GuardedCloses` | aperio-client/src/service/spec.rs:542-561 | the if-direction of the row above: with that guard any Pong newer than the clock reading will do, and every on-time continuation closes complete |
| `Drain.UnguardedLoses` | aperio-client/src/service.rs:596-610 | the only-if direction: without the guard there is a run that closes on time and loses a request, and it is constructed |
| `Drain.OldHeartbeatBreaks` | aperio-client/src/service.rs:596-610 | a concrete run from the start in which an older heartbeat's Pong ends the wait too early |
| `Drain.DeadlinesEndTheWaits` | aperio-client/src/service/spec.rs:509-561 | each wait can be ended by its deadline, and nothing else makes the drain late |
| `Reconnect.ReconnectLoop.Pass` | aperio-client/src/service.rs:760-873 | one pass through the loop: with neither flag left over at the head it refines a flagless step, leaves no flag behind, and stands down exactly on a 503 to a spare connection |
| `Reconnect.ReconnectLoop.Learn` | aperio-client/src/service.rs:294-308 | the loop over announced servers computes the list the candidate lemmas speak about |
| `Reconnect.ReconnectLoop.Candidate` | aperio-client/src/service.rs:130-134 | the dialled URL is the one at the index modulo the list, or the single configured one for an empty list |
| `Reconnect.EveryDelay` | aperio-client/src/service.rs:833-866 | over every history of outcomes the next wait is between 100 ms and 60 s, and its band follows from the history alone: 100-500 ms after an announced shutdown, 1-2 s after a 503, else the upper half of the doubling ceiling for the current streak |
| `Reconnect.AttemptIsStreak` | aperio-client/src/service.rs:833-866 | the attempt counter is the number of counted failures since the last healthy stretch, saturated |
| `Reconnect.StreakSkipsFull` | aperio-client/src/service.rs:846-856 | any number of refusals as full leaves the backoff where it was |
| `Reconnect.CapIsCeiling` | aperio-client/src/service.rs:917-936 | stopping after six doublings and saturating the counter never change the documented 1 s, 2 s, 4 s ... 60 s schedule |
| `Reconnect.BackoffFillsTheUpperHalf` | aperio-client/src/service.rs:929-938 | a delay can be drawn if and only if it lies in the upper half of the cap |
| `Reconnect.ShortDelaysFill` | aperio-client/src/service.rs:940-962 | the two short delays take exactly the values of their bands |
| `Reconnect.StandsDownWhen` | aperio-client/src/service.rs:776-783 | the loop ends by itself if and only if it is a spare connection and some pass was refused as full |
| `Reconnect.CandidatesKeepTheConfigured` | aperio-client/src/service.rs:294-308 | in every run the configured list is a prefix of the candidates, every learnt entry is dialable and new, and the list stays within its fence |
| `Reconnect.CandidatesAreExactly` | aperio-client/src/service.rs:294-308 | a candidate is configured or was announced and dialable; below the fence every dialable announced server is a candidate |
| `Reconnect.ListedAreCandidates` | aperio-client/src/service.rs:294-308 | when a server announces urls joined by commas, one of them is a candidate below the fence if and only if it is configured or starts with `ws://` or `wss://` |
| `Reconnect.AnnouncedAcross` | aperio-client/src/service.rs:299 | a comma is a cut between announcements |
| `Reconnect.AnnouncedOne` | aperio-client/src/service.rs:299 | between commas one url is announced, its outer blanks gone |
| `Reconnect.DialableMeans` | aperio-client/src/service.rs:300 | dialable is `ws://` or `wss://` in front of anything |
| `Reconnect.LearntInOrder` | aperio-client/src/service.rs:299-306 | new servers join at the end in the order announced |
| `Reconnect.RotationIsFair` | aperio-client/src/service.rs:869-873 | from any reachable point, n dials over an unchanged list of n candidates go to n different positions if and only if the index does not wrap meanwhile or n divides 2^64 |
| `Reconnect.EachIsDialled` | aperio-client/src/service.rs:869-873 | then every candidate is dialled within one round |
| `Reconnect.SingleStaysFirst` | aperio-client/src/service.rs:869-873 | with a single server the index never moves, so a list that grows later starts at the first |
| `Reconnect.TriesAllExactlyWhen` | aperio-client/src/service.rs:869-873 | the index arithmetic behind it, both directions |
| `Reconnect.WrapMissesOne` | aperio-client/src/service.rs:869-873 | at the wrap with three candidates a position is repeated |
| `Readiness.CountsAreExact` | aperio-client/src/service.rs:320-328 | for any connections opening and closing in any order, name by name, each count equals the number of live pairs and the key is absent exactly when that is zero |
| `Readiness.TakeBackKeeps` | aperio-client/src/service.rs:744-753 | taking a name back finds its count at least one, so it never wraps, and keeps the counts exact |
| `Readiness.AnnounceKeeps` | aperio-client/src/service.rs:320-328 | announcing a name keeps the counts exact |
| `Readiness.AllClosedIsEmpty` | aperio-client/src/service.rs:744-753 | once every connection has taken its names back the map is empty |
| `Readiness.OpenThenClose` | aperio-client/src/service.rs:320-328 | opening a connection raises each name by the times it is carried, and closing it leaves the map as it was found |
| `E2e.RefusedExactlyWhen` | aperio-client/src/e2e.rs:70-73 | a frame is refused if and only if it is not 36 bytes or does not start with the four magic bytes |
| `E2e.KeysCross` | aperio-client/src/e2e.rs:70-101 | both ends complete with each other's frame, what one sends under is what the other receives under, and each key is the agreed secret derived under the pre-shared key and its direction's label (section 6.1 of RFC 7748, section 2 of RFC 5869) |
| `E2e.WrongPskMismatches` | aperio-client/src/e2e.rs:77-86 | ends with different pre-shared keys never share a key, whatever frames they were handed |
| `E2e.DirectionsApart` | aperio-client/src/e2e.rs:80-91 | whatever frames and pre-shared keys, an end never sends under its own receive key nor under the other end's send key |
| `E2e.NoncesDiffer` | aperio-client/src/e2e.rs:126-130 | nonces are twelve bytes, the counter in the first eight lowest byte first and four zeros, and equal only for equal counters |
| `E2e.LittleEndianRoundTrip` | aperio-client/src/e2e.rs:126-130 | the counter's bytes determine it |
| `E2e.Sealer.Seal` | aperio-client/src/e2e.rs:132-139 | the n-th seal uses the n-th nonce; at the counter's end it refuses and stays there |
| `E2e.Opener.Open` | aperio-client/src/e2e.rs:141-149 | the n-th open uses the n-th nonce, whether or not it succeeds |
| `SealedRelay.WrittenIsPrefix` | aperio-client/src/tcp.rs:237-250 | whatever the middle delivers, and whether or not the keys crossed, in both directions what was written is a prefix of what the other end sealed, chunk by chunk and byte by byte, and no nonce is used twice under one key |
| `SealedRelay.HandshakeThenPrefix` | aperio-client/src/tcp.rs:442-476 | the same from the handshakes on, for any frames handed to either end as the other's and any pre-shared keys |
| `SealedRelay.OpenedIsNextChunk` | aperio-client/src/tcp.rs:237-250 | a frame that opens is exactly the next unsealed chunk of the end whose key it is |
| `SealedRelay.InOrderIsWritten` | aperio-client/src/tcp.rs:184-188 | the next frame in order is always opened and written, so stopping is never spurious |
| `SealedRelay.MismatchWritesNothing` | aperio-client/src/e2e.rs:70-101 | with keys that do not match the peer's nothing is ever written |
| `SealedRelay.WrongPskWritesNothing` | aperio-client/src/e2e.rs:77-86 | from the handshakes on, with different pre-shared keys nothing is ever written at either end |
| `SealedRelay.RelayedIsWritten` | aperio-client/src/tcp.rs:184-188 | a chunk read is sealed under the next nonce, and its frame delivered in turn is written at the other end |
| `SealedRelay.FailedOpenIsNoticed` | aperio-client/src/tcp.rs:237-250 | a frame that does not open is not written and stops the loop |
| `SealedRelay.FailedOpenStops` | aperio-client/src/tcp.rs:237-250 | and nothing is written there in any run afterwards |
| `SealedRelay.FailedSealStops` | aperio-client/src/tcp.rs:184-188 | a chunk that cannot be sealed is not sent and ends the sending side |
| `SealedRelay.RunKeeps` | aperio-client/src/tcp.rs:442-476 | the relay invariant over every run |
| `HalfClose.NeverOutOfOrder` | aperio-client/src/tcp.rs:218-259 | in every schedule the bytes written are a prefix of what was queued and the chunks relayed a prefix of what the backend sent |
| `HalfClose.ShutdownAfterEverything` | aperio-client/src/tcp.rs:218-259 | when the write half is shut without a failed open or write, everything queued has been written |
| `HalfClose.HalfCloseIsWhole` | aperio-client/src/tcp.rs:261-275 | a stream that ends without the abort arm, a failure or an earlier backend close has written everything queued; if it ended on EOF and in time, the backend's side ran to its own end with one TcpClose |
| `HalfClose.AbortMeansLost` | aperio-client/src/tcp.rs:261-272 | the abort arm is taken only after the read loop took the registry entry out: on a TcpClose, a stalled frame, or a frame behind the EOF |
| `HalfClose.LosingTheEntryAborts` | aperio-client/src/service/dispatch.rs:527-533 | after a TcpClose, a stall or a frame for a closed channel the entry is gone and the abort arm can be taken |
| `HalfClose.CeilingEndsTheDrain` | aperio-client/src/tcp.rs:268-272 | a drain that outlasts its ceiling is ended |
| `HalfClose.FailuresCanHappen` | aperio-client/src/tcp.rs:96-259 | a failed setup unregisters and sends TcpClose; a failed write, a failed send or a closing backend ends its task |
| `HalfClose.ArrivedIsAccepted` | aperio-client/src/service/relay.rs:53-67 | while the entry is there and the channel open, what is accepted is every frame that arrived, in order |
| `HalfClose.ReadIsSent` | aperio-client/src/tcp.rs:160-215 | what the relay reads is every chunk the backend sent, in order |
| `HalfClose.LateFrameAborts` | aperio-client/src/service/relay.rs:53-67 | a run without a TcpClose in which one frame behind the EOF drops the entry, and what was queued before the EOF is never written |
| `HalfClose.EofDrainsOut` | aperio-client/src/tcp.rs:218-259 | from every reachable state in which the EOF has arrived, what is queued opens and nothing has failed, the write side can be scheduled on to its shutdown with every accepted frame written |
| `HalfClose.BackendOutlivesEof` | aperio-client/src/tcp.rs:261-275 | after EOF the backend's next bytes are still relayed |
| `HalfClose.EveryExitUnregisters` | aperio-client/src/tcp.rs:261-278 | every exit leaves no registry entry and at most one TcpClose, and none is sent exactly when the sending task was killed, for one of three causes: an abort after the entry was lost, the ceiling, or the write side ending first without EOF |
| `HalfClose.NoticedOnlyOnEof` | aperio-client/src/tcp.rs:222-232 | the channel is closed early only on an EOF heard of, or when the entry it would come by is gone |
| `HalfClose.ReceiverGoes` | aperio-client/src/tcp.rs:257-259 | the tunnel-to-backend task ends with its write side shut or killed, and its receiver goes with it |
| `HalfClose.StagesInOrder` | aperio-client/src/tcp.rs:261-278 | the waiting task goes through setup, running, draining, stopping and its end in that order |
| `HalfClose.StoppingFinishes` | aperio-client/src/tcp.rs:274-277 | once stopping it can always finish, and leaves no entry |
| `HalfClose.DrainedFinishes` | aperio-client/src/tcp.rs:265-277 | a drained stream whose backend has ended sends TcpClose once and finishes |
| `HalfClose.FailedOpenSendsNoClose` | aperio-client/src/tcp.rs:237-275 | a finished stream that sent no TcpClose |
| `HalfClose.RunKeeps` | aperio-client/src/tcp.rs:96-278 | the stream invariant over every schedule |
| `Filters.FreshRefines` | aperio-client/src/pubsub.rs:81-98 | the initial list stands for the configured sequence and no holds |
| `Filters.HoldRefines` | aperio-client/src/pubsub.rs:165-180 | one more hold on that pattern, nothing else moves, and it is new exactly when unwanted |
| `Filters.ReleaseRefines` | aperio-client/src/pubsub.rs:183-195 | one hold fewer if there was one, nothing else moves, and the entry goes exactly when the pattern becomes unwanted |
| `Filters.ReloadRefines` | aperio-client/src/pubsub.rs:103-149 | the configured sequence is replaced, duplicates included, and no hold count changes |
| `Filters.ListedIsWanted` | aperio-client/src/pubsub.rs:152-160 | a pattern is on the list if and only if it is configured or held |
| `Filters.PerformRefines` | aperio-client/src/pubsub.rs:81-195 | each operation on the list is its operation on (configured sequence, hold counts) |
| `Filters.RunRefines` | aperio-client/src/pubsub.rs:81-195 | every sequence of operations keeps the list valid and refines the same sequence on the abstract pair |
| `Duplicates.RememberedTail` | aperio-client/src/pubsub.rs:276-293 | over every run the remembered ids are distinct, at most SEEN_MAX, and the tail of what was recorded |
| `Duplicates.LostOnlyBy` | aperio-client/src/pubsub.rs:276-293 | an entry is lost only by its own expiry or by SEEN_MAX recorded from it on |
| `Duplicates.RememberedWithinWindow` | aperio-client/src/pubsub.rs:276-293 | a recorded id is reported while no call outlived it and fewer than SEEN_MAX followed, with no assumption on the order of the clock |
| `Duplicates.ReportedExactlyWithin` | aperio-client/src/pubsub.rs:276-293 | on an ordered clock a call reports a duplicate if and only if that id was recorded within SEEN_TTL and among the last SEEN_MAX |
| `Duplicates.ReportedIsInWindow` | aperio-client/src/pubsub.rs:276-293 | the only-if direction, naming the sighting |
| `Bus.MessageBus.constructor` | aperio-client/src/pubsub.rs:81-98 | the loop builds the fresh list |
| `Bus.MessageBus.SetFilters` | aperio-client/src/pubsub.rs:103-149 | the claiming loop computes the reload: configured replaced, holds kept, true exactly when the configured sequence changed |
| `Bus.MessageBus.HoldFilter` | aperio-client/src/pubsub.rs:165-180 | the list after, every hold count, and true exactly when the pattern was unwanted |
| `Bus.MessageBus.ReleaseFilter` | aperio-client/src/pubsub.rs:183-195 | the list after, every hold count, and true exactly when the pattern becomes unwanted |
| `Bus.MessageBus.UnsubscribeEverywhere` | aperio-client/src/pubsub.rs:198-209 | every attached connection loses that filter on the server and nothing else |
| `Bus.MessageBus.ResubscribeAll` | aperio-client/src/pubsub.rs:263-268 | every attached connection gains the whole filter set |
| `Bus.MessageBus.Attach` | aperio-client/src/pubsub.rs:228-261 | exactly one writer has that id afterwards, the last, subscribed to exactly the wanted set; every other writer is kept |
| `Bus.MessageBus.Detach` | aperio-client/src/pubsub.rs:234-239 | exactly the writers under that id go, the others keep their order |
| `Bus.MessageBus.IsDuplicate` | aperio-client/src/pubsub.rs:276-293 | the pruning loop, the answer and the record, as the run lemmas use them |
| `Bus.MqttSession.Subscribe` | aperio-client/src/messages_mqtt.rs:279-308 | the session then holds exactly what it held and the valid filters asked for, each new one gains exactly one hold and no other count moves, and the server is told as the bus says |
| `Bus.SubscribedAre` | aperio-client/src/messages_mqtt.rs:281-293 | a filter is in the session's list afterwards if and only if it was, or it was asked for and is valid |
| `Bus.ValidTopicFilterMeans` | aperio-config/src/lib.rs:97-121 | levels joined by slashes are a valid filter if and only if the whole is non-empty and at most 512 bytes, and each level is `+`, or `#` at the end, or free of both |
| `Bus.MqttSession.Unsubscribe` | aperio-client/src/messages_mqtt.rs:309-328 | the session keeps exactly what it does not name, and exactly what it names and held loses one hold |
| `Bus.UnsubscribedAre` | aperio-client/src/messages_mqtt.rs:316-321 | the same, filter by filter, on values |
| `Bus.MqttSession.End` | aperio-client/src/messages_mqtt.rs:157-168 | everything the session held loses exactly one hold, and it holds nothing |
| `Faces.AccountedStep` | aperio-client/src/messages_mqtt.rs:279-330 | every handler, stream start and end, reload and face stop keeps the accounts |
| `Faces.SessionAfter` | aperio-client/src/messages_mqtt.rs:279-330 | what each event does to a session: which filters it then holds, and whether it is live |
| `Faces.OpenedAfter` | aperio-client/src/messages_http.rs:146-152 | each opening adds its session and each connection its writer; a stream with an invalid filter changes nothing |
| `Faces.RunIsAccounted` | aperio-client/src/messages_http.rs:176-193 | over every interleaving each hold is a live session's or a leaked one and no session holds a pattern twice |
| `Faces.HoldsAreSessions` | aperio-client/src/pubsub.rs:165-195 | over every run the hold count of each pattern is at least the number of live sessions holding it, and equals it if and only if no face was stopped under a session holding it |
| `Faces.StopLeaks` | aperio-client/src/messages_http.rs:87-90 | a stopped face leaves a hold nobody owns |
| `Agreement.ServerAgrees` | aperio-client/src/pubsub.rs:228-268 | after every run each attached connection's server-side set covers the bus's, and without a reload equals it |
| `Agreement.RunKeeps` | aperio-client/src/pubsub.rs:165-209 | coverage, and agreement without reloads, from any valid state |
| `Agreement.ReloadAgreesWhen` | aperio-client/src/pubsub.rs:103-149 | a reload keeps agreement if and only if it drops no filter that nobody holds |
| `Agreement.ReloadForgets` | aperio-client/src/pubsub.rs:103-149 | a reload after which the server stays subscribed to a filter the process no longer wants |
| `Interleaved.StepStraysExactly` | aperio-client/src/pubsub.rs:165-209 | one event per lock section and per frame, any number of handlers and connections, each of which may be stopped where it stands: a filter that is in order on a connection goes astray in a step if and only if the step is an Unsubscribe for a filter wanted again with no Subscribe still to come there, a Subscribe read before the filter was given up with no Unsubscribe still to come there, a reload dropping it, or the stopping of the one handler that was still to put the server right |
| `Schedules.AgreedWhenQuiet` | aperio-client/src/pubsub.rs:165-268 | over every schedule from a fresh bus, while no such step was taken the server is in step whenever no handler is under way |
| `Schedules.AgreedExactlyWhen` | aperio-client/src/pubsub.rs:198-268 | however the handlers under way are scheduled to their end or stopped, the server is in step then if and only if none of these steps strayed |
| `Interleaved.AstrayStays` | aperio-client/src/pubsub.rs:198-268 | what has gone astray stays so, whatever the handlers under way do, until a new one starts |
| `Interleaved.AttachedAfter` | aperio-client/src/pubsub.rs:228-239 | a connection that comes up is told from then on, and one that goes is not |
| `Interleaved.LaterHoldersStayDeaf` | aperio-client/src/pubsub.rs:165-180 | and a new holder of a wanted filter starts none: the server stays wrong for it too |
| `Schedules.FinishAll` | aperio-client/src/pubsub.rs:198-268 | from every state the handlers under way can all be scheduled to their end by their own steps |
| `Schedules.WantedButUnsubscribed` | aperio-client/src/pubsub.rs:183-209 | a run that ends with nothing under way and a wanted filter unsubscribed: the Unsubscribe of one face behind the Subscribe of another |
| `Schedules.UnwantedButSubscribed` | aperio-client/src/pubsub.rs:244-261 | a run that ends with the server subscribed to a filter nobody wants: the filter set was read before the release and sent after it |
| `Schedules.StoppedBeforeTelling` | aperio-client/src/messages_mqtt.rs:108-111 | from every quiet state, a face stopped between taking a new hold and telling the server leaves the process deaf to that filter with nothing under way |
| `Schedules.StoppedAndDeaf` | aperio-client/src/messages_http.rs:87-90 | such a run from the start, and the next holder of the filter is deaf to it as well |
| `Flow.NoLostWakeUp` | aperio-client/src/flow.rs:38-68 | in every interleaving a parked, unnotified waiter means the stream is paused or a resume is between its store and its notify |
| `Flow.ReturnsSoon` | aperio-client/src/flow.rs:49-68 | once resumed with no further pause the waiter returns within two steps of its own and is never stuck |
| `Flow.HeldWhilePaused` | aperio-client/src/flow.rs:49-68 | while the stream stays paused the waiter does not return |
| `Flow.ParkedSleeps` | aperio-client/src/flow.rs:49-68 | a parked waiter does nothing of its own before it is notified, but for the cap |
| `Flow.CapEndsThePause` | aperio-client/src/flow.rs:60-66 | the safety cap ends the pause with the wait, so the next wait returns at once |
| `Flow.PauseAndResume` | aperio-client/src/flow.rs:38-47 | a pause and a resume take effect at once, and a parked waiter is woken |
| `Flow.RecheckIsNeeded` | aperio-client/src/flow.rs:49-68 | without the second check the wake-up is lost |
| `Flow.RegistryRun` | aperio-client/src/flow.rs:79-130 | a registry entry always names a live stream, and every live stream is found at every moment if and only if no id is registered again while it is live |
| `Flow.ReusedIdIsHidden` | aperio-client/src/flow.rs:121-130 | dropping the older of two guards for one id removes the younger's entry |
| `Adaptive.Controller.constructor` | aperio-client/src/adaptive.rs:117-126 | the controller starts at the configured ceiling, with nothing forgotten |
| `Adaptive.JudgedByTheMean` | aperio-client/src/adaptive.rs:147-164 | the decision from the two counters is halve, grow by one or hold according to the mean of the recorded waits, within floor and ceiling |
| `Adaptive.Controller.TakeVerdict` | aperio-client/src/adaptive.rs:147-164 | the verdict is what the waits recorded since the last one mean on average, unless a counter wrapped, and the window starts over |
| `Adaptive.Controller.Apply` | aperio-client/src/adaptive.rs:179-203 | permits stay conserved even when the semaphore gives up fewer than asked |
| `Adaptive.Controller.Tick` | aperio-client/src/adaptive.rs:206-208 | one tick keeps the accounts, moves by what the window's waits mean and what is free to forget, and reports exactly the changes |
| `Adaptive.PermitsConserved` | aperio-client/src/adaptive.rs:147-208 | over every interleaving of ticks with acquires and releases: current + forgotten = configured, available + held = current, 1 <= current <= configured after each tick |
| `Adaptive.UndisturbedTick` | aperio-client/src/adaptive.rs:147-208 | the ticker's atomic steps with nothing between them are one tick |
| `Adaptive.RequestSteps` | aperio-client/src/adaptive.rs:134-139 | a request takes a permit when there is one and gives it back, and a wait is counted as recorded |
| `Adaptive.NeverAboveConfigured` | aperio-client/src/adaptive.rs:179-203 | even in the middle of a tick no more than the configured permits exist |
| `Adaptive.SlowWindows` | aperio-client/src/adaptive.rs:147-203 | any n windows whose mean wait is slow, with h permits held throughout, give max(1, h, configured / 2^n) |
| `Adaptive.ClearWindows` | aperio-client/src/adaptive.rs:147-203 | any n windows whose mean wait is clear give n permits back, and the ceiling exactly from configured - current on |
| `RunCap.CapHolds` | aperio-client/src/messages_run.rs:117-150 | in every interleaving, spurious exchange failures included, the counter equals the claimed unfinished runs and never exceeds the cap |
| `RunCap.UnracedDispatch` | aperio-client/src/messages_run.rs:121-137 | an unraced dispatch claims a slot if there is one and drops its message otherwise |
| `RunCap.LosingLooksAgain` | aperio-client/src/messages_run.rs:122-130 | a claim that failed works from the value it then saw, and can claim while that is below the cap |
| `RunCap.AtTheCapItDrops` | aperio-client/src/messages_run.rs:122-125 | a dispatch that saw the counter at the cap does nothing but drop its message |
| `RunCap.ArriveAndFinish` | aperio-client/src/messages_run.rs:145-150 | a message that arrives is dispatched, and a run that ends gives its slot back |
| `RunCap.CappedStep` | aperio-client/src/messages_run.rs:145-150 | each step keeps that, and a finish finds the counter above zero |
| `RunCap.ReadWasTrue` | aperio-client/src/messages_run.rs:121-130 | the value a claim works from was the counter's at some moment after the message arrived |
| `RunCap.DroppedOnlyAtCap` | aperio-client/src/messages_run.rs:121-137 | a message is dropped only after the counter stood at the cap while it was being dispatched |
| `EditDistance.TableIsDistance` | aperio-config/src/authoring.rs:65-86 | the table's corner is the least cost over all edit scripts, and the only such number |
| `EditDistance.CheapestScript` | aperio-config/src/authoring.rs:65-86 | a script of that cost exists and is constructed |
| `EditDistance.TableIsLower` | aperio-config/src/authoring.rs:65-86 | no script is cheaper |
| `EditDistance.FillRow` | aperio-config/src/authoring.rs:73-78 | one row computed in place from the row above |
| `EditDistance.RowHoldsALowerCell` | aperio-config/src/authoring.rs:79-81 | every row holds a cell no larger than the answer, which is why the row-minimum exit loses nothing |
| `EditDistance.LengthGapIsLower` | aperio-config/src/authoring.rs:66-68 | the distance is at least the gap in characters |
| `EditDistance.DistanceWithin` | aperio-config/src/authoring.rs:65-86 | Some(d) only for the true distance within max; None exactly when the byte lengths are too far apart or the distance is past max |
| `EditDistance.AsciiFilterLosesNothing` | aperio-config/src/authoring.rs:65-68 | on ASCII, Some(d) if and only if d is the distance and within max |
| `EditDistance.FilterIsExactWhen` | aperio-config/src/authoring.rs:65-68 | on any text, that holds if and only if the byte lengths are within max or the distance is not |
| `EditDistance.FilterHidesAnEmoji` | aperio-config/src/authoring.rs:65-68 | one character replaced in a four-letter key, at distance one, that is not found within one |
| `Suggest.Suggest` | aperio-config/src/authoring.rs:94-116 | the first key equal up to case and dashes, else the first of those at the least true edit distance within the budget whose byte length is within it too, and nothing exactly when there is none |
| `Suggest.PicksTheNearestWhen` | aperio-config/src/authoring.rs:94-116 | for any text, that is the truly nearest key if and only if there is a same key or the nearest key's byte length is within the budget |
| `Suggest.AsciiPicksTheNearest` | aperio-config/src/authoring.rs:94-116 | on ASCII keys it always is |
| `Suggest.EmojiHidesPath` | aperio-config/src/authoring.rs:94-116 | an unknown key for which the nearest known one is passed over |
| `Suggest.ChosenIsUnique` | aperio-config/src/authoring.rs:94-116 | that names at most one candidate |
| `Suggest.SameKeyMeans` | aperio-config/src/authoring.rs:104-108 | same key: character by character the same letter in either case, or a dash for an underscore |
| `Text.LowerIs` | aperio-config/src/authoring.rs:100-107 | lower case folds the twenty-six ASCII letters and nothing else |
| `Template.ExpandVars` | aperio-config/src/authoring.rs:24-61 | the scan computes the meaning of the pieces the text reads as, or the first error with its place |
| `Template.Resolve` | aperio-config/src/authoring.rs:35-53 | one reference: split, trimmed, checked, looked up, defaulted |
| `Template.VariableMeans` | aperio-config/src/authoring.rs:35-53 | `${NAME}` is its value when set and an error naming it when not |
| `Template.DefaultedMeans` | aperio-config/src/authoring.rs:36-46 | `${NAME:-default}` is the value when set and the default only when not |
| `Template.MeaningAcross` | aperio-config/src/authoring.rs:28-60 | a template means its parts one after the other |
| `Template.NameIs` | aperio-config/src/authoring.rs:40 | a name is ASCII letters, digits and underscores, at least one |
| `Template.NamePartIs` | aperio-config/src/authoring.rs:36-39 | the name ends at the first `:-` |
| `Text.TrimmedIs` | aperio-config/src/authoring.rs:36-39 | trimming leaves a middle no blank touches the ends of, with only blanks taken off |
| `Text.SpacesAre` | aperio-config/src/authoring.rs:36-39 | the characters trimmed, written out |
| `Template.UnclosedMeans` | aperio-config/src/authoring.rs:30-34 | a reference that is never closed is reported at the byte it opens |
| `Template.BadNameMeans` | aperio-config/src/authoring.rs:40-44 | a reference whose trimmed name is not a name is reported with its inside |
| `Template.ReadPrint` | aperio-config/src/authoring.rs:24-61 | printing well-formed pieces and reading them returns the same pieces |
| `Template.ExpandPrint` | aperio-config/src/authoring.rs:24-61 | expanding a printed template equals evaluating its pieces, so substituted values are never rescanned |
| `Template.PrintRead` | aperio-config/src/authoring.rs:24-61 | whatever is read is well formed and prints back to the text up to the first fault |
| `Template.PlainTextIsUnchanged` | aperio-config/src/authoring.rs:24-61 | text without an opening expands to itself |
| `Frames.EncodeBinaryFrame` | aperio-client/src/protocol.rs:192-202 | refused exactly for an id over 255 bytes, else what decodes to the same frame |
| `Frames.EncodeFullResponseFrame` | aperio-client/src/protocol.rs:145-162 | the one-pass encoder is the two layers nested |
| `Frames.DecodeOfEncoded` | aperio-client/src/protocol.rs:227-237 | decoding an encoded frame returns tag, id and payload |
| `Frames.EncodedOfDecode` | aperio-client/src/protocol.rs:227-237 | re-encoding a decoded frame returns the same bytes |
| `Frames.FrameLayout` | aperio-client/src/protocol.rs:192-202 | tag, id length, id and payload, byte by byte |
| `Frames.FullLayout` | aperio-client/src/protocol.rs:145-162 | the JSON length lowest byte first, the JSON and the body, byte by byte |
| `Utf8.KnownEncodings` | aperio-client/src/protocol.rs:227-237 | one scalar of each encoded length, and the overlong, surrogate and out-of-range forms that are refused (section 3 of RFC 3629) |
| `Frames.SplitOfJoined` | aperio-client/src/protocol.rs:165-172 | splitting undoes joining if and only if the JSON is shorter than 2^32 bytes |
| `Frames.LongJsonIsTakenForBody` | aperio-client/src/protocol.rs:145-172 | a JSON part of 2^32 bytes splits to an empty one, and all of it is taken for body |
| `Frames.JoinedOfSplit` | aperio-client/src/protocol.rs:165-172 | joining undoes every successful split |
| `Frames.FullFrameRoundTrip` | aperio-client/src/protocol.rs:145-172 | both layers together return id, JSON and body, if and only if the JSON is shorter than 2^32 bytes |
| `Frames.CutIsRefused` | aperio-client/src/protocol.rs:165-172 | every cut before the end of the JSON part is refused by one of the decoders |
| `Frames.CutOfTheBody` | aperio-client/src/protocol.rs:165-172 | a cut in the body loses that part of the body and nothing else |
| `Frames.CutOfEncoded` | aperio-client/src/protocol.rs:227-237 | what any cut of a frame decodes to |
| `Egress.ParsedProxy` | aperio-config/src/egress.rs:41-107 | every parsed proxy has a port in range and a host without slash or at sign, and its URL reads back if and only if the host is printable |
| `Egress.UrlRoundTrip` | aperio-config/src/egress.rs:149-158 | parsing the URL gives the same host and port, IPv6 literals in brackets included, if and only if the host is non-empty and its brackets do not mislead |
| `Egress.CredentialRoundTrip` | aperio-config/src/egress.rs:41-107 | user, password, host and port are all read back if and only if the user has no colon, the credential no slash, and the host is one the URL can carry (section 2 of RFC 7617) |
| `Egress.SchemeDecides` | aperio-config/src/egress.rs:46-66 | in any case, `http` is read on, `https` is refused and every other scheme is refused by name |
| `Egress.BareValue` | aperio-config/src/egress.rs:42-49 | without a scheme the value is read as it stands, outer blanks are ignored, and nothing at all is refused |
| `Egress.DefaultPort` | aperio-config/src/egress.rs:177-180 | a host alone gets port 80 |
| `Egress.SlashesAtTheEnd` | aperio-config/src/egress.rs:69 | slashes at the end are ignored |
| `Egress.SlashIsRefused` | aperio-config/src/egress.rs:70-75 | a slash anywhere before is a path and refused |
| `Egress.HostPortShapes` | aperio-config/src/egress.rs:160-182 | the last colon divides host and port, and each malformed shape has its own refusal |
| `Egress.PortIs` | aperio-config/src/egress.rs:184-188 | a port is digits worth at most 65535 after at most one plus sign |
| `Egress.DigitsAre` | aperio-config/src/egress.rs:184-188 | digits are worth what they say in base ten, and anything else is no number |
| `Egress.CredentialShapes` | aperio-config/src/egress.rs:77-101 | no host and an empty credential are refused; a credential without a colon is a user with an empty password |
| `Egress.EmptyBracketsParse` | aperio-config/src/egress.rs:160-182 | the host that does not survive can be parsed |
| `Egress.PortRoundTrip` | aperio-config/src/egress.rs:184-191 | every printed port reads back |
| `Egress.ParseBypass` | aperio-config/src/egress.rs:224-240 | the loop collects the entry of each comma-separated part |
| `Egress.ListIsCut` | aperio-config/src/egress.rs:226-230 | a comma is a cut between entries and a blank part is no entry |
| `Egress.EntryMeans` | aperio-config/src/egress.rs:231-237 | `.d` and `*.d` are the domain d, and a plain d is that host |
| `Egress.EntryIgnores` | aperio-config/src/egress.rs:227 | case, trailing dots and outer blanks make no difference to an entry |
| `Egress.DomainIsCovered` | aperio-config/src/egress.rs:258-267 | off loopback, a dotted or starred entry covers a host if and only if the host lies in the domain |
| `Egress.NameIsCovered` | aperio-config/src/egress.rs:258-267 | off loopback, a plain entry covers that name alone |
| `Egress.NormalizedIgnores` | aperio-config/src/egress.rs:259 | case and trailing dots make no difference to a host |
| `Egress.LoopbackIsCovered` | aperio-config/src/egress.rs:260-262 | the four loopback names are covered by every list |
| `Egress.SuffixIsLabels` | aperio-config/src/egress.rs:258-267 | a suffix entry matches if and only if its labels are the host's last labels |
| `Egress.CoversMeans` | aperio-config/src/egress.rs:258-267 | a host is covered if and only if some entry names it or a domain it lies in |

## Left out

- Sockets, TLS, DNS, process spawning, logging and the async runtime: their completions are events of the state machines, in any order.
- Timers: a deadline is an event that may happen at any time after it is armed, so how long a wait takes is not modelled.
- ChaCha20-Poly1305, X25519, HKDF, zlib, JSON, base64 and the MQTT packet codec: libraries; the cryptographic ones are function parameters with their contracts assumed.
- Text of error and log messages: errors are constructors that carry what the message names.
- The server: in `Drain` it reads in order, answers in order and dispatches nothing after Draining; in `Bus` its Subscribe adds and its Unsubscribe removes; its refusals and limits are not modelled.
- Failed sends to a connection's writer: in `Bus`, `Faces`, `Agreement`, `Interleaved` and `Schedules` every frame is delivered.
- Interleaving inside a face's handler: in `Faces` and `Agreement` each handler is one step; `Interleaved` and `Schedules` take the handlers apart, and there a connection that replaces its namesake is a Detach and an Attach, and any handler may be stopped, not only a face's.
- A middle that knows a session key, as one that re-keys an exchange without a pre-shared key does: `Unforged` excludes it.
- A reload drain of zero: that connection closes without the handshake, so `Drain` says nothing about it.
- Other in-flight work in the drain: `Drain` counts requests; streams and long-lived relays are not among what the drain waits for.
- Update in place in `Drain`, `HalfClose`, `Flow`, `Readiness` and `RunCap`: modelled on values, one atomic operation per event, because the interleaving is what is hard there.
- Memory order of atomics: every atomic operation is taken as sequentially consistent.
- Byte indices in `expand_vars`: the scan is over characters, which agree because every delimiter is ASCII; the reported position is still the byte offset.
- The safety cap on a pause: giving up is an event that may happen at any time, its 30 seconds are not modelled.
- Cancellation of the reconnect loop: it ends the run at that point, so a cancelled run is a prefix of an uncancelled one.
- Width of attempt, index and length counters other than those that wrap or saturate in the source: unbounded.
- `auth.rs` validation, `check.rs`, `init.rs`, `api.rs`, `serve.rs`, `proxy_protocol.rs`, `dial.rs`, `health_report.rs`, `bind_tunnels.rs` and the dashboard: they would add members that follow from one function each.
