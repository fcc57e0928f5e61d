# Verified model of the ce-rs SDK

ce-rs is the Rust SDK of a compute-exchange node. Most of it is plumbing; this project models the parts
whose behaviour is not obvious from any one function, and proves what they promise together. `dafny verify
dfyconfig.toml` checks all of it.

## What is modelled

**The event-stream decoder** (`Sse*.dfy`). `Sse` says what the decoder of `src/sse.rs` computes, `SseObject`
is the object with its five mutable fields, each method proved against `Sse`. `SseChunking` gives one law
for every way of cutting a stream into pushes: the pushes do what one push of the chunks *glued* together
does, where gluing puts back the carriage return wherever a cut parted it from its line feed. `SseBlocks`
reads off the lines of a frame what they do, and with that says exactly when such a cut shows and what an
unterminated last line changes, and `SseCuts` does so for any number of cuts; `SseFrames` gives the frames of a stream as a function of its lines.
`SseRoundTrip` writes frames and reads them back, `SseStandard` is an independent rendering of sections 9.2.5
and 9.2.6 of the WHATWG HTML Living Standard to which the decoder is related on every stream, and `SseStream`
is the typed stream above it.

**The lane** (`Lane*.dfy`). Callers, the writer thread, the reader thread and the node share a pending map,
a subscriber list, an id counter and a death flag. `Lane` is the transition system, a step being one lock
section, one atomic access or one channel operation, with the lane-then-HTTP methods of `src/lib.rs` as its
callers. `LaneInvariant` and `LaneSteps` prove an invariant of every interleaving, `LaneTheorems` and
`LaneProgress` what follows, `LaneReasons` why a call leaves the lane and why a lane dies, and `LaneWitnesses`
gives runs that show what does not follow. `LaneObject` is the shared state as an object with one method a lock
section. In `LaneThreads` and `LaneCallers` the reader, the writer, `op`, `watch_stream` and a messaging method
work on that object and on the channels, with variables of their own and in the program's order; `LaneWorld` lets
the others run in between and holds every piece of work to a step of the system.

**Serving** (`Serve*.dfy`, `Dedup.dfy`). The reconnecting serve loop, the advertiser behind its readiness
gate, and a node that may go down at any step and forgets its subscriptions when it does, as one transition
system; the exact arithmetic of the bounded set that keeps requests from being answered twice; recovery in
every run; when the gate can still open; what the run alone says of waits, of messages and of the end
(`ServeRuns`); and the loop as it stands in the program (`ServeObject`), proved to be a run of the system with its
own variables agreeing with it throughout.

**Locating** (`Sorting.dfy`, `Spread*.dfy`, `Locat*.dfy`). Filtering, scoring, stable sorting, the spread
over fault domains, and calling with failover. The spread is proved best-first, balanced, conserving and
optimal by an exchange argument, and the order in which it takes candidates is given exactly. `LocateScores`
says what each part of an atlas entry does to a score. Scores are real numbers.

**Objects** (`Object*.dfy`). Splitting and reassembling, the bounded upload in any order and the bounded
download whose guarded loop leaves open which chunk arrives when. The hash and the manifest's encoding are
parameters; where a theorem needs it, it asks that no two of the byte strings *involved* have the same hash.

**The adapter relay** (`Adapter*.dfy`) and **topic lists** (`TopicQuery.dfy`): the two threads of an
interposed flow, as a transition system and as loops over endpoints and a handler, and how lists of topics are
written into a path and read back.

## Where the code and its comments differ

The model follows the code.

- A cut between a carriage return and its line feed adds a blank line, although `src/sse.rs` promises that
  boundaries do not matter. Whatever follows, such a cut is harmless if and only if no frame is under way
  (`SseChunking.SafeCuts`). For the text that does follow, it is harmless if and only if the frame could as
  well have ended there: its blank line comes before more data, another type or another id; or only a type was
  set, and it is set again, or dispatches nothing, or is the default (`SseBlocks.CutIsHarmlessIff`, with a cut
  that shows in `CutSplitsFrame`). Of many cuts that must hold of each in turn, on what the cuts before it have
  left (`SseCuts.CutsAreHarmlessIff`).
- `finish` feeds an unterminated last line, which its comment says is discarded: it does what two line feeds
  would (`SseChunking.FinishIsTwoLineFeeds`). The line is discarded if and only if it is immaterial
  (`SseBlocks.FinishDiscardsIff`), and a data line never is (`FinishDispatchesTheLastLine`).
- An empty `event` value yields an empty type where the standard says `message`: types agree if and only if no
  ended block of the stream has data and an empty value in its last event line (`SseStandard.TypesAgreeExactly`,
  `EmptyTypeDiffers`).
- A byte-order mark is not taken off, so the first line behind it is not recognised. That shows unless the line
  makes no difference (`SseStandard.RefinesStandard`, `BomHidesFrame`; with the types, `AgreesIff`).
- The reader's drain is there so that no caller waits for ever, but `op` tests for death before it
  registers, so one can register after the drain and wait for ever (`LaneWitnesses.LateOpsExist`,
  `LaneTheorems.LateOpsHang`; exactly these, `ResumesUnlessLate`). So can `watch_stream` on its first use, which
  runs such an op to start the events; a stream it has returned always ends (`NoStrandedStream`). Serving connects
  and subscribes through these ops, so `ServeRecovery.EveryRunRecovers` is about runs in which they return.
- The reader does not ask whether a reply's id was ever sent. An op whose request cannot be sent is a transport
  failure although a reply may have been routed to it (`LaneWitnesses.AnsweredUnaskedExists`). That can happen to
  such an op only (`LaneTheorems.LaneGoneMeansNoAnswer`), and does exactly when a reply with its id was heard since
  it registered (`RoutedIff`).
- A request is answered again when it is redelivered after the set was cleared, which is first possible at
  the 100001st token (`Dedup.AnsweredTwice`; exactly when, `RedeliveryAnsweredIffCleared`).
- A shutdown before readiness does not by itself keep the advertiser silent (`ServeTheorems.ShutdownUnobserved`).
  The first advertisement can still come if and only if the advertiser was not stopped, and the flag is raised or
  the serve loop has not returned (`ServeGate.MayAdvertiseIff`): a shutdown silences it by being observed at the
  gate (`ServeTheorems.ShutdownAtTheGate`) or by ending the loop first (`ServeGate.SilencedByTheLoop`).
- `spread` fills what is left after one of each domain in rounds, not by score as its comment says
  (`SpreadRounds.RemainderIsNotByScore`). It is by score, however many are asked for, if and only if the scores
  fall along the rounds (`RemainderByScoreIff`).
- The local node is described as preferred, but scores 1 where others may score up to 1.001
  (`LocateTheorems.LocalIsOutranked`). It is returned first if and only if no other eligible node scores more
  than 1, none found before it scores 1 and, when the choice is spread, none that names a fault domain scores 1
  (`LocalFirstIff`; a tie that it loses, `LocalLosesTheTie`).
- `get_object` is described as trustless, but does not compare the manifest with the hash it was asked for
  by (`ObjectTheorems.AnyObjectIsAccepted`). Answered with the manifest of some object it is trustless if and only
  if that manifest has the hash (`TrustlessIff`).
- A flow is to be relayed until either side closes. Without its second thread, which may fail to start, a flow
  whose node has gone waits for the app (`AdapterTeardown.WaitsWithoutRelay`; exactly then, `WaitsIff`).

## Model

| member | source | states |
|---|---|---|
| `SseObject.ScanLine` | src/sse.rs:123-140 | the scan finds the first line and what follows its terminator, and nothing when there is no terminator |
| `Sse.TakeLineSplits` | src/sse.rs:123-140 | a line taken has no terminator in it and, with the terminator and the rest, makes up the text; none is taken exactly from text without a terminator |
| `SseObject.SseDecoder.Push` | src/sse.rs:50-60 | the object's fields and the frames returned are those the specification gives for a push, whatever the fields were |
| `SseObject.SseDecoder.Finish` | src/sse.rs:63-71 | an unterminated last line is fed, then a pending frame is flushed |
| `SseObject.SseDecoder.FeedLine` | src/sse.rs:73-100 | comments, the three fields, ids with NUL and blank lines each change the fields as specified, and never the buffer |
| `SseObject.SseDecoder.Flush` | src/sse.rs:104-118 | a frame is returned exactly when data was seen; type and data are reset and the id stays |
| `SseChunking.TwoPushes` | src/sse.rs:50-60 | two pushes do to frames and fields what one push of the two chunks glued together does |
| `SseChunking.ChunkingLaw` | src/sse.rs:50-60 | any number of pushes, empty ones included, are one push of all chunks glued together |
| `SseChunking.ChunkBoundaryIndependence` | src/sse.rs:50-71 | if no cut parts a carriage return from its line feed, frames, final frame and all fields are those of one push of the whole |
| `SseChunking.SafeCuts` | src/sse.rs:123-140 | a cut is harmless whatever follows if and only if it is not after a carriage return or that left no frame under way |
| `SseChunking.FinishIsTwoLineFeeds` | src/sse.rs:63-71 | `finish` returns and leaves what pushing two line feeds would |
| `SseBlocks.FeedBlock` | src/sse.rs:73-100 | lines without a blank one dispatch nothing, and do to the fields what their data, last type and last id say |
| `SseBlocks.CutIsHarmlessIff` | src/sse.rs:123-140 | for any text that follows, a cut between a carriage return and its line feed changes nothing if and only if the frame could as well have ended there |
| `SseBlocks.CutSplitsFrame` | src/sse.rs:123-140 | a text that is one frame of two data lines, and two frames when it is cut |
| `SseCuts.CutsAreHarmlessIff` | src/sse.rs:123-140 | any list of pushes does what one push of the whole does if and only if each cut between a carriage return and its line feed, in turn, ends a frame that could as well have ended there; no later cut makes up for an earlier one |
| `SseBlocks.FinishDiscardsIff` | src/sse.rs:64-65 | the last, unterminated line is discarded if and only if it is a comment, an unknown field, an id or type already in force or not recorded, or a type with no data |
| `SseBlocks.FinishDispatchesTheLastLine` | src/sse.rs:63-71 | an input whose last line is dispatched |
| `SseFrames.FramesAreBlocks` | src/sse.rs:73-118 | the frames of a stream are one for each ended block with data, with its data, last type and the id then in force |
| `SseRoundTrip.RoundTrip` | src/sse.rs:73-118 | a list of frames written out and pushed under any cutting comes back, each frame with the id then in force, and nothing is left for `finish` |
| `SseRoundTrip.RoundTripWithIds` | src/sse.rs:73-118 | frames that all carry an id come back exactly |
| `SseStandard.LinesAgree` | src/sse.rs:123-140 | scanning for any terminator gives the lines that the standard's normalisation gives |
| `SseStandard.FieldsAgree` | src/sse.rs:80-88 | a line is read as the standard reads it |
| `SseStandard.RefinesStandard` | src/sse.rs:50-118 | for every stream and harmless cutting the frames before `finish` are the events the standard dispatches, with an empty type read as `message`, if and only if there is no byte-order mark or the line behind it makes no difference |
| `SseStandard.BomHidesFrame` | src/sse.rs:50-60 | a stream of which the standard dispatches one event and the decoder returns nothing, because of its mark |
| `SseStandard.TypesAgreeExactly` | src/sse.rs:104-118 | without a mark data and persistent ids always agree with the standard, types if and only if no ended block has data and an empty value in its last event line |
| `SseStandard.AgreesIff` | src/sse.rs:50-118 | on every stream, marked or not, data, ids and types are all those of the standard if and only if the mark, if there is one, makes no difference and no ended block has data and an empty value in its last event line |
| `SseStandard.AgreesWithoutEmptyEvents` | src/sse.rs:73-118 | a stream without a mark and without an empty `event` value is read exactly as the standard reads it |
| `SseStandard.EmptyTypeDiffers` | src/sse.rs:104-118 | a stream whose one frame has an empty type here and the type `message` in the standard |
| `SseStream.EventStream.Next` | src/sse.rs:173-217 | each poll takes exactly the first of the items still to come, and ends exactly when none is |
| `SseStream.CleanEnd` | src/sse.rs:189-213 | a body that ends gives one item a frame in order, malformed ones as such, and the frame of `finish` last |
| `SseStream.SameTrace` | src/sse.rs:173-217 | two harmless cuttings of the same body give the same items |
| `SseStream.TornEnd` | src/sse.rs:189-213 | a transport error comes after every earlier frame, once, with no `finish` frame and nothing after it |
| `SseStream.PolledInOrder` | src/sse.rs:184-188 | the item polled i-th from a body that ends is the value the i-th frame's data parses to, or that data as malformed, exactly as it parses or not, whatever the other frames do |
| `SseStream.ErrorIsLast` | src/sse.rs:189-213 | no item follows a transport error |
| `LaneObject.LaneClient.TakeId` | src/lane.rs:173 | an id is the counter's value, and the counter advances by one modulo 2^64 |
| `LaneObject.LaneClient.RemovePending` | src/lane.rs:127-133 | the waiter under an id, if any, is taken out and no other entry changes |
| `LaneObject.LaneClient.FanOut` | src/lane.rs:121-125 | every subscriber whose receiver exists is sent the event once and kept; the others are dropped |
| `LaneThreads.Reader` | src/lane.rs:104-150 | the reader acts on the responses sent to it, each once and in order, but for one at the end that it could not decode; on its way out it marks the lane dead, closes it, drops the waiters and then the subscribers, in this order, and no subscriber is left |
| `LaneThreads.Writer` | src/lane.rs:87-101 | what the writer puts on the ring is what callers handed over, in the order handed over; on its way out it marks the lane dead, closes it and hangs up, in this order |
| `LaneCallers.Op` | src/lane.rs:169-188 | an op that ends has tested, taken an id, registered, sent and waited, in this order and with nothing else, or has stopped where the test or the sending failed; it returns the answer routed to it, or why the lane is gone |
| `LaneCallers.WatchStream` | src/lane.rs:192-216 | a stream is returned only when its last two steps were to register and then to find the lane alive; it is live and begins with the next event |
| `LaneCallers.Message` | src/lib.rs:488-605 | a messaging method ends with the answer routed to it and no request over HTTP, or with exactly one over HTTP, never with a lane failure; it gives up the lane for a reason if and only if that held when it found out, and so goes to HTTP from the start exactly when it chose while the lane was unbound or dead or could not carry it |
| `LaneSteps.StepKeeps` | src/lane.rs:79-216 | every step of every thread, caller and the node keeps the invariant |
| `LaneTheorems.IdsCollideExactly` | src/lane.rs:173 | in every run, however long, two ops have the same id exactly when a multiple of 2^64 ids were taken between them |
| `LaneTheorems.IdsAreNeverShared` | src/lane.rs:173-178 | until the ids run out no two ops share one, whoever allocates when |
| `LaneTheorems.RunSettles` | src/lane.rs:169-188 | an answered call stays answered with that answer, and a call gone to HTTP stays there |
| `LaneTheorems.AnsweredByFirstReply` | src/lane.rs:126-135 | whatever op an answer was routed to, of a messaging call or of a stream and picked up or not, it is the first reply with its id that came after it registered; and a call ends with that answer |
| `LaneTheorems.LaneGoneMeansNoAnswer` | src/lane.rs:166-188 | an op that ended as gone is routed no answer, now or in any continuation, unless it could not be sent and the node replied to its id all the same; with a node that replies only to what it has run, never |
| `LaneTheorems.RoutedIff` | src/lane.rs:126-184 | while an op is registered an answer was routed to it, or is about to be, if and only if a reply with its id was heard since; so when its request cannot be sent it ends with an answer that nobody looks at exactly then |
| `LaneTheorems.NotFoundIff` | src/lane.rs:179-184 | such an op does not find its sender in the map again if and only if such a reply was heard, or the reader has cleared the map since it registered |
| `LaneWitnesses.AnsweredUnaskedExists` | src/lane.rs:179-184 | a run with a call that is made over HTTP although a reply was routed to it |
| `LaneTheorems.DrainResolvesEarlierOps` | src/lane.rs:140-148 | after the clear every op registered before can resume, and an entry still pending was put there later |
| `LaneTheorems.ResumesUnlessLate` | src/lane.rs:169-188 | after the clear a waiting op can resume if and only if it registered before it |
| `LaneTheorems.LateOpsHang` | src/lane.rs:169-188 | an op that registered after the clear and was sent never moves again, in any continuation |
| `LaneWitnesses.LateOpsExist` | src/lane.rs:169-203 | a run that ends with such an op, of a messaging call or of a message stream |
| `LaneTheorems.NoStrandedStream` | src/lane.rs:192-216 | once the reader has finished, the sender of every stream returned is gone, and a caller about to re-test will find the lane dead |
| `LaneTheorems.StreamsAreContiguous` | src/lane.rs:121-125 | a subscriber is sent a contiguous run of the events from its registration, and all of them while live |
| `LaneTheorems.LiveStreamsAgree` | src/lane.rs:121-125 | two live subscribers were sent the same since the later registration |
| `LaneTheorems.FallbackDiscipline` | src/lib.rs:173-196 | a call runs at most once on each transport; it goes to HTTP only when no live lane applied or the op failed, and then without an answer unless one came to a request never sent; and on both only if the lane died and drained before its answer was routed |
| `LaneReasons.GivenUpIff` | src/lane.rs:166-216 | in every run a call gives up the lane for a reason (no live lane, dead at entry, not sent, dropped, refused, dead at the re-test) if and only if it took the step at which it would find out, in a state in which the reason held |
| `LaneReasons.SkippedIff` | src/lane.rs:195-208 | a stream subscribes without an op of its own if and only if an earlier one had been acknowledged when it looked |
| `LaneReasons.StartedIff` | src/lane.rs:196-200 | the flag says exactly whether some stream was acknowledged |
| `LaneReasons.DiesOnlyByTheNode` | src/lane.rs:87-148 | until the node closes the lane or sends what cannot be decoded, the lane is alive and open and both threads are at work |
| `LaneTheorems.AnsweredNeverFallsBack` | src/lib.rs:488-508 | an answered call is in no continuation run over HTTP |
| `LaneTheorems.DeadLaneIsNeverChosen` | src/lib.rs:193-196 | after the lane's death every call not yet begun, on any clone, is made over HTTP |
| `LaneProgress.ReaderFinishes` | src/lane.rs:107-150 | once the lane is closed the reader takes at most three steps for each response still to come and five to leave, whatever the others do, and has a step to take until it has finished |
| `LaneProgress.ClosedLaneLetsGo` | src/lane.rs:138-148 | and then every op that registered in time can be resumed and every stream returned has ended |
| `Dedup.Arithmetic` | src/serve.rs:221-228 | after n fresh tokens of any history the set holds (n - 1) mod 100000 + 1 and was cleared (n - 1) / 100000 times |
| `Dedup.FirstIsFresh` | src/serve.rs:221-223 | a token that never came before is fresh |
| `Dedup.HandledRarely` | src/serve.rs:221-228 | a token is fresh at most once plus the number of clearings, and at most once up to 100000 fresh tokens |
| `Dedup.RedeliveryAnsweredIffCleared` | src/serve.rs:221-228 | a redelivered token is answered again if and only if the set was cleared since it last came |
| `Dedup.AnsweredTwice` | src/serve.rs:225-228 | the shortest history at the limit with a second answer |
| `ServeTheorems.StepKeeps` | src/serve.rs:143-200 | every step of loop, advertiser, node and shutdown keeps the invariant |
| `ServeTheorems.NeverDeaf` | src/serve.rs:160-185 | whenever the loop processes a stream of the node as it now runs, that node has every served topic subscribed |
| `ServeTheorems.HandledAfterConfirmed` | src/serve.rs:144-199 | no message is handled on a connection before it was opened and all its topics were confirmed |
| `ServeRuns.BackoffIsExact` | src/serve.rs:143-185 | the loop waits only after a failed attempt to connect; the wait after k failures in a row since the last success is 250 ms doubled k - 1 times, and at most 10 s |
| `ServeRuns.HandlesExactly` | src/serve.rs:187-240 | of each stream the loop takes in a prefix of what was sent, in order; it handles exactly the accepted requests among what it took in that are fresh and readable, in order |
| `ServeRuns.EndsOnlyOnShutdown` | src/serve.rs:149-189 | the loop returns and the advertiser stops only when there was a shutdown |
| `ServeRuns.StopIsFinal` | src/capability.rs:235-263 | from the step at which it observes the shutdown the loop handles nothing more, and the advertiser advertises nothing more |
| `ServeTheorems.AdvertisedAfterConfirmed` | src/capability.rs:223-246 | an advertisement comes after a connection was opened, then confirmed for every topic, then announced ready |
| `ServeTheorems.ShutdownAtTheGate` | src/capability.rs:235-241 | a shutdown observed at the gate means no advertisement, before or in any continuation |
| `ServeTheorems.ShutdownUnobserved` | src/capability.rs:235-243 | a run in which a shutdown precedes readiness and an advertisement follows all the same |
| `ServeGate.MayAdvertiseIff` | src/capability.rs:235-263 | the first advertisement can still come if and only if the advertiser was not stopped, and the flag is raised or the serve loop has not returned |
| `ServeGate.SilencedByTheLoop` | src/serve.rs:151-154 | a run that falls silent with the advertiser still at the gate |
| `ServeRecovery.EveryRunRecovers` | src/serve.rs:143-200 | in every run in which the node stays up and answers and no shutdown comes, and whatever is interleaved, the loop comes to process a stream of that node within a bounded number of its own steps |
| `ServeRecovery.Recovers` | src/serve.rs:143-200 | and such a run exists from every reachable state with the node up, to a state with all topics subscribed |
| `ServeRecovery.HandledAtMostOnce` | src/serve.rs:205-240 | over any reconnects a request is handled at most once plus the number of clearings, and at most once up to 100000 tokens |
| `ServeObject.ServeLoop.AnswerOne` | src/serve.rs:205-240 | the set becomes what the arithmetic says, and the handler gets the request exactly when it is for an accepted topic, fresh and readable |
| `ServeObject.ServeLoop.SubscribeAll` | src/serve.rs:166-173 | the topics are subscribed in order, and one failure means backing off |
| `ServeObject.ServeLoop.Serve` | src/serve.rs:124-201 | the loop is a run of the system, its set, its wait, its flag and what it has handled agree with that run throughout, and it ends when it has returned or is left waiting |
| `Sorting.SortIsStable` | src/locate.rs:167 | sorting puts higher scores first, moves items only, and keeps equal ones in order |
| `Sorting.StableSortIsUnique` | src/locate.rs:167 | no other result is a stable sort |
| `SpreadGroups.SameBucketExactly` | src/locate.rs:245-250 | when two candidates share a bucket, made-up keys included |
| `SpreadGroups.GroupedIsExact` | src/locate.rs:245-250 | the groups are in key order and each is the list of the positions of its key |
| `SpreadGroups.BucketsAreExact` | src/locate.rs:251-257 | ordering the buckets by their best score loses, repeats and splits none |
| `SpreadTheorems.FairShares` | src/locate.rs:259-276 | one round number fits all buckets: each gives its best candidates in order, that many or one more, or all it has |
| `SpreadTheorems.BestFirst` | src/locate.rs:259-276 | what is taken from a bucket is a prefix of it, best first |
| `SpreadTheorems.Balanced` | src/locate.rs:259-276 | no bucket gives two more than another unless the other is exhausted |
| `SpreadTheorems.Conserves` | src/locate.rs:242-277 | as many are chosen as asked for, or all there are, and none twice |
| `SpreadOptimal.TouchesMostBuckets` | src/locate.rs:242-277 | the choice reaches all buckets, or as many as were asked for |
| `SpreadOptimal.FirstPlacesAreBest` | src/locate.rs:251-257 | the exchange argument: no choice of distinct places beats the first ones |
| `SpreadOptimal.BestSpread` | src/locate.rs:239-277 | the choice has distinct buckets and the greatest total score of all selections of that size that do |
| `SpreadRounds.ChosenIffPrecedes` | src/locate.rs:251-276 | candidates are taken in the order of rank in the bucket, then of the bucket's best score, then of its key: one precedes another exactly when some count takes the one without the other |
| `SpreadRounds.RoundsDecide` | src/locate.rs:259-276 | a chosen candidate ranks in its bucket at most as low as any other that was not chosen, and on equal rank its bucket is at least as good |
| `SpreadRounds.RemainderByScoreIff` | src/locate.rs:239-241 | however many are asked for, what is left after one of each bucket is filled by score if and only if the scores fall along that order |
| `SpreadRounds.RemainderIsNotByScore` | src/locate.rs:239-241 | an input on which a worse candidate is taken before a better one |
| `Locating.SpreadOut` | src/locate.rs:242-277 | the loops end, and return the candidates at exactly the chosen positions |
| `Locating.Locate` | src/locate.rs:87-175 | the loops compute the ranked and selected candidates, errors and empty results included |
| `Locating.Call` | src/locate.rs:179-205 | the first reply in order is returned and none after it asked; it fails exactly when all do, with the last error, or none is found |
| `LocateScores.AsksBeforeFailing` | src/locate.rs:188-205 | before a call fails it has asked three nodes, or as many as are wanted if more, or all eligible ones |
| `LocateTheorems.FaultDomainIs` | src/locate.rs:230-237 | the first region tag, else the first zone tag, else the first ASN tag, and none exactly when there are none |
| `LocateTheorems.IndexIs` | src/locate.rs:103-106 | the index has a node's last atlas entry |
| `LocateTheorems.CandidatesAreEligible` | src/locate.rs:108-165 | the candidates are the found ids that are eligible, each occurrence once, in order |
| `LocateTheorems.ReturnsEligible` | src/locate.rs:87-175 | as many instances are returned as wanted, or all eligible ones; all are eligible |
| `LocateTheorems.BestAreReturned` | src/locate.rs:167-173 | without spreading none left out scores higher than one returned |
| `LocateTheorems.SurvivesOneDomain` | src/locate.rs:169-174 | if candidates without a common fault domain suffice, such are returned, and the best of them |
| `LocateTheorems.ScoreBounds` | src/locate.rs:143-155 | scores lie between 0 and 1.001, and exceed 1 exactly when the tiebreak outweighs what is missing |
| `LocateScores.OneMoreJob` | src/locate.rs:145-147 | one more running job lowers the score by 0.3/16 while a core is free and no more than 16 are, and otherwise changes nothing |
| `LocateScores.OneMoreCore` | src/locate.rs:145-147 | one more core adds as much while fewer than 16 are free and none is short, and otherwise nothing |
| `LocateScores.OneMoreMiB` | src/locate.rs:146-147 | one more MiB adds 0.3/32768 below 32 GiB, and above nothing |
| `LocateScores.OneSecondLater` | src/locate.rs:131-150 | a second later the score is lower by 0.4 over the window, unless the node was seen in the future |
| `LocateScores.NothingFree` | src/locate.rs:145-155 | with nothing free and just seen the score is 0.4 and the tiebreak: from there the steps above lead to every entry |
| `LocateScores.NothingElseCounts` | src/locate.rs:145-155 | nothing else in the entry or the request changes a score |
| `LocateScores.ReturnsEntries` | src/locate.rs:111-165 | every instance returned has the data of its node's last, fresh entry and its score, or is this node with the fixed ones |
| `LocateScores.FailsIff` | src/locate.rs:87-92 | a search fails exactly when the lookup does, or the atlas cannot be had and something was found, with that error |
| `LocateTheorems.LocalFirstIff` | src/locate.rs:111-127 | the local node is returned first if and only if no other eligible node scores more than 1, none found before it scores 1 and, when the choice is spread, none that names a fault domain scores 1 |
| `LocateTheorems.LocalIsOutranked` | src/locate.rs:111-127 | an input on which a remote node is returned before the local one |
| `LocateTheorems.LocalLosesTheTie` | src/locate.rs:239-257 | one on which a remote node with the same score is, because its domain comes first among the keys |
| `ObjectStore.ChunkObject` | src/data.rs:56-72 | the loop computes the chunks and the manifest |
| `ObjectTheorems.ChunksMakeObject` | src/data.rs:56-72 | the chunks in order are the object |
| `ObjectTheorems.ChunkSizes` | src/data.rs:53-72 | all chunks but the last are full, the last is not empty, and their number is the size divided, rounded up |
| `ObjectStore.Reassemble` | src/data.rs:77-101 | the first refused chunk in order, a wrong size or an unknown kind is the error; otherwise the bytes in order |
| `ObjectStore.FetchAll` | src/lib.rs:450-462 | under every order of completion the outcome is the sequential one, at most eight fetches are ahead, and the first error in order stops it |
| `ObjectStore.GetObject` | src/lib.rs:437-475 | the outcome, error or bytes, is that of the sequential reassembly |
| `ObjectTheorems.DownloadIff` | src/lib.rs:437-475 | a download succeeds if and only if the manifest was answered, decodes, has kind ce-object-v1, every chunk verifies and the size is right; it gives the chunks in order |
| `ObjectTheorems.DownloadFails` | src/lib.rs:437-475 | otherwise the error is that of the first of these, in this order, and of the first chunk in order, that is wrong |
| `ObjectTheorems.ManifestSays` | src/data.rs:56-72 | the manifest of an object has the kind, the chunk size of 1 MiB, the size and the hash of each chunk |
| `ObjectStore.StoreAll` | src/lib.rs:418-429 | at most eight uploads are under way; it succeeds only with every chunk filed, a failure is that of some chunk, and then the chunks accepted are filed and perhaps some still under way |
| `ObjectStore.PutObject` | src/lib.rs:412-432 | the manifest is sent if and only if every chunk was accepted under its own hash; after an error, which is that of a refused chunk or of the manifest, the node has the chunks that were filed, and perhaps the manifest if that was sent |
| `ObjectTheorems.JoinedIff` | src/data.rs:86-93 | a download gets all chunks in order if every one verifies, and none otherwise |
| `ObjectTheorems.Trustless` | src/data.rs:74-101 | with an object's manifest the outcome is the object or an error, and the object if and only if every answer is its chunk |
| `ObjectTheorems.PutThenGet` | src/lib.rs:408-475 | putting to an honest node and getting by the hash returned is the identity |
| `ObjectTheorems.AnyObjectIsAccepted` | src/lib.rs:437-444 | whatever hash is asked for, another object's manifest and chunks are accepted |
| `ObjectTheorems.TrustlessIfManifestMatches` | src/lib.rs:434-444 | if the manifest had the hash asked for, the outcome is the object or an error whatever the node answers |
| `ObjectTheorems.TrustlessIff` | src/lib.rs:434-475 | given some object's manifest, no answers to its fetches can pass off another object if and only if that manifest has the hash asked for |
| `AdapterTheorems.StepKeeps` | src/adapt.rs:92-135 | every step of the two threads, the app and the node keeps the invariant |
| `AdapterTheorems.NodeSeesOutputs` | src/adapt.rs:117-130 | the node receives a prefix of the handler's outputs on the app's frames, and nothing sent after a refused one |
| `AdapterTheorems.NothingLostWhileOpen` | src/adapt.rs:117-130 | while the flow is open, all that was let through was sent, but for the frame being sent |
| `AdapterTheorems.AppSeesVerbatim` | src/adapt.rs:100-114 | the app receives a prefix of the node's frames, unchanged |
| `AdapterTheorems.ClosedOnceLast` | src/adapt.rs:117-135 | the handler is asked about each request once, in order and up to the first refusal, and told of the end once, after all of them |
| `AdapterTheorems.EndsOnlyFor` | src/adapt.rs:103-130 | the first thread goes to settle only because a request was refused or a side has closed, the second leaves only because a side has closed |
| `AdapterTheorems.TeardownEnds` | src/adapt.rs:111-135 | once both endpoints are closed the threads take at most eleven more steps, and one can step until both are over |
| `AdapterTeardown.AppCloseSpreads` | src/adapt.rs:117-131 | once the app has closed, the first thread closes the node's side within three steps for each frame still there and nine more, and can step until it has |
| `AdapterTeardown.NodeCloseSpreads` | src/adapt.rs:100-112 | once the node has closed, the second thread, if it was started, closes the app's side likewise |
| `AdapterTeardown.WaitsIff` | src/adapt.rs:100-135 | once a side is closed the flow waits for the outside if and only if the second thread was not started, the app has not closed, and the first thread has nothing to receive |
| `AdapterTeardown.WaitsWithoutRelay` | src/adapt.rs:100-135 | a flow that waits so |
| `AdapterThreads.PassOne` | src/adapt.rs:117-130 | one turn of the loop asks the handler about one request and passes on exactly its output, or ends |
| `AdapterThreads.ServeFlow` | src/adapt.rs:92-135 | what the first thread passes on is what was sent, a prefix of the handler's outputs on what it saw; on its way out it tells the handler, closes both endpoints and joins the other thread, in this order, and the handler was told once, last |
| `AdapterThreads.RelayUp` | src/adapt.rs:100-114 | what the second thread relays is what was sent to the app, a prefix of the node's frames; then it closes both endpoints |
| `TopicQuery.UrlEncode` | src/lib.rs:103-114 | the loop writes each byte as specified |
| `TopicQuery.EncodePathSegment` | src/lib.rs:691-700 | the same without commas |
| `TopicQuery.DecodeOfEncode` | src/lib.rs:103-114 | percent-decoding recovers every byte string |
| `TopicQuery.EncodeIsClean` | src/lib.rs:103-114 | only unreserved characters, commas where allowed and `%XX` triples are written |
| `TopicQuery.WrittenAs` | src/lib.rs:103-114 | letters, digits and `-._~` are written as they are, commas where allowed, and every other byte as a percent sign and its two hexadecimal digits |
| `TopicQuery.QueryIsOne` | src/lib.rs:328-332 | a reader that cuts the query at ampersands and equals signs finds the one parameter with the whole list as its value |
| `TopicQuery.SegmentIsWhole` | src/lib.rs:688-700 | a name written as a segment has no character that would end it |
| `TopicQuery.TopicsRecovered` | src/lib.rs:328-332 | decoding and cutting at commas gives back the list if and only if no topic has a comma |
| `TopicQuery.StreamPathIsInjective` | src/lib.rs:328-332 | different lists of comma-free topics give different paths |

## Left out

- Bytes below characters: `push` decodes UTF-8 lossily chunk by chunk, so a cut inside a character changes it; the model's streams are characters.
- `LaneTheorems.IdsAreNeverShared`: stated while at most 2^64 ids were issued; beyond that ids repeat, exactly as `IdsCollideExactly` says.
- Poisoned mutexes, cancellation of an `op` by its caller, and dropping the lane client while its threads run.
- Binding a lane: the endowed endpoint, the socket path and the token; a run starts with a lane bound or none.
- Weak memory: steps are sequentially consistent.
- Real time: sleeping is a step, only the wait's length is kept.
- `ServeRecovery.EveryRunRecovers`: for connections and subscriptions that return; over a lane one may wait for ever, as said above.
- `ServeObject.World`, `LaneWorld.World` and `AdapterObject.World`: what others do between a thread's own steps is a script chosen beforehand; every run of the system is such a script.
- `ObjectStore.StoreAll`: a node that files a chunk under another hash than the chunk's own.
- Floating point: scores are reals, so rounding and values that are not numbers do not occur.
- `Spread.Buckets`: a bucket holds positions in the scored list where the program holds copies of the instances.
- The jitter's hash, SHA-256, JSON and hex; they are parameters.
- `tags.rs`, `app.rs`, the plain endpoint wrappers, token discovery, and the reply envelope of `capability.rs`.
