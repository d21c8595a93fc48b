# Models and proofs for Discord OS

Discord OS runs a coding host from Discord: messages become jobs, cards carry the controls, a
gateway socket delivers the button presses, and a host process writes the log. This project models
the parts of it that carry state, loops and invariants, and proves what they promise.

| file | what it models |
|---|---|
| `ComponentTree.dfy`, `Layout.dfy` | fitting a Components V2 tree to Discord's ceilings: as values, and as the in-place code over a mutable tree |
| `WebSocket.dfy` | RFC 6455 framing (sections 5.2, 5.3, 5.5, 7.4) and the buffered receive loop |
| `RemoteCook.dfy` | cancel against settle for a run over SSH, in every interleaving, and what earlier streams of the run id leave to the next |
| `Gateway.dfy` | IDENTIFY and RESUME over any run of connections, with the reconnect loop's backoff |
| `GatewayHealth.dfy`, `GatewayLiveness.dfy` | the liveness verdict over any run of gateway events; the two machines together |
| `RateLimit.dfy`, `RestRetry.dfy` | the REST limiter against a clock and a fixed-window server; the request loop against any answers and exceptions |
| `Chunking.dfy` | cutting messages, and repeating a card's or receipt's prefix on every piece |
| `LogStream.dfy`, `LogRotation.dfy` | threads writing one stamped log, and the rotation of its generations |
| `Waveform.dfy` | peaks of PCM samples, one byte a bucket |
| `ForumTags.dfy` | status tags of a forum post over a run of status changes |
| `Dotenv.dfy`, `ChannelCsv.dfy`, `AddRealm.dfy` | rewriting settings, against the parsers that read them back; both together, for a channel added to the file |
| `Vault.dfy` | the keystream cipher and the vault as a map of secrets |
| `Basics.dfy`, `Text.dfy` | options, bounds, laws over logs; stripping and searching of strings |

How to read it. A piece of code that changes things step by step is a class or a method with its
loops, proved equal to a function on values; the promises are lemmas about that function. Where two
threads race, the model is a state machine whose steps are lines of the source, and a lemma speaks
of every list of choices: who moves, and what the environment answers. Histories are logs, and what
a log says ("the session id of the latest READY", "the newest ACK on this socket") is defined by
reading it backwards, apart from the state the code keeps. `Always(log, law)` says that every entry
respects the law given everything before it. Clocks, jitter, nonces and what the network answers are
parameters.

## Findings

Each is stated and proved; the code is kept as it is.

- A cancel that returned True can leave the run completed or failed. Over every run, dropped or not,
  that happens exactly when the consumer dropped the stream at the RECEIPT or ERROR that settled it
  and no confirmed cancel wrote the status after that settlement (`RemoteCook.ConfirmedCancelFailsIff`;
  a run: `RemoteCook.DroppedStreamCompletesAfterConfirmedCancel`).
- RECEIPT and CANCEL_REQUESTED are both given out for one run exactly when a check after the RECEIPT
  saw a request (`RemoteCook.ReceiptAndCancelIff`; a run: `RemoteCook.ReceiptThenCancel`).
- A cancel after the end of a stream stays requested, and cancels the next stream of the same run id,
  which nobody asked to cancel (`RemoteCook.LeftoverRequestCancelsNextRun`).
- A cancel can outlive its stream: asked after the last check, its request is forgotten while it still
  runs (`RemoteCook.CancelOutlivesItsStream`). If it is confirmed during the next stream of the run id,
  that one, read to its end and completed with its RECEIPT, can end cancelled
  (`RemoteCook.OutlivingCancelCancelsNextRun`), or can end completed although the cancel returned True
  (`RemoteCook.NextRunUndoesAConfirmedCancel`). The first happens to a stream that nobody asked to cancel
  exactly when such a cancel wrote the status last or a request was left behind
  (`RemoteCook.UnaskedNextRunCancelledIff`), the second exactly when the stream wrote it last and saw
  no request (`RemoteCook.EarlierCancelFailsIff`).
- RESUME names the latest session and its last sequence number exactly when that session's READY
  carried an id and a numbered message has come since (`Gateway.ResumeIsFaithfulIff`; runs:
  `Gateway.ReadyWithoutIdMisleads`, `Gateway.ReadyWithoutSequenceMisleads`).
- The health module calls READY an initial sign of life. It is one only if nothing was heard on the
  socket before: after an early ACK a socket can be called stale at the moment of READY
  (`GatewayHealth.StaleAtReadyIff`; a run: `GatewayHealth.ReadyCanBeStaleAtOnce`). The ready-grace branch never changes a verdict.
- A request that is not idempotent can be applied twice: an error such as EHOSTUNREACH raised while
  the answer is read is taken for proof that nothing was sent. Two attempts may have been applied
  exactly when such a misjudged one is followed by one that may be (`RestRetry.AppliedTwiceIff`; a
  call: `RestRetry.UnreachableWhileReadingAppliesTwice`).
- Text trimming meets the character budget exactly when there are no more non-empty displays than
  the budget has characters; what Discord counts fits then too, and only then if no accessory
  carries text (`ComponentTree.TrimMeetsBudgetIff`, `ComponentTree.FitMeetsTextBudgetIff`).
- Posted pieces of a card stay within the limit exactly when it leaves room after prefix and
  newline, or no later piece needs the prefix added; otherwise pieces are over the limit
  (`Chunking.PostedWithinLimit`; a card: `Chunking.CarriedPieceIsTooLong`).
- Updates of a dotenv file come back as given exactly when every key is good and every value is on one
  line without trailing whitespace (`Dotenv.UpdatesReadBackIff`). A line break inside a value loses
  the rest of it, which becomes an entry of its own (`Dotenv.InnerBreakInjects`).
- A merge into a plain channel list is read back exactly when the name holds no comma or colon and
  the value no comma, or one of the two is blank, and the first name printed does not start with a
  brace (`ChannelCsv.MergeSurvivesIff`; a name with a comma: `ChannelCsv.CommaInNameIsLost`).
- A channel added to the file reads back as the old list with that one set exactly when the merge
  survives and name and id hold no line break inside, or one of them is blank
  (`AddRealm.AddReadsBackIff`; an id with a line break: `AddRealm.BrokenIdInjects`).
- A rotation that fails has already shifted the older generations. Each failure puts the part it copied,
  or nothing, in place of a generation, so as many failures as generations, as on a full disk, leave
  none of the old ones (`LogRotation.FailEach`). What is on disk is always the end of what was put into
  the generations and the live log (`LogRotation.AppendAll`), and that is what was written exactly if no
  part was left in two places (`LogRotation.AppendsAreTheTextsIff`; a copy that breaks off:
  `LogRotation.BrokenCopyIsNoSuffix`).
- The log keeps partial lines by thread identifier, which the runtime gives out again. When one changes
  hands, both owners' lines are their own exactly when the first left no partial line or the second
  ended none (`LogStream.OwnLinesIff`; a case: `LogStream.LeftoverHeadsTheNextLine`).

## Model

| member | source | states |
|---|---|---|
| ComponentTree.HoldsControlExact | src/agent_discord/discord/layout.py:239-249 | the recursive test finds a control exactly when the flat list of the subtree's components has one |
| ComponentTree.KeepControls | src/agent_discord/discord/layout.py:292-303 | however many units are dropped, every action row, button and select survives, in order |
| ComponentTree.KeepUnits | src/agent_discord/discord/layout.py:252-266 | what remains are the first droppable units in document order: only a suffix goes |
| ComponentTree.KeepKeep | src/agent_discord/discord/layout.py:305-308 | dropping in stages equals dropping at once |
| ComponentTree.CountConserved | src/agent_discord/discord/layout.py:213-232 | the count is that of the control skeleton plus that of the units kept |
| ComponentTree.SkeletonHoldsControls | src/agent_discord/discord/layout.py:239-266 | with all units dropped, every component left holds a control: nothing droppable is spared |
| ComponentTree.UnitsHoldNone | src/agent_discord/discord/layout.py:252-262 | and no dropped unit holds one |
| ComponentTree.KeptIsShortestDrop | src/agent_discord/discord/layout.py:305-308 | the loop drops no more units than the limit forces: every longer list of units is over it |
| ComponentTree.FitsIffSkeletonFits | src/agent_discord/discord/layout.py:292-308 | the ceiling is met exactly when the skeleton meets it, and the count never exceeds the larger of the two |
| ComponentTree.TrimKeepsDisplays | src/agent_discord/discord/layout.py:269-289 | displays keep number and order; a text stays, becomes ".", or a prefix with the marker; none but an empty one is empty |
| ComponentTree.TrimFillsRoom | src/agent_discord/discord/layout.py:269-289 | a display whose text fits its room keeps it; a longer one fills the room with its beginning and the marker; a dot only where the marker leaves no room |
| ComponentTree.FitFillsRoom | src/agent_discord/discord/layout.py:292-311 | the same of every text display of a fitted tree that was over the text ceiling |
| ComponentTree.FitLeavesFittingTrees | src/agent_discord/discord/layout.py:304-311 | a tree within both ceilings is left as it is, and one within the text ceiling loses no text |
| ComponentTree.DisplayCharsExact | src/agent_discord/discord/layout.py:235-236 | the characters held against the ceiling are those of all texts but the accessories' |
| ComponentTree.TrimMeetsBudgetIff | src/agent_discord/discord/layout.py:269-289 | the trimmed texts fit the budget exactly when the non-empty displays are no more than its characters |
| ComponentTree.TrimIdempotent | src/agent_discord/discord/layout.py:269-289 | trimming trimmed texts changes nothing |
| ComponentTree.FitKeepsTree | src/agent_discord/discord/layout.py:292-311 | the whole fit is the kept tree with each component unchanged or trimmed, and its count is bounded |
| ComponentTree.FitKeepsControls | src/agent_discord/discord/layout.py:292-303 | the controls after the fit are the controls before, every field included |
| ComponentTree.FitMeetsTextBudget | src/agent_discord/discord/layout.py:309-311 | the text Discord counts fits the budget when the kept displays are no more than its characters |
| ComponentTree.FitMeetsTextBudgetIff | src/agent_discord/discord/layout.py:309-311 | and only then, when no accessory carries text |
| ComponentTree.FitIdempotent | src/agent_discord/discord/layout.py:292-311 | fitting a fitted tree changes nothing |
| Layout.Node.HoldsControl | src/agent_discord/discord/layout.py:239-249 | over the mutable tree, the test is the one on its value |
| Layout.Node.DropLastDroppable | src/agent_discord/discord/layout.py:252-266 | removes the last droppable unit in place and nothing else, and reports whether there was one |
| Layout.TrimTextInPlace | src/agent_discord/discord/layout.py:269-289 | the running budget rewrites the listed components' contents to the trimmed ones and touches nothing else |
| Layout.Node.DeepCopy | src/agent_discord/discord/layout.py:314-319 | an equal tree of fresh nodes, none shared, even where nodes of the original occur twice |
| Layout.DropToLimit | src/agent_discord/discord/layout.py:305-308 | the loop terminates with exactly the shortest suffix of units gone |
| Layout.FitComponentsV2 | src/agent_discord/discord/layout.py:292-311 | the result is fresh and is the fit of the input, which is left as it was; nodes of the input may occur twice |
| WebSocket.FromToBytes | src/agent_discord/discord/ws.py:37-42 | big-endian lengths are read back as written |
| WebSocket.ToBytesBigEndian | src/agent_discord/discord/ws.py:37-42 | byte i of k is the digit of weight 256 to the power k - 1 - i |
| WebSocket.XorTwice | src/agent_discord/discord/ws.py:44-44 | masking twice with the same key gives the data back |
| WebSocket.MaskedDigits | src/agent_discord/discord/ws.py:44-44 | each binary digit of a masked byte is one exactly when the byte's and its key byte's digits differ (section 5.3) |
| WebSocket.HeadLayout | src/agent_discord/discord/ws.py:31-42 | the header's bytes: opcode in the low four bits, mask bit, length code, length (section 5.2) |
| WebSocket.ClientFrameLayout | src/agent_discord/discord/ws.py:28-45 | byte by byte: FIN and opcode, mask bit and length code, length, key, masked payload |
| WebSocket.DecodeWire | src/agent_discord/discord/ws.py:48-79 | decoding a frame's bytes gives the frame, whatever follows (section 5.2) |
| WebSocket.DecodeSound | src/agent_discord/discord/ws.py:48-79 | a decoded frame is a valid one whose bytes the buffer starts with |
| WebSocket.DecodeIff | src/agent_discord/discord/ws.py:48-79 | a frame is decoded exactly when the buffer starts with one |
| WebSocket.WirePrefixFree | src/agent_discord/discord/ws.py:48-79 | a byte stream splits into frames in one way only |
| WebSocket.PrefixIncomplete | src/agent_discord/discord/ws.py:51-77 | a proper prefix of a frame is never taken for a frame |
| WebSocket.SameStream | src/agent_discord/discord/ws.py:165-191 | two readings of one stream agree as far as both go |
| WebSocket.NarrowestIsMinimal | src/agent_discord/discord/ws.py:34-42 | the encoder uses the shortest length field that fits |
| WebSocket.EncodeFrame | src/agent_discord/discord/ws.py:28-45 | the bytes are those of the masked frame meant; only payloads past 64-bit lengths fail |
| WebSocket.CloseCodeIs | src/agent_discord/discord/ws.py:165-191 | the close code is the payload's first two bytes, most significant first (section 7.4) |
| WebSocket.Buffer.DecodeFrame | src/agent_discord/discord/ws.py:48-79 | pops exactly one frame's bytes, or leaves the buffer unchanged |
| WebSocket.WebSocketClient.SendPong | src/agent_discord/discord/ws.py:156-157 | whatever the random mask, the peer reads a pong with this payload |
| WebSocket.WebSocketClient.RecvText | src/agent_discord/discord/ws.py:165-191 | no byte is lost, each ping seen is answered, only the last frame or the socket decides the outcome |
| WebSocket.WebSocketClient.Listen | src/agent_discord/discord/ws.py:165-191 | for every way of cutting the stream into chunks, the texts and pongs are those of the frames up to the first close or binary one |
| RemoteCook.ConfirmedMeansSpawned | src/agent_discord/host/remote_cook.py:834-880 | in every run a cancel that returned True had got hold of a child that was registered |
| RemoteCook.CallersAreTold | src/agent_discord/host/remote_cook.py:834-880 | over every run a caller is told True exactly when it found a child, its interrupt was confirmed and it recorded that; False when not confirmed or without a child |
| RemoteCook.EarlierCallersAreTold | src/agent_discord/host/remote_cook.py:834-880 | the same of a caller that began during an earlier stream |
| RemoteCook.TrueOnlyIfConfirmed | src/agent_discord/host/remote_cook.py:872-880 | a caller told True was confirmed at the very step that found it interrupting |
| RemoteCook.OnlyTrueCallersWrite | src/agent_discord/host/remote_cook.py:872-880 | over every run cancels write the status once for each caller told True, so the others never do |
| RemoteCook.SettlesAsItEnded | src/agent_discord/host/remote_cook.py:786-832 | over every run, COMPLETED only after the command ended well, FAILED only after it ended badly or could not start |
| RemoteCook.RequestEndsTheReading | src/agent_discord/host/remote_cook.py:1209-1210 | once a request is made while output is still being read, how the command ends is not looked at any more |
| RemoteCook.UndisturbedStream | src/agent_discord/host/remote_cook.py:745-832 | a stream nobody cancels gives out every note, the dispatch, every line and then RECEIPT or ERROR as the command ended, and has that status |
| RemoteCook.DeniedStream | src/agent_discord/host/remote_cook.py:745-764 | a command that cannot start ends in ERROR and FAILED after its notes |
| RemoteCook.StreamStepInv | src/agent_discord/host/remote_cook.py:786-832 | every line of the stream keeps the invariants: a seen request decides the status by the end, a RECEIPT is cleared, a settlement is announced |
| RemoteCook.CancelKeepsStatus | src/agent_discord/host/remote_cook.py:834-880 | every step of every cancel keeps: a seen request or a confirmed cancel has decided the status by the end |
| RemoteCook.PumpKeepsShape | src/agent_discord/host/remote_cook.py:1202-1280 | in the loop over the iterator's events: it ends settled or cancelled, so the closing default to completed is never taken |
| RemoteCook.RunInv | src/agent_discord/host/remote_cook.py:786-880 | the invariants hold along every interleaving, also with cancels of earlier streams still under way |
| RemoteCook.ConfirmedCancelFailsIff | src/agent_discord/host/remote_cook.py:808-880 | over every run, whatever earlier streams left, a cancel of the stream that returned True does not leave it cancelled exactly when the stream was dropped at a settlement that wrote the status last |
| RemoteCook.EarlierCancelFailsIff | src/agent_discord/host/remote_cook.py:786-880 | a cancel of an earlier stream that returned True during this one is undone exactly when this stream wrote the status last and saw no request |
| RemoteCook.ConfirmedCancelWins | src/agent_discord/host/remote_cook.py:834-880 | a cancel that returned True leaves the run cancelled if the stream is read to its end, or if neither RECEIPT nor ERROR was given out |
| RemoteCook.CancelledIff | src/agent_discord/host/remote_cook.py:786-880 | a fully read run is cancelled exactly when a check saw a request, a cancel of it was confirmed, or one of an earlier stream was and wrote the status last |
| RemoteCook.RequestBeforeACheckWins | src/agent_discord/host/remote_cook.py:786-832 | a request made before any check decides the run, confirmed or not, and CANCEL_REQUESTED is given out |
| RemoteCook.ReceiptsAreCleared | src/agent_discord/host/remote_cook.py:808-820 | each RECEIPT was cleared by the two checks just before it |
| RemoteCook.SettledAndAnnounced | src/agent_discord/host/remote_cook.py:786-832 | a fully read run has settled, its event was given out, and it is not completed or failed after a seen request or confirmed cancel |
| RemoteCook.CancelAfterTheEnd | src/agent_discord/host/remote_cook.py:1289-1302 | a cancel begun after the stream has ended returns False, leaves the status alone, and stays requested |
| RemoteCook.LeftoverRequestCancelsNextRun | src/agent_discord/host/remote_cook.py:786-839 | a request left behind cancels the next stream of that run id, which gives out no RECEIPT |
| RemoteCook.UnaskedNextRunCancelledIff | src/agent_discord/host/remote_cook.py:786-839 | a next stream that nobody asks to cancel, read to its end, is cancelled exactly when a request was left behind or an earlier cancel still under way was confirmed and wrote the status last |
| RemoteCook.CancelOutlivesItsStream | src/agent_discord/host/remote_cook.py:821-840 | a stream read to its end that forgets the request of a cancel still under way |
| RemoteCook.OutlivingCancelCancelsNextRun | src/agent_discord/host/remote_cook.py:821-880 | the next stream, unasked, gives out its RECEIPT and ends cancelled |
| RemoteCook.NextRunUndoesAConfirmedCancel | src/agent_discord/host/remote_cook.py:808-880 | or ends completed after that cancel returned True |
| RemoteCook.DroppedStreamCompletesAfterConfirmedCancel | src/agent_discord/host/remote_cook.py:808-832 | a stream dropped at its RECEIPT ends completed after a cancel returned True |
| RemoteCook.ReceiptThenCancel | src/agent_discord/host/remote_cook.py:808-829 | a run in which RECEIPT and then CANCEL_REQUESTED are given out |
| RemoteCook.ReceiptAndCancelIff | src/agent_discord/host/remote_cook.py:808-829 | both are given out exactly when a check after the RECEIPT saw a request |
| Gateway.DelayRange | src/agent_discord/discord/realtime.py:96-108 | delays lie between the floor and a ceiling that doubles from one second up to the cap |
| Gateway.JitterIsFull | src/agent_discord/discord/realtime.py:96-108 | delays grow with the draw, and the draws from zero to one reach every delay from the floor to the ceiling |
| Gateway.CeilingIs | src/agent_discord/discord/realtime.py:105-106 | the ceilings are 1, 2, 4, 8, 16, 32 and then 60 seconds |
| Gateway.StepPhase | src/agent_discord/discord/realtime.py:208-275 | the connection's phase and READY deadline always agree with what was received on it |
| Gateway.ResumeIsFaithfulIff | src/agent_discord/discord/realtime.py:305-322 | over every run, RESUME names the latest READY's session and the last sequence received in it exactly when that READY carried an id and a numbered message has come since |
| Gateway.ResumeIsFaithful | src/agent_discord/discord/realtime.py:305-322 | so every RESUME is faithful if every READY carries an id and a number |
| Gateway.ResumableIsResumed | src/agent_discord/discord/realtime.py:176-183 | over every run, a socket is opened to resume whenever the latest READY named a session and a number of it is known |
| Gateway.EveryHelloIsAnswered | src/agent_discord/discord/realtime.py:300-322 | over every run, each Hello is answered by one handshake at once, and none is sent otherwise |
| Gateway.InvalidatedMeansIdentify | src/agent_discord/discord/realtime.py:341-353 | while no session is known, every handshake is IDENTIFY, whatever the peer sends |
| Gateway.UnknownUntilReady | src/agent_discord/discord/realtime.py:398-402 | after op 9 false, 4007, 4009 or a fatal code no session is known until the next READY |
| Gateway.OneKindPerConnection | src/agent_discord/discord/realtime.py:176-182 | no socket carries both kinds of handshake |
| Gateway.OpensWhereDue | src/agent_discord/discord/realtime.py:176-183 | a resuming socket goes to the address its session last named, an identifying one does not |
| Gateway.DelaysAreDue | src/agent_discord/cli.py:2567-2578 | each delay is the drawn share of the ceiling due after the failures since a session last started, or the floor, within 0.25 and 60 seconds |
| Gateway.LossesRetryAndFatalEnds | src/agent_discord/cli.py:2539-2578 | a fatal close is the end; every other loss, and silence past the READY deadline, is followed by a delay and a new attempt |
| Gateway.ReadyWithoutIdMisleads | src/agent_discord/discord/realtime.py:73-78 | without an id on READY, RESUME can name an older session |
| Gateway.ReadyWithoutSequenceMisleads | src/agent_discord/discord/realtime.py:281-287 | without a sequence on READY, RESUME can name a number from before the session |
| Gateway.GatewaySession.NoteReady | src/agent_discord/discord/realtime.py:73-78 | an empty id or address leaves the old one |
| Gateway.GatewaySession.ConsumeReady | src/agent_discord/discord/realtime.py:83-88 | tells once whether a session started since it was last asked |
| Gateway.GatewaySession.Invalidate | src/agent_discord/discord/realtime.py:90-93 | forgets id, sequence and address, not that a session had started |
| Gateway.Turn | src/agent_discord/discord/realtime.py:208-409 | one turn of the receiving loop is one step of the machine |
| Gateway.RunDiscordGateway | src/agent_discord/discord/realtime.py:174-430 | one connection is the machine's run over its events, with the outcome its phase says |
| Gateway.ReconnectLoop | src/agent_discord/cli.py:2539-2578 | the loop is the machine's run over all tries, and ends stopped or by a fatal close |
| GatewayHealth.StateAgrees | src/agent_discord/discord/gateway_health.py:74-159 | after any run of calls the kept state is what the events say |
| GatewayHealth.VerdictIsJustified | src/agent_discord/discord/gateway_health.py:205-269 | each of the five verdicts is given exactly when the events justify it |
| GatewayHealth.StaleIff | src/agent_discord/discord/gateway_health.py:205-259 | stale exactly when up, READY came, and the newest ACK (else first READY) is older than max(limit, 2.5 intervals) |
| GatewayHealth.StaleAfterBoth | src/agent_discord/discord/gateway_health.py:205-259 | in plain numbers: silence longer than the limit and than two and a half heartbeat intervals |
| GatewayHealth.ScaledIsLeast | src/agent_discord/discord/gateway_health.py:205-259 | the window is the least that holds both |
| GatewayHealth.NotStaleBeforeReady | src/agent_discord/discord/gateway_health.py:74-88 | nothing is called stale between a connect and its READY |
| GatewayHealth.GraceChangesNothing | src/agent_discord/discord/gateway_health.py:239-249 | leaving the ready-grace branch out gives the same verdict after every run |
| GatewayHealth.StaleAtReadyIff | src/agent_discord/discord/gateway_health.py:120-128 | exactly when a socket is called stale at the moment of READY |
| GatewayHealth.ReadyCanBeStaleAtOnce | src/agent_discord/discord/gateway_health.py:120-128 | under the default limits, an ACK long before READY makes the socket stale at READY |
| GatewayHealth.Health.NoteReady | src/agent_discord/discord/gateway_health.py:120-128 | READY becomes the liveness mark only if there is none |
| GatewayHealth.Health.Verdict | src/agent_discord/discord/gateway_health.py:198-269 | the branches read the state in this order |
| GatewayHealth.Observe | src/agent_discord/discord/gateway_health.py:74-269 | the object, fed any run of calls, gives the verdict the events justify |
| GatewayLiveness.ReadyIsShared | src/agent_discord/discord/realtime.py:231-275 | the health module has heard of a READY on the current socket exactly when the gateway loop has started a session on it |
| GatewayLiveness.StaleTurnIff | src/agent_discord/discord/gateway_health.py:180-269 | a quiet turn finds the socket stale exactly when a session has started on it and its liveness mark is older than the scaled window |
| GatewayLiveness.NoStaleDropBeforeReady | src/agent_discord/discord/realtime.py:231-275 | over every run, no socket is dropped as stale before its READY |
| RateLimit.RestRateLimiter.Acquire | src/agent_discord/discord/rest.py:259-274 | returns with both cooldowns over and a probe allowed through an exhausted bucket |
| RateLimit.RestRateLimiter.Observe | src/agent_discord/discord/rest.py:276-286 | takes what the headers carry, and nothing when they name no bucket |
| RateLimit.RestRateLimiter.NoteRateLimited | src/agent_discord/discord/rest.py:288-302 | raises the global cooldown or empties the route's bucket until the wait is over, and waits |
| RateLimit.GlobalCooldownsHold | src/agent_discord/discord/rest.py:259-264 | over every run of calls, no request leaves before an earlier global cooldown has ended |
| RateLimit.ExhaustedBucketsRest | src/agent_discord/discord/rest.py:265-274 | nor for a bucket last known to be exhausted before its reset |
| RateLimit.RequestsLeaveWhenDue | src/agent_discord/discord/rest.py:259-274 | over every run of calls, a request leaves at once when nothing holds it, and otherwise as soon as cooldowns and reset allow, but for the clock's slack |
| RateLimit.RefusalsAreWaitedOut | src/agent_discord/discord/rest.py:288-302 | over every run of calls, nothing is done before the wait of an earlier refusal is over |
| RateLimit.RoundKeepsStep | src/agent_discord/discord/rest.py:259-302 | one request to a fixed-window server keeps the client's count equal to the server's and its reset no earlier |
| RateLimit.KnownRoutesAreNeverRefused | src/agent_discord/discord/rest.py:259-302 | a route asked before is never refused again, whatever was asked between and however the clock moved |
| RestRetry.Attempt | src/agent_discord/discord/rest.py:1349-1408 | one turn: what is retried, after which pause, and what the limiter learns, also from headers whose body then fails |
| RestRetry.DiscordRequestBytes | src/agent_discord/discord/rest.py:1343-1408 | attempts, pauses, outcome and limiter state are those of the retry story |
| RestRetry.AttemptsAndPausesBounded | src/agent_discord/discord/rest.py:1343-1348 | at most six attempts and 181 seconds of pauses against any answers |
| RestRetry.PausesAreDue | src/agent_discord/discord/rest.py:1366-1408 | after a 429 the pause it asks for; after the first other fault 0.25 seconds, after the second 0.75 |
| RestRetry.NotSentIffNeverConnected | src/agent_discord/discord/rest.py:130-152 | proof that nothing was sent is a failed lookup or one of four errnos, however deeply wrapped, and nothing else |
| RestRetry.PassingIsRetried | src/agent_discord/discord/rest.py:1366-1408 | an attempt is tried again exactly after the faults listed, while the budget lasts |
| RestRetry.ComesThrough | src/agent_discord/discord/rest.py:1343-1408 | a call comes through any such faults within the budgets, in any order, and gives the body |
| RestRetry.PostIsResentOnlyIfSafe | src/agent_discord/discord/rest.py:1362-1408 | a POST is tried again only after a 429, a 502 to 504, or an error of never having connected |
| RestRetry.TimedOutPostIsTheLast | src/agent_discord/discord/rest.py:140-152 | so a POST that times out, bare or wrapped, is not sent again |
| RestRetry.AttemptLearnsHeaders | src/agent_discord/discord/rest.py:1357-1364 | whatever came back, its headers are learned, and the pause is waited out |
| RestRetry.OnlyTheLastMayApply | src/agent_discord/discord/rest.py:1362-1408 | for a call that is not idempotent, an attempt tried again may have been applied exactly when its error was misjudged as never sent |
| RestRetry.PostAppliedAtMostOnce | src/agent_discord/discord/rest.py:1362-1408 | so without a misjudged attempt a POST is applied at most once, by the last attempt, if a server applies nothing it turns away |
| RestRetry.AppliedTwiceIff | src/agent_discord/discord/rest.py:140-152 | two attempts of a POST may have been applied exactly when a misjudged one is followed by one that may be |
| RestRetry.UnreachableWhileReadingAppliesTwice | src/agent_discord/discord/rest.py:1349-1408 | a host unreachable while the answer is read makes a POST be sent again after it may have been applied |
| RestRetry.StopsOnlyWhenItMust | src/agent_discord/discord/rest.py:1366-1408 | it gives up only on an answer it may not retry, a wait over the limit, or a spent budget, and succeeds exactly on a body |
| RestRetry.FailedOriginIsRetriedOnlyIfIdempotent | src/agent_discord/discord/rest.py:1382-1387 | a 500 is tried three times for idempotent methods and once for others |
| Chunking.BestBreak | src/agent_discord/discord/chunking.py:41-51 | the last paragraph break is preferred, then the last newline, then the last space |
| Chunking.CutsAtBestBreak | src/agent_discord/discord/chunking.py:22-51 | a text over the limit is cut at the best break of its first window, or at the limit where there is none or only whitespace before it |
| Chunking.ChunkMessage | src/agent_discord/discord/chunking.py:9-38 | the loop gives the pieces, or refuses a limit below one |
| Chunking.PiecesCover | src/agent_discord/discord/chunking.py:22-38 | pieces lie in the text one after another with only whitespace around them |
| Chunking.PiecesFit | src/agent_discord/discord/chunking.py:22-38 | pieces are non-empty, within the limit, and all but the first start visibly |
| Chunking.CoveringKeepsCharacters | src/agent_discord/discord/chunking.py:9-14 | such a covering loses, repeats and reorders no visible character |
| Chunking.ChunksAreLossless | src/agent_discord/discord/chunking.py:9-38 | all of this for the chunks a caller gets, for every limit from one |
| Chunking.ChunksForInboundSkip | src/agent_discord/discord/facade.py:347-366 | the loop posts the pieces with the prefix carried where missing |
| Chunking.PostedStartWithPrefix | src/agent_discord/discord/facade.py:347-366 | every posted piece starts with the prefix exactly when the limit fits the prefix |
| Chunking.PostedWithinLimit | src/agent_discord/discord/facade.py:360-366 | all are within the limit exactly when it exceeds the carry or none is carried |
| Chunking.RoomIsAllThereIs | src/agent_discord/discord/facade.py:359-359 | pieces that need the carry get all the room the limit leaves, and one character at least |
| Chunking.FittingPiecesStayWhole | src/agent_discord/discord/facade.py:360-366 | where every later piece fits with the carry, each is posted as one message |
| Chunking.CarriedPieceIsTooLong | src/agent_discord/discord/facade.py:360-366 | a card whose second piece is posted over the limit |
| Chunking.PostedCoversContent | src/agent_discord/discord/facade.py:347-366 | outside the carries, the posted text covers the content in order |
| LogStream.PartitionAgrees | src/agent_discord/host/logstream.py:69-75 | partitioning at the last newline and splitting the head finds the text's lines |
| LogStream.EveryThreadIsConserved | src/agent_discord/host/logstream.py:63-79 | in every interleaving a thread's lines and its pending text are exactly what it wrote |
| LogStream.ThreadAlone | src/agent_discord/host/logstream.py:48-51 | they are what the text written under its identifier alone would give: no other thread's text ends up on its lines |
| LogStream.IdentifierUsedAgain | src/agent_discord/host/logstream.py:63-79 | after an identifier changes hands, the partial line left behind heads the new owner's first line |
| LogStream.OwnLinesIff | src/agent_discord/host/logstream.py:63-79 | both owners' lines are their own exactly when the first left no partial line or the second ended none |
| LogStream.LeftoverHeadsTheNextLine | src/agent_discord/host/logstream.py:63-79 | a partial line and a later line of another owner come out as one |
| LogStream.RunTidy | src/agent_discord/host/logstream.py:63-75 | pending texts are non-empty, hold no newline and belong to different threads |
| LogStream.DrainEmitsAll | src/agent_discord/host/logstream.py:89-100 | draining an open stream emits all that is left |
| LogStream.StreamLinesAreRecords | src/agent_discord/host/logstream.py:73-75 | the stream's lines are the stamped records, one for one |
| LogStream.TimestampedStream.Write | src/agent_discord/host/logstream.py:63-79 | one write, as the state says it |
| LogStream.TimestampedStream.Drain | src/agent_discord/host/logstream.py:89-100 | partial lines are stamped one by one and written in order for as long as the stream takes them |
| LogRotation.HostLog.Rotate | src/agent_discord/host/logstream.py:171-203 | shifts every generation by one, gaps included; generation 1 is what was copied, all, a part or nothing; the live log is emptied only if all went well |
| LogRotation.OnlyTheOldestIsLost | src/agent_discord/host/logstream.py:179-192 | all kept text but the oldest generation is still there, in order, and files beyond are untouched |
| LogRotation.RotateEach | src/agent_discord/host/logstream.py:171-195 | after any number of rotations the generations hold the last contents, newest first |
| LogRotation.FailEach | src/agent_discord/host/logstream.py:179-203 | after any failed rotations the newest generations hold what each of them copied, the others have moved up, and the live log stays |
| LogRotation.FailedRotationDuplicates | src/agent_discord/host/logstream.py:179-203 | one failed rotation loses the oldest kept text and leaves what it copied in two places |
| LogRotation.AppendAll | src/agent_discord/host/logstream.py:171-203 | whatever fails, what is on disk ends what was put into generations and the live log, which is within its limit unless the last rotation failed |
| LogRotation.AppendsAreTheTextsIff | src/agent_discord/host/logstream.py:171-203 | that is longer than what was written by the parts left in two places, and equals it exactly if there are none |
| LogRotation.CleanAppendsAreTheTexts | src/agent_discord/host/logstream.py:171-203 | so it is what was written when no copy breaks off and no truncation fails after one |
| LogRotation.BrokenCopyIsNoSuffix | src/agent_discord/host/logstream.py:193-203 | a copy that breaks off leaves on disk what is not the end of what was written |
| Waveform.BucketsGrow | src/agent_discord/discord/tts.py:705-709 | buckets are never empty, so the guard decides nothing, and none is longer than the quotient plus one |
| Waveform.BucketsTile | src/agent_discord/discord/tts.py:707-709 | each sample lies in one bucket and in no other |
| Waveform.SampleIsTwosComplement | src/agent_discord/discord/tts.py:695-704 | a sample is the one number in range that its two bytes stand for, least significant first |
| Waveform.ScaleIsShare | src/agent_discord/discord/tts.py:710-711 | a byte is the peak's share of full scale in 255ths, rounded down |
| Waveform.WaveformFromPcm | src/agent_discord/discord/tts.py:695-711 | each byte is its bucket's scaled peak, in 0..255 |
| Waveform.WaveformPeaksWithTheRecording | src/agent_discord/discord/tts.py:706-711 | the highest byte is the scaled peak of the recording |
| Waveform.ExtremesAreFullScale | src/agent_discord/discord/tts.py:710-711 | both extremes give 255, -32768 too |
| ForumTags.NormalizeTagName | src/agent_discord/host/forum_realm.py:441-458 | the loop with its separator flag gives the name in lower case, runs of separators as one hyphen, none at the ends |
| ForumTags.NormalNameTwice | src/agent_discord/host/forum_realm.py:441-458 | normalising a normal name changes nothing |
| ForumTags.SeparatorJoins | src/agent_discord/host/forum_realm.py:450-458 | a separator joins its two sides with one hyphen, or none where a side is empty |
| ForumTags.OthersVanish | src/agent_discord/host/forum_realm.py:450-458 | any other punctuation is as if it were not there |
| ForumTags.WordsStay | src/agent_discord/host/forum_realm.py:450-458 | words of letters and digits stay |
| ForumTags.AliasesByName | src/agent_discord/host/forum_realm.py:62-90 | each status has these aliases and no others |
| ForumTags.NormalNamesMean | src/agent_discord/host/forum_realm.py:502-535 | a normal name stands for its alias, and a status for itself |
| ForumTags.WordsRunTogether | src/agent_discord/host/forum_realm.py:526-535 | two words that are no alias with a hyphen stand for what they stand for run together |
| ForumTags.StatusValueTwice | src/agent_discord/host/forum_realm.py:502-514 | a normalised status is empty or one of the five, and stays itself |
| ForumTags.BuildStatusTagIds | src/agent_discord/host/forum_realm.py:517-535 | each status maps to the first tag whose normalised or compacted name is an alias of it, and nothing else is mapped |
| ForumTags.MergeAppliedTags | src/agent_discord/host/forum_realm.py:538-569 | the loop keeps the target and the first four distinct other tags, or the first five when unmapped |
| ForumTags.RunKeepsOneStatus | src/agent_discord/host/forum_realm.py:538-569 | after any run: the last mapped status's tag and the first four other tags of the original, in order |
| ForumTags.RunIsWellFormed | src/agent_discord/host/forum_realm.py:545-549 | at most five tags, no duplicates, exactly one status tag |
| ForumTags.FewTagsAreAllCounted | src/agent_discord/host/forum_realm.py:553-556 | with at most five tags to begin with, no other tag is cut before it is counted |
| Dotenv.SplitJoined | src/agent_discord/host/add.py:75-75 | the lines written are the lines read back |
| Dotenv.ReadDotenv | src/agent_discord/host/add.py:41-51 | the reader's map: the last entry of a key counts |
| Dotenv.UpsertDotenv | src/agent_discord/host/add.py:54-75 | the loop replaces known keys in place and appends the rest in order |
| Dotenv.LinesStayInPlace | src/agent_discord/host/add.py:62-71 | a line whose key is updated is replaced where it stands; every other line stays where it is |
| Dotenv.NewKeysFollow | src/agent_discord/host/add.py:72-74 | after them come the updates of new keys, each once, in order |
| Dotenv.UpdatesReadBackIff | src/agent_discord/host/add.py:41-75 | in any file, all updates come back as given exactly when every key and every value is good |
| Dotenv.ValueReadsBackIff | src/agent_discord/host/add.py:41-75 | in any file, under a good key, one updated value comes back exactly when it is on one line without trailing whitespace |
| Dotenv.InnerBreakInjects | src/agent_discord/host/add.py:54-75 | a line break inside a value cuts it there and makes the rest an entry of its own |
| Dotenv.TextReadAfterUpsert | src/agent_discord/host/add.py:41-75 | reading after an upsert gives the old values overridden by the updates, without trailing whitespace |
| Dotenv.OtherLinesAreKept | src/agent_discord/host/add.py:54-72 | comments, blanks and other keys' lines are kept, in order |
| Dotenv.TextUpsertTwice | src/agent_discord/host/add.py:54-75 | a second identical upsert leaves the text unchanged |
| ChannelCsv.MergeNamedCsv | src/agent_discord/host/add.py:83-100 | prints the old pairs with one name set |
| ChannelCsv.ParseChannelRealms | src/agent_discord/host/realms.py:59-93 | the pairs a setting stands for, in order, empty ones left out |
| ChannelCsv.LastItemCounts | src/agent_discord/host/realms.py:74-79 | in a plain list each name has the id of the last item that names it |
| ChannelCsv.SettingKeepsPlaces | src/agent_discord/host/add.py:99-100 | a name that is set keeps its place, and a new one comes last |
| ChannelCsv.ReadBack | src/agent_discord/host/realms.py:63-78 | printed pairs are read back as they were unless the text looks like JSON |
| ChannelCsv.ReadBackIff | src/agent_discord/host/realms.py:63-78 | printed pairs are read back exactly when each is free of separators and the text does not look like JSON |
| ChannelCsv.MergeThenParse | src/agent_discord/host/add.py:83-100 | a merge without separators in name and value, parsed, gives the old pairs with that one set, or what JSON makes of a text with a brace |
| ChannelCsv.MergeSurvivesIff | src/agent_discord/host/realms.py:63-78 | for every name and value, a merge is read back exactly when neither holds a separator, or one is blank, and no brace comes first |
| ChannelCsv.CommaInNameIsLost | src/agent_discord/host/add.py:83-100 | a comma in the name: the part before it is lost and the rest gets the id |
| ChannelCsv.MergeSetsOneName | src/agent_discord/host/add.py:99-100 | in a merge that survives, that name is set, or removed by an empty value, and every other name keeps its id |
| AddRealm.AddRealm | src/agent_discord/host/add.py:178-189 | reads the file, merges the name into its list or else the environment's, and writes the file back |
| AddRealm.AddReadsBackIff | src/agent_discord/host/add.py:178-189 | the file's list then stands for the old pairs with that one set exactly when the merge survives and no line break is inside name or id |
| AddRealm.OtherChannelsSurvive | src/agent_discord/host/add.py:178-189 | every other channel of the file's list survives, whatever the environment holds |
| AddRealm.EnvironmentIsTheStart | src/agent_discord/host/add.py:182-184 | without a list in the file, the one added to is the environment's |
| AddRealm.OtherSettingsAreKept | src/agent_discord/host/add.py:178-189 | without such a line break every other setting of the file is what it was |
| AddRealm.BrokenIdInjects | src/agent_discord/host/add.py:178-189 | an id with a line break loses its rest, which becomes a setting of its own |
| Vault.Keystream | src/agent_discord/keys/vault.py:55-66 | the counter loop gives the stream's first bytes, exactly as many as asked |
| Vault.StreamsAreConsistent | src/agent_discord/keys/vault.py:55-66 | shorter streams are prefixes of longer ones |
| Vault.StreamByte | src/agent_discord/keys/vault.py:55-66 | byte i is byte i modulo 32 of the block with counter i / 32 |
| Vault.CipherByte | src/agent_discord/keys/vault.py:51-66 | text and ciphertext differ by exactly that byte |
| Vault.XorTwice | src/agent_discord/keys/vault.py:51-52 | the cipher undoes itself |
| Vault.Unseal | src/agent_discord/keys/vault.py:110-123 | an entry opens to the text it was sealed from |
| Vault.KeyVault.Put | src/agent_discord/keys/vault.py:77-108 | the stripped secret is put under the normalised provider; an empty one is refused; other providers are unaffected |
| Vault.KeyVault.Get | src/agent_discord/keys/vault.py:110-123 | gives the secret last put under the provider, or none |
| Vault.KeyVault.LoadOrCreateMaster | src/agent_discord/keys/vault.py:164-171 | a 32-byte master key is kept; anything else is replaced |

## Left out

- Layout.FitComponentsV2: a component's `type` is a number and its keys other than content, accessory and nested list are one opaque value; nested lists of an accessory are not modelled, nor cyclic inputs, on which the copy does not end.
- Layout.TrimTextInPlace: selects the text displays inside its loop instead of in a list beforehand.
- WebSocket.WebSocketClient.Listen: the code ignores FIN and skips opcode 0, so the claims are per frame, not per fragmented message (section 5.4 of RFC 6455); UTF-8 decoding of payloads and a socket error while a pong is sent are not modelled.
- The WebSocket opening handshake, TLS, and the lock that keeps two senders' frames apart.
- RemoteCook: a state machine over atomic steps instead of a class, since the point is every interleaving; one run id, taken as stripped, and streams of it that do not overlap. A line read live gives a progress event, and an exception in the iterator counts as the consumer's leaving.
- RemoteCook: remote process ids, interrupt signals, permission gates and their writeback, which the check and the write do not cover together.
- Gateway: heartbeats, presence and dispatch handlers, the pause of one to five seconds that op 9 asks for, and a failing send of a handshake, which counts as sent and then broken. Backoff is over reals; the source's power of two overflows a float from attempt 1025 on.
- Gateway.Turn: message parsing; what cannot be read as a JSON object is noise, a sequence number that cannot be read is absent.
- GatewayHealth: the texts of reasons, sent heartbeats and the persisted copy. The never-READY grace counts from the first time a gateway was expected in the process, as in the code, not from a connect.
- RateLimit.KnownRoutesAreNeverRefused: one request at a time, exact headers and no lost responses; other threads sharing the limiter are not modelled, nor the key that maps a URL to a route.
- RestRetry: whether an exception's message speaks of a transient fault, and the stage at which it was raised, are parts of an answer; a URL exception counts as transient whatever its reason, as in the code; reading the 429 body and headers for the wait is not modelled.
- Chunking: characters are Unicode code points, whitespace those that Python strips.
- LogStream: a thread is its identifier; an exception from the wrapped stream inside a write, and the periodic size check after it, are not modelled.
- LogRotation.HostLog.Rotate: one rotation is atomic and a rename never fails; a writer between copy and truncation is not excluded by the code and would lose its text.
- Waveform: base64 and the rounded duration.
- ForumTags.NormalizeTagName: letters and lower case are those of ASCII; parsing the forum's payload is not modelled.
- Dotenv.UpsertDotenv: file permissions, and secrets' mode.
- AddRealm.AddReadsBackIff: the list in the environment, used when the file has none, is on one line; the list merged into is a plain one; no JSON text in the file stands for the very pairs printed.
- AddRealm.AddRealm: the binding in the store and the forum check before the file is touched.
- ChannelCsv.MergeSurvivesIff: the list merged into is a plain one; from a JSON one any pairs may come, and ReadBackIff says which of them survive.
- ChannelCsv: JSON settings are any function from texts to pairs, for the exact conditions one that does not give back the very pairs just printed; lower case is that of ASCII letters; the list of bare ids is rewritten alike and is not modelled.
- Vault: the keyed hash is any function to 32 bytes, text encoding any with an inverse, the counter unbounded; fingerprints, dates, file modes and a master key file changed by others between calls.
- Panel, interactions, status wording, doctor, other commands, owner registry and version checks: one-branch facts.
