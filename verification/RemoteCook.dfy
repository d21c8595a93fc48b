/**
 Cancel versus settle in the SSH cook backend, for one run id: one `stream()` and any number
 of `cancel()` callers, interleaved at the granularity of the source's lines. The stream may find
 a request, and cancels still under way, from streams of that run id before it.
 */
module RemoteCook {
  datatype Status = Pending | Running | Completed | Failed | Cancelled

  datatype Kind = Progress | Dispatch | Error | Receipt | CancelRequested

  /** Where `stream()` is; the event in hand is kept beside it. A `finally` block is the last two steps to `Done`. */
  datatype StreamPc =
    | Start
    | Preparing
    | Denying
    | Registering
    | Dispatching
    | Asking
    | FirstCheck
    | SecondCheck
    | Writing
    | Emitting
    | Cancelling
    | EmittingCancel
    | LastCheck
    | TailRead
    | TailWrite
    | Unregistering
    | Discarding
    | Done

  /** Where the event iterator is: reading live lines, past its own cancel check, or ended. */
  datatype Iterator = Live | Settling | Over

  /** Where one `cancel()` is. */
  datatype CancelPc = Waiting | Interrupting | Confirmed | Returned(ok: bool)

  /**
   What happened, in order: cancel requests, checks for one with their answer, writes of the status by the stream
   and by a confirmed cancel, events given out, and the event at which the consumer dropped the stream.
   */
  datatype Act =
    | Asked
    | Saw(yes: bool)
    | StreamWrote(status: Status)
    | CancelWrote
    | Emitted(kind: Kind)
    | Dropped(at: Kind)

  /** `cancels` are the callers of this stream, `earlier` those that began during an earlier one. */
  datatype State = State(
    status: Status,
    requested: bool,
    child: bool,
    spawned: bool,
    abandoned: bool,
    pc: StreamPc,
    event: Kind,
    iter: Iterator,
    cancels: seq<CancelPc>,
    earlier: seq<CancelPc>,
    log: seq<Act>)

  /** What the environment decides at a step of the stream. */
  datatype Luck = Go | Fail | Speak | Settle(ok: bool) | Abandon

  datatype Choice = Stream(luck: Luck) | Cancel(who: nat, confirmed: bool) | Earlier(who: nat, confirmed: bool)

  function Add(log: seq<Act>, act: Act): seq<Act> {
    log + [act]
  }

  /** Before a stream: what it finds may come from earlier streams of the run id. */
  function Before(status: Status, requested: bool, callers: nat, earlier: seq<CancelPc>): State {
    State(status, requested, false, false, false, Start, Progress, Live, seq(callers, _ => Waiting), earlier, [])
  }

  function Init(callers: nat): State {
    Before(Pending, false, callers, [])
  }

  predicate UnderWay(c: CancelPc) {
    c.Interrupting? || c.Confirmed?
  }

  function InFlight(cancels: seq<CancelPc>): (some: seq<CancelPc>)
    ensures forall c | c in some :: UnderWay(c)
  {
    if cancels == [] then []
    else (if UnderWay(cancels[0]) then [cancels[0]] else []) + InFlight(cancels[1..])
  }

  /** The next stream of the run id, after all that happened around this one. */
  function NextRun(first: State, callers: nat): State {
    Before(first.status, first.requested, callers, InFlight(first.cancels) + InFlight(first.earlier))
  }

  /** Any state in which a stream can find its run id. */
  ghost predicate AtStart(s: State) {
    s == Before(s.status, s.requested, |s.cancels|, s.earlier) && forall c | c in s.earlier :: UnderWay(c)
  }

  lemma FirstAndNextStart(first: State, callers: nat)
    ensures AtStart(Init(callers)) && AtStart(NextRun(first, callers))
  {
  }

  function Emit(s: State, kind: Kind, pc: StreamPc, luck: Luck): State {
    var log := Add(s.log, Emitted(kind));
    if luck.Abandon? then s.(log := Add(log, Dropped(kind)), abandoned := true, pc := Unregistering)
    else s.(log := log, pc := pc)
  }

  function Check(s: State, clear: StreamPc): State {
    s.(log := Add(s.log, Saw(s.requested)), pc := if s.requested then Cancelling else clear)
  }

  function Write(s: State, status: Status, pc: StreamPc): State {
    s.(status := status, log := Add(s.log, StreamWrote(status)), pc := pc)
  }

  /** Asking the iterator for its next event; a line read live gives a progress event. */
  function Ask(s: State, luck: Luck): State {
    if s.iter.Over? then s.(pc := LastCheck)
    else if luck.Abandon? then s.(abandoned := true, pc := Unregistering)
    else if s.iter.Settling? then
      s.(iter := Over, pc := FirstCheck, event := if luck.Settle? && luck.ok then Receipt else Error)
    else if luck.Speak? then s.(pc := FirstCheck, event := Progress)
    else s.(iter := if s.requested then Over else Settling)
  }

  predicate InSetup(pc: StreamPc) {
    pc.Start? || pc.Preparing? || pc.Denying? || pc.Registering? || pc.Dispatching?
  }

  predicate InLoop(pc: StreamPc) {
    pc.Asking? || pc.FirstCheck? || pc.SecondCheck? || pc.Writing? || pc.Emitting?
  }

  /** Up to the first event of a spawned run. */
  function Setup(s: State, luck: Luck): State
    requires InSetup(s.pc)
  {
    match s.pc
    case Start => Write(s, Running, Preparing)
    case Preparing =>
      if luck.Fail? then Write(s, Failed, Denying)
      else if luck.Speak? then s.(log := Add(s.log, Emitted(Progress)))
      else if luck.Abandon? then s.(abandoned := true, pc := Done)
      else s.(pc := Registering)
    case Denying => s.(log := Add(s.log, Emitted(Error)), pc := Done)
    case Registering => s.(child := true, spawned := true, pc := Dispatching)
    case Dispatching => Emit(s, Dispatch, Asking, luck)
  }

  /** The loop over the iterator's events. */
  function Pump(s: State, luck: Luck): State
    requires InLoop(s.pc)
  {
    match s.pc
    case Asking => Ask(s, luck)
    case FirstCheck => Check(s, if s.event.Error? || s.event.Receipt? then SecondCheck else Emitting)
    case SecondCheck => Check(s, Writing)
    case Writing => Write(s, if s.event.Receipt? then Completed else Failed, Emitting)
    case Emitting => Emit(s, s.event, Asking, luck)
  }

  /** From a request seen, or the end of the events, to the end of the stream. */
  function Finish(s: State): State
    requires !InSetup(s.pc) && !InLoop(s.pc)
  {
    match s.pc
    case Cancelling => Write(s, Cancelled, EmittingCancel)
    case EmittingCancel => s.(log := Add(s.log, Emitted(CancelRequested)), pc := Unregistering)
    case LastCheck => Check(s, TailRead)
    case TailRead => s.(pc := if s.status.Running? then TailWrite else Unregistering)
    case TailWrite => Write(s, Completed, Unregistering)
    case Unregistering => s.(child := false, pc := Discarding)
    case Discarding => s.(requested := false, pc := Done)
    case Done => s
  }

  /** One line of `stream()`, or of the iterator it drives. */
  function StreamStep(s: State, luck: Luck): State {
    if InSetup(s.pc) then Setup(s, luck) else if InLoop(s.pc) then Pump(s, luck) else Finish(s)
  }

  /** One step of caller `who`: request and look up the child, interrupt it, record the status. */
  function CancelStep(s: State, who: nat, confirmed: bool): State
    requires who < |s.cancels|
  {
    match s.cancels[who]
    case Waiting =>
      s.(requested := true, log := Add(s.log, Asked),
         cancels := s.cancels[who := if s.child then Interrupting else Returned(false)])
    case Interrupting => s.(cancels := s.cancels[who := if confirmed then Confirmed else Returned(false)])
    case Confirmed =>
      s.(status := Cancelled, log := Add(s.log, CancelWrote), cancels := s.cancels[who := Returned(true)])
    case Returned(_) => s
  }

  /** One step of a caller that had begun during an earlier stream and holds the child of that one. */
  function EarlierStep(s: State, who: nat, confirmed: bool): State
    requires who < |s.earlier|
  {
    match s.earlier[who]
    case Interrupting => s.(earlier := s.earlier[who := if confirmed then Confirmed else Returned(false)])
    case Confirmed =>
      s.(status := Cancelled, log := Add(s.log, CancelWrote), earlier := s.earlier[who := Returned(true)])
    case _ => s
  }

  function Step(s: State, c: Choice): State {
    match c
    case Stream(luck) => StreamStep(s, luck)
    case Earlier(who, confirmed) => if who < |s.earlier| then EarlierStep(s, who, confirmed) else s
    case Cancel(who, confirmed) => if who < |s.cancels| then CancelStep(s, who, confirmed) else s
  }

  /** Any interleaving: the list of choices says who moves, and what the environment does. */
  function Run(s: State, choices: seq<Choice>): State
    decreases |choices|
  {
    if choices == [] then s else Run(Step(s, choices[0]), choices[1..])
  }

  // ---- What the log says

  predicate SawRequest(log: seq<Act>) {
    Saw(true) in log
  }

  /** The consumer was given an event of this kind. */
  predicate Given(log: seq<Act>, kind: Kind) {
    Emitted(kind) in log
  }

  /** How many checks in a row have found no request since the last event was given out. */
  function ClearChecks(log: seq<Act>): nat {
    if log == [] then 0
    else
      match log[|log| - 1]
      case Saw(yes) => if yes then 0 else ClearChecks(log[..|log| - 1]) + 1
      case Emitted(_) => 0
      case _ => ClearChecks(log[..|log| - 1])
  }

  predicate ClearedOnce(log: seq<Act>) {
    ClearChecks(log) >= 1
  }

  predicate ClearedTwice(log: seq<Act>) {
    ClearChecks(log) >= 2
  }

  /** Every RECEIPT given out was preceded by two checks, just before it, that saw no request. */
  ghost predicate ReceiptsChecked(log: seq<Act>) {
    forall i | 0 <= i < |log| && log[i] == Emitted(Receipt) :: ClearedTwice(log[..i])
  }

  /** Every check after a request sees it. */
  ghost predicate RequestsSeen(log: seq<Act>) {
    forall i, j | 0 <= i < j < |log| && log[i] == Asked && log[j].Saw? :: log[j].yes
  }

  lemma AppendAct(log: seq<Act>, act: Act)
    ensures ClearedOnce(Add(log, act)) <==> if act.Saw? then !act.yes else !act.Emitted? && ClearedOnce(log)
    ensures ClearedTwice(Add(log, act)) <==>
            if act.Saw? then !act.yes && ClearedOnce(log) else !act.Emitted? && ClearedTwice(log)
    ensures SawRequest(Add(log, act)) <==> SawRequest(log) || (act.Saw? && act.yes)
    ensures Asked in Add(log, act) <==> Asked in log || act.Asked?
    ensures ReceiptsChecked(log) && (act.Emitted? && act.kind.Receipt? ==> ClearedTwice(log)) ==>
            ReceiptsChecked(Add(log, act))
    ensures RequestsSeen(log) && (act.Saw? && !act.yes ==> Asked !in log) ==> RequestsSeen(Add(log, act))
  {
    var longer := log + [act];
    assert longer[..|log|] == log && longer[|log|] == act;
    forall i | 0 <= i < |log| ensures longer[..i] == log[..i] && longer[i] == log[i] {
    }
  }

  /** No RECEIPT is given out once a check has seen a request. */
  ghost predicate NoReceiptAfterSeen(log: seq<Act>) {
    forall i, j | 0 <= i < j < |log| && log[i] == Saw(true) :: log[j] != Emitted(Receipt)
  }

  lemma AppendAnnounced(log: seq<Act>, act: Act)
    ensures Given(Add(log, act), Receipt) <==> Given(log, Receipt) || (act.Emitted? && act.kind.Receipt?)
    ensures Given(Add(log, act), Error) <==> Given(log, Error) || (act.Emitted? && act.kind.Error?)
    ensures Given(Add(log, act), CancelRequested) <==>
            Given(log, CancelRequested) || (act.Emitted? && act.kind.CancelRequested?)
    ensures SawRequest(Add(log, act)) <==> SawRequest(log) || (act.Saw? && act.yes)
    ensures NoReceiptAfterSeen(log) && (act.Emitted? && act.kind.Receipt? ==> !SawRequest(log)) ==>
            NoReceiptAfterSeen(Add(log, act))
  {
  }

  /** The status last written. */
  function LastWritten(log: seq<Act>): Status {
    if log == [] then Pending
    else
      match log[|log| - 1]
      case StreamWrote(status) => status
      case CancelWrote => Cancelled
      case _ => LastWritten(log[..|log| - 1])
  }

  /** The latest write of the status was the stream's: no confirmed cancel has written after it. */
  predicate StreamWroteLast(log: seq<Act>) {
    if log == [] then false
    else
      match log[|log| - 1]
      case StreamWrote(_) => true
      case CancelWrote => false
      case _ => StreamWroteLast(log[..|log| - 1])
  }

  /** The consumer dropped the stream at the RECEIPT or ERROR that settles the run. */
  predicate DroppedAtSettlement(log: seq<Act>) {
    Dropped(Receipt) in log || Dropped(Error) in log
  }

  lemma AppendWrite(log: seq<Act>, act: Act)
    ensures LastWritten(Add(log, act)) ==
            if act.StreamWrote? then act.status else if act.CancelWrote? then Cancelled else LastWritten(log)
    ensures StreamWroteLast(Add(log, act)) <==> act.StreamWrote? || (!act.CancelWrote? && StreamWroteLast(log))
    ensures DroppedAtSettlement(Add(log, act)) <==>
            DroppedAtSettlement(log) || (act.Dropped? && (act.at.Receipt? || act.at.Error?))
    ensures SawRequest(Add(log, act)) <==> SawRequest(log) || (act.Saw? && act.yes)
  {
    assert (log + [act])[..|log|] == log;
  }

  // ---- The invariant

  /** Some caller has begun. */
  ghost predicate Begun(cancels: seq<CancelPc>) {
    exists i :: 0 <= i < |cancels| && cancels[i] != Waiting
  }

  /** Some caller got hold of a registered child. */
  ghost predicate Reached(cancels: seq<CancelPc>) {
    exists i ::
      0 <= i < |cancels| && (cancels[i].Interrupting? || cancels[i].Confirmed? || cancels[i] == Returned(true))
  }

  predicate AnyConfirmed(cancels: seq<CancelPc>) {
    Returned(true) in cancels
  }

  lemma UpdateCancel(cancels: seq<CancelPc>, who: nat, c: CancelPc)
    requires who < |cancels| && c != Waiting && cancels[who] != Returned(true)
    requires c.Confirmed? || c == Returned(true) ==> cancels[who].Interrupting? || cancels[who].Confirmed?
    ensures Begun(cancels[who := c])
    ensures AnyConfirmed(cancels[who := c]) <==> AnyConfirmed(cancels) || c == Returned(true)
    ensures Reached(cancels[who := c]) ==> Reached(cancels) || c == Interrupting
    ensures cancels[who] != Waiting ==> Begun(cancels)
    ensures cancels[who].Interrupting? || cancels[who].Confirmed? ==> Reached(cancels)
  {
    var after := cancels[who := c];
    assert after[who] == c;
    if AnyConfirmed(cancels) {
      var i :| 0 <= i < |cancels| && cancels[i] == Returned(true);
      assert after[i] == Returned(true);
    }
    if Reached(after) && c != Interrupting {
      var i :| 0 <= i < |after| && (after[i].Interrupting? || after[i].Confirmed? || after[i] == Returned(true));
      assert i == who || cancels[i] == after[i];
    }
  }

  predicate BeforeSpawn(pc: StreamPc) {
    pc.Start? || pc.Preparing? || pc.Denying? || pc.Registering?
  }

  predicate InFinally(pc: StreamPc) {
    pc.Unregistering? || pc.Discarding? || pc.Done?
  }

  /** A child exists only once registered, and only then can a cancel take hold. */
  ghost predicate SpawnInv(s: State) {
    && (s.child ==> s.spawned && !s.pc.Discarding? && !s.pc.Done?)
    && (BeforeSpawn(s.pc) ==> !s.spawned && !s.abandoned)
    && (s.abandoned ==> InFinally(s.pc))
    && (Reached(s.cancels) ==> s.spawned)
    && (AnyConfirmed(s.cancels) ==> s.spawned)
  }

  /** A request stays in the set until the very end of the stream. */
  ghost predicate RequestInv(s: State) {
    && (Begun(s.cancels) && !s.pc.Done? ==> s.requested)
    && (AnyConfirmed(s.cancels) ==> Begun(s.cancels))
    && (Asked in s.log && !s.pc.Done? ==> s.requested)
    && RequestsSeen(s.log)
  }

  /** Events on their way out: a RECEIPT was cleared by the two latest checks. */
  ghost predicate EventInv(s: State) {
    ReceiptsChecked(s.log) && ClearInv(s)
  }

  ghost predicate ClearInv(s: State) {
    && (s.pc.SecondCheck? ==> ClearedOnce(s.log))
    && ((s.pc.Writing? || s.pc.Emitting?) && s.event.Receipt? ==> ClearedTwice(s.log))
  }

  /** The tail never finds the status still running: the iterator ends settled or cancelled. */
  ghost predicate SettleInv(s: State) {
    && !s.pc.TailWrite?
    && (BeforeSpawn(s.pc) || s.pc.Dispatching? ==> s.iter.Live?)
    && (s.pc.SecondCheck? || s.pc.Writing? ==> s.event.Error? || s.event.Receipt?)
    && (s.pc.LastCheck? || s.pc.TailRead? ==> s.iter.Over?)
    && (s.pc.TailRead? ==> !s.status.Running?)
    && (s.iter.Over? && (s.pc.Asking? || s.pc.LastCheck?) ==> !s.status.Running? || s.requested)
    && (s.iter.Over? && s.pc.Emitting? ==> !s.status.Running?)
    && (s.pc.SecondCheck? || s.pc.Writing? ==> s.iter.Over?)
    && (s.pc.FirstCheck? || s.pc.Emitting? ==>
          if s.iter.Over? then s.event.Error? || s.event.Receipt? else s.event.Progress?)
  }

  /** A seen request, or a confirmed cancel, decides the status before the stream finishes. */
  ghost predicate StatusInv(s: State) {
    && (s.pc.Cancelling? ==> s.requested && SawRequest(s.log))
    && (s.pc.EmittingCancel? ==> SawRequest(s.log))
    && (SawRequest(s.log) ==> s.pc.Cancelling? || s.pc.EmittingCancel? || InFinally(s.pc))
    && (SawRequest(s.log) && !s.pc.Cancelling? ==> s.status.Cancelled?)
    && (AnyConfirmed(s.cancels) && !s.abandoned && (s.pc.TailRead? || InFinally(s.pc)) ==> s.status.Cancelled?)
    && (s.status.Cancelled? && !s.pc.Start? ==>
          SawRequest(s.log) || AnyConfirmed(s.cancels) || AnyConfirmed(s.earlier))
  }

  /** A settled status has been, or is about to be, announced by its event. */
  ghost predicate AnnounceInv(s: State) {
    && (s.status.Completed? && !s.pc.Start? ==> Given(s.log, Receipt) || (s.pc.Emitting? && s.event.Receipt?))
    && (s.status.Failed? && !s.pc.Start? ==>
          Given(s.log, Error) || s.pc.Denying? || (s.pc.Emitting? && s.event.Error?))
    && (s.status.Pending? ==> s.pc.Start?)
    && (s.pc.Denying? ==> !s.status.Running?)
    && (InFinally(s.pc) && !s.abandoned ==> !s.status.Running?)
    && (SawRequest(s.log) && InFinally(s.pc) ==> Given(s.log, CancelRequested))
    && (Given(s.log, CancelRequested) ==> SawRequest(s.log))
    && NoReceiptAfterSeen(s.log)
  }

  /** The status is the one last written; a stream dropped at a settlement had written it. */
  ghost predicate WriteInv(s: State) {
    && (!s.pc.Start? ==> s.status == LastWritten(s.log))
    && (!s.pc.Start? && !StreamWroteLast(s.log) ==> s.status.Cancelled?)
    && (!s.pc.Start? && StreamWroteLast(s.log) && s.status.Cancelled? ==> SawRequest(s.log))
    && (s.pc.Emitting? && !s.event.Progress? && StreamWroteLast(s.log) ==> s.status.Completed? || s.status.Failed?)
    && (DroppedAtSettlement(s.log) ==> InFinally(s.pc))
    && (DroppedAtSettlement(s.log) && StreamWroteLast(s.log) ==> s.status.Completed? || s.status.Failed?)
  }

  /** After a confirmed cancel only a settlement can leave another status, and only if the stream is dropped there. */
  ghost predicate DropInv(s: State) {
    && (AnyConfirmed(s.cancels) ==> !s.status.Running? && !s.status.Pending?)
    && (s.pc.Preparing? || s.pc.Registering? || s.pc.Dispatching? ==> s.status.Running? || s.status.Cancelled?)
    && (!s.iter.Over? && (s.pc.Asking? || s.pc.FirstCheck? || s.pc.Emitting?) ==>
          s.status.Running? || s.status.Cancelled?)
    && (InFinally(s.pc) && s.abandoned && AnyConfirmed(s.cancels) && !s.status.Cancelled? ==>
          DroppedAtSettlement(s.log))
  }

  ghost predicate Inv(s: State) {
    SpawnInv(s) && RequestInv(s) && EventInv(s) && SettleInv(s) && StatusInv(s) && AnnounceInv(s) &&
    WriteInv(s) && DropInv(s)
  }

  lemma BeforeInv(s: State)
    requires AtStart(s)
    ensures Inv(s)
  {
  }

  lemma SetupKeepsShape(s: State, luck: Luck)
    requires Inv(s) && InSetup(s.pc)
    ensures SpawnInv(Setup(s, luck)) && SettleInv(Setup(s, luck))
  {
    hide ClearChecks, ClearedOnce, ClearedTwice, SawRequest, ReceiptsChecked, RequestsSeen, Begun, Reached;
    hide AnyConfirmed, Add, Given, NoReceiptAfterSeen, LastWritten, StreamWroteLast, DroppedAtSettlement;
    hide RequestInv, EventInv, AnnounceInv, WriteInv, DropInv;
    match s.pc
    case Start =>
    case Preparing =>
    case Denying =>
    case Registering =>
    case Dispatching =>
  }

  lemma SetupKeepsChecks(s: State, luck: Luck)
    requires Inv(s) && InSetup(s.pc)
    ensures RequestInv(Setup(s, luck)) && EventInv(Setup(s, luck)) && StatusInv(Setup(s, luck))
  {
    hide ClearChecks, ClearedOnce, ClearedTwice, SawRequest, ReceiptsChecked, RequestsSeen, Begun, Reached;
    hide AnyConfirmed, Add, Given, NoReceiptAfterSeen, LastWritten, StreamWroteLast, DroppedAtSettlement;
    hide AnnounceInv, WriteInv, DropInv;
    match s.pc
    case Start => AppendAct(s.log, StreamWrote(Running));
    case Preparing =>
      AppendAct(s.log, Emitted(Progress));
      AppendAct(s.log, StreamWrote(Failed));
    case Denying => AppendAct(s.log, Emitted(Error));
    case Registering =>
    case Dispatching =>
      AppendAct(s.log, Emitted(Dispatch));
      AppendAct(Add(s.log, Emitted(Dispatch)), Dropped(Dispatch));
  }

  lemma SetupKeepsAnnounced(s: State, luck: Luck)
    requires Inv(s) && InSetup(s.pc)
    ensures AnnounceInv(Setup(s, luck))
  {
    hide ClearChecks, ClearedOnce, ClearedTwice, SawRequest, ReceiptsChecked, RequestsSeen, Begun, Reached;
    hide AnyConfirmed, Add, Given, NoReceiptAfterSeen, LastWritten, StreamWroteLast, DroppedAtSettlement;
    hide RequestInv, EventInv, WriteInv, DropInv;
    match s.pc
    case Start => AppendAnnounced(s.log, StreamWrote(Running));
    case Preparing =>
      AppendAnnounced(s.log, Emitted(Progress));
      AppendAnnounced(s.log, StreamWrote(Failed));
    case Denying => AppendAnnounced(s.log, Emitted(Error));
    case Registering =>
    case Dispatching =>
      AppendAnnounced(s.log, Emitted(Dispatch));
      AppendAnnounced(Add(s.log, Emitted(Dispatch)), Dropped(Dispatch));
  }

  lemma SetupKeepsWritten(s: State, luck: Luck)
    requires Inv(s) && InSetup(s.pc)
    ensures WriteInv(Setup(s, luck)) && DropInv(Setup(s, luck))
  {
    hide ClearChecks, ClearedOnce, ClearedTwice, SawRequest, ReceiptsChecked, RequestsSeen, Begun, Reached;
    hide AnyConfirmed, Add, Given, NoReceiptAfterSeen, LastWritten, StreamWroteLast, DroppedAtSettlement;
    hide RequestInv, EventInv;
    match s.pc
    case Start => AppendWrite(s.log, StreamWrote(Running));
    case Preparing =>
      AppendWrite(s.log, Emitted(Progress));
      AppendWrite(s.log, StreamWrote(Failed));
    case Denying => AppendWrite(s.log, Emitted(Error));
    case Registering =>
    case Dispatching =>
      AppendWrite(s.log, Emitted(Dispatch));
      AppendWrite(Add(s.log, Emitted(Dispatch)), Dropped(Dispatch));
  }

  lemma PumpKeepsShape(s: State, luck: Luck)
    requires Inv(s) && InLoop(s.pc)
    ensures SpawnInv(Pump(s, luck)) && SettleInv(Pump(s, luck))
  {
    hide ClearChecks, ClearedOnce, ClearedTwice, SawRequest, ReceiptsChecked, RequestsSeen, Begun, Reached;
    hide AnyConfirmed, Add, Given, NoReceiptAfterSeen, LastWritten, StreamWroteLast, DroppedAtSettlement;
    hide RequestInv, EventInv, AnnounceInv, WriteInv, DropInv;
    match s.pc
    case Asking =>
      if s.iter.Over? {
      } else if luck.Abandon? {
      } else if s.iter.Settling? {
      } else if luck.Speak? {
      }
    case FirstCheck =>
      if s.requested {
      }
    case SecondCheck =>
      if s.requested {
      }
    case Writing =>
    case Emitting =>
      if luck.Abandon? {
      }
  }

  lemma PumpKeepsChecks(s: State, luck: Luck)
    requires Inv(s) && InLoop(s.pc)
    ensures RequestInv(Pump(s, luck)) && EventInv(Pump(s, luck))
  {
    hide ClearChecks, ClearedOnce, ClearedTwice, SawRequest, ReceiptsChecked, RequestsSeen, Begun, Reached;
    hide AnyConfirmed, Add, Given, NoReceiptAfterSeen, LastWritten, StreamWroteLast, DroppedAtSettlement;
    hide AnnounceInv, WriteInv, DropInv;
    match s.pc
    case Asking =>
      if s.iter.Over? {
      } else if luck.Abandon? {
      } else if s.iter.Settling? {
      } else if luck.Speak? {
      }
    case FirstCheck =>
      AppendAct(s.log, Saw(s.requested));
      if s.requested {
      }
    case SecondCheck =>
      AppendAct(s.log, Saw(s.requested));
      if s.requested {
      }
    case Writing =>
      AppendAct(s.log, StreamWrote(Completed));
      AppendAct(s.log, StreamWrote(Failed));
    case Emitting =>
      AppendAct(s.log, Emitted(s.event));
      AppendAct(Add(s.log, Emitted(s.event)), Dropped(s.event));
      if luck.Abandon? {
      }
  }

  lemma PumpKeepsStatus(s: State, luck: Luck)
    requires Inv(s) && InLoop(s.pc)
    ensures StatusInv(Pump(s, luck))
  {
    hide ClearChecks, ClearedOnce, ClearedTwice, SawRequest, ReceiptsChecked, RequestsSeen, Begun, Reached;
    hide AnyConfirmed, Add, Given, NoReceiptAfterSeen, LastWritten, StreamWroteLast, DroppedAtSettlement;
    hide EventInv, AnnounceInv, WriteInv, DropInv;
    match s.pc
    case Asking =>
      if s.iter.Over? {
      } else if luck.Abandon? {
      } else if s.iter.Settling? {
      } else if luck.Speak? {
      }
    case FirstCheck =>
      AppendAct(s.log, Saw(s.requested));
      if s.requested {
      }
    case SecondCheck =>
      AppendAct(s.log, Saw(s.requested));
      if s.requested {
      }
    case Writing =>
      AppendAct(s.log, StreamWrote(Completed));
      AppendAct(s.log, StreamWrote(Failed));
    case Emitting =>
      AppendAct(s.log, Emitted(s.event));
      AppendAct(Add(s.log, Emitted(s.event)), Dropped(s.event));
      if luck.Abandon? {
      }
  }

  lemma PumpKeepsAnnounced(s: State, luck: Luck)
    requires Inv(s) && InLoop(s.pc)
    ensures AnnounceInv(Pump(s, luck))
  {
    hide ClearChecks, ClearedOnce, ClearedTwice, SawRequest, ReceiptsChecked, RequestsSeen, Begun, Reached;
    hide AnyConfirmed, Add, Given, NoReceiptAfterSeen, LastWritten, StreamWroteLast, DroppedAtSettlement;
    hide RequestInv, EventInv, WriteInv, DropInv;
    match s.pc
    case Asking =>
      if s.iter.Over? {
      } else if luck.Abandon? {
      } else if s.iter.Settling? {
      } else if luck.Speak? {
      }
    case FirstCheck =>
      AppendAnnounced(s.log, Saw(s.requested));
      if s.requested {
      }
    case SecondCheck =>
      AppendAnnounced(s.log, Saw(s.requested));
      if s.requested {
      }
    case Writing =>
      AppendAnnounced(s.log, StreamWrote(Completed));
      AppendAnnounced(s.log, StreamWrote(Failed));
    case Emitting =>
      AppendAnnounced(s.log, Emitted(s.event));
      AppendAnnounced(Add(s.log, Emitted(s.event)), Dropped(s.event));
      if luck.Abandon? {
      }
  }

  lemma PumpKeepsWritten(s: State, luck: Luck)
    requires Inv(s) && InLoop(s.pc)
    ensures WriteInv(Pump(s, luck)) && DropInv(Pump(s, luck))
  {
    hide ClearChecks, ClearedOnce, ClearedTwice, SawRequest, ReceiptsChecked, RequestsSeen, Begun, Reached;
    hide AnyConfirmed, Add, Given, NoReceiptAfterSeen, LastWritten, StreamWroteLast, DroppedAtSettlement;
    hide RequestInv, EventInv;
    match s.pc
    case Asking =>
      if s.iter.Over? {
      } else if luck.Abandon? {
      } else if s.iter.Settling? {
      } else if luck.Speak? {
      }
    case FirstCheck =>
      AppendWrite(s.log, Saw(s.requested));
      if s.requested {
      }
    case SecondCheck =>
      AppendWrite(s.log, Saw(s.requested));
      if s.requested {
      }
    case Writing =>
      AppendWrite(s.log, StreamWrote(Completed));
      AppendWrite(s.log, StreamWrote(Failed));
    case Emitting =>
      AppendWrite(s.log, Emitted(s.event));
      AppendWrite(Add(s.log, Emitted(s.event)), Dropped(s.event));
      if luck.Abandon? {
      }
  }

  lemma FinishKeepsShape(s: State)
    requires Inv(s) && !InSetup(s.pc) && !InLoop(s.pc)
    ensures SpawnInv(Finish(s)) && SettleInv(Finish(s))
  {
    hide ClearChecks, ClearedOnce, ClearedTwice, SawRequest, ReceiptsChecked, RequestsSeen, Begun, Reached;
    hide AnyConfirmed, Add, Given, NoReceiptAfterSeen, LastWritten, StreamWroteLast, DroppedAtSettlement;
    hide RequestInv, EventInv, AnnounceInv, WriteInv, DropInv;
    match s.pc
    case Cancelling =>
    case EmittingCancel =>
    case LastCheck =>
    case TailRead =>
    case TailWrite =>
    case Unregistering =>
    case Discarding =>
    case Done =>
  }

  lemma FinishKeepsChecks(s: State)
    requires Inv(s) && !InSetup(s.pc) && !InLoop(s.pc)
    ensures RequestInv(Finish(s)) && EventInv(Finish(s)) && StatusInv(Finish(s))
  {
    hide ClearChecks, ClearedOnce, ClearedTwice, SawRequest, ReceiptsChecked, RequestsSeen, Begun, Reached;
    hide AnyConfirmed, Add, Given, NoReceiptAfterSeen, LastWritten, StreamWroteLast, DroppedAtSettlement;
    hide AnnounceInv, WriteInv, DropInv;
    match s.pc
    case Cancelling => AppendAct(s.log, StreamWrote(Cancelled));
    case EmittingCancel => AppendAct(s.log, Emitted(CancelRequested));
    case LastCheck => AppendAct(s.log, Saw(s.requested));
    case _ =>
  }

  lemma FinishKeepsAnnounced(s: State)
    requires Inv(s) && !InSetup(s.pc) && !InLoop(s.pc)
    ensures AnnounceInv(Finish(s))
  {
    hide ClearChecks, ClearedOnce, ClearedTwice, SawRequest, ReceiptsChecked, RequestsSeen, Begun, Reached;
    hide AnyConfirmed, Add, Given, NoReceiptAfterSeen, LastWritten, StreamWroteLast, DroppedAtSettlement;
    hide RequestInv, EventInv, WriteInv, DropInv;
    match s.pc
    case Cancelling => AppendAnnounced(s.log, StreamWrote(Cancelled));
    case EmittingCancel => AppendAnnounced(s.log, Emitted(CancelRequested));
    case LastCheck => AppendAnnounced(s.log, Saw(s.requested));
    case _ =>
  }

  lemma FinishKeepsWritten(s: State)
    requires Inv(s) && !InSetup(s.pc) && !InLoop(s.pc)
    ensures WriteInv(Finish(s)) && DropInv(Finish(s))
  {
    hide ClearChecks, ClearedOnce, ClearedTwice, SawRequest, ReceiptsChecked, RequestsSeen, Begun, Reached;
    hide AnyConfirmed, Add, Given, NoReceiptAfterSeen, LastWritten, StreamWroteLast, DroppedAtSettlement;
    hide RequestInv, EventInv;
    match s.pc
    case Cancelling => AppendWrite(s.log, StreamWrote(Cancelled));
    case EmittingCancel => AppendWrite(s.log, Emitted(CancelRequested));
    case LastCheck => AppendWrite(s.log, Saw(s.requested));
    case _ =>
  }

  lemma CancelKeepsSpawn(s: State, who: nat, confirmed: bool)
    requires Inv(s) && who < |s.cancels|
    ensures SpawnInv(CancelStep(s, who, confirmed))
  {
    hide ClearChecks, ClearedOnce, ClearedTwice, SawRequest, ReceiptsChecked, RequestsSeen, Begun, Reached;
    hide AnyConfirmed, Add, Given, NoReceiptAfterSeen, LastWritten, StreamWroteLast, DroppedAtSettlement;
    hide RequestInv, EventInv, SettleInv, StatusInv, AnnounceInv, WriteInv, DropInv;
    match s.cancels[who]
    case Waiting => UpdateCancel(s.cancels, who, if s.child then Interrupting else Returned(false));
    case Interrupting => UpdateCancel(s.cancels, who, if confirmed then Confirmed else Returned(false));
    case Confirmed => UpdateCancel(s.cancels, who, Returned(true));
    case Returned(_) =>
  }

  lemma CancelKeepsRequest(s: State, who: nat, confirmed: bool)
    requires Inv(s) && who < |s.cancels|
    ensures RequestInv(CancelStep(s, who, confirmed))
  {
    hide ClearChecks, ClearedOnce, ClearedTwice, SawRequest, ReceiptsChecked, RequestsSeen, Begun, Reached;
    hide AnyConfirmed, Add, Given, NoReceiptAfterSeen, LastWritten, StreamWroteLast, DroppedAtSettlement;
    hide EventInv, SettleInv, StatusInv, AnnounceInv, WriteInv, DropInv;
    match s.cancels[who]
    case Waiting =>
      AppendAct(s.log, Asked);
      UpdateCancel(s.cancels, who, if s.child then Interrupting else Returned(false));
    case Interrupting => UpdateCancel(s.cancels, who, if confirmed then Confirmed else Returned(false));
    case Confirmed =>
      AppendAct(s.log, CancelWrote);
      UpdateCancel(s.cancels, who, Returned(true));
    case Returned(_) =>
  }

  lemma CancelKeepsReceipts(s: State, who: nat, confirmed: bool)
    requires Inv(s) && who < |s.cancels|
    ensures ReceiptsChecked(CancelStep(s, who, confirmed).log)
  {
    hide ClearChecks, ClearedOnce, ClearedTwice, SawRequest, ReceiptsChecked, RequestsSeen, Begun, Reached;
    hide AnyConfirmed, Add, Given, NoReceiptAfterSeen, LastWritten, StreamWroteLast, DroppedAtSettlement;
    hide SpawnInv, RequestInv, SettleInv, StatusInv, AnnounceInv, WriteInv, DropInv;
    match s.cancels[who]
    case Waiting => AppendAct(s.log, Asked);
    case Interrupting =>
    case Confirmed => AppendAct(s.log, CancelWrote);
    case Returned(_) =>
  }

  lemma CancelKeepsClear(s: State, who: nat, confirmed: bool)
    requires Inv(s) && who < |s.cancels|
    ensures ClearInv(CancelStep(s, who, confirmed))
  {
    hide ClearChecks, ClearedOnce, ClearedTwice, SawRequest, ReceiptsChecked, RequestsSeen, Begun, Reached;
    hide AnyConfirmed, Add, Given, NoReceiptAfterSeen, LastWritten, StreamWroteLast, DroppedAtSettlement;
    hide SpawnInv, RequestInv, SettleInv, StatusInv, AnnounceInv, WriteInv, DropInv;
    match s.cancels[who]
    case Waiting => AppendAct(s.log, Asked);
    case Interrupting =>
    case Confirmed => AppendAct(s.log, CancelWrote);
    case Returned(_) =>
  }

  lemma CancelKeepsSettle(s: State, who: nat, confirmed: bool)
    requires Inv(s) && who < |s.cancels|
    ensures SettleInv(CancelStep(s, who, confirmed))
  {
    hide ClearChecks, ClearedOnce, ClearedTwice, SawRequest, ReceiptsChecked, RequestsSeen, Begun, Reached;
    hide AnyConfirmed, Add, Given, NoReceiptAfterSeen, LastWritten, StreamWroteLast, DroppedAtSettlement;
    hide RequestInv, EventInv, AnnounceInv, WriteInv, DropInv;
    match s.cancels[who]
    case Waiting =>
    case Interrupting =>
    case Confirmed =>
    case Returned(_) =>
  }

  lemma CancelKeepsStatus(s: State, who: nat, confirmed: bool)
    requires Inv(s) && who < |s.cancels|
    ensures StatusInv(CancelStep(s, who, confirmed))
  {
    hide ClearChecks, ClearedOnce, ClearedTwice, SawRequest, ReceiptsChecked, RequestsSeen, Begun, Reached;
    hide AnyConfirmed, Add, Given, NoReceiptAfterSeen, LastWritten, StreamWroteLast, DroppedAtSettlement;
    hide EventInv, AnnounceInv, WriteInv, DropInv;
    match s.cancels[who]
    case Waiting =>
      AppendAct(s.log, Asked);
      UpdateCancel(s.cancels, who, if s.child then Interrupting else Returned(false));
    case Interrupting => UpdateCancel(s.cancels, who, if confirmed then Confirmed else Returned(false));
    case Confirmed =>
      AppendAct(s.log, CancelWrote);
      UpdateCancel(s.cancels, who, Returned(true));
    case Returned(_) =>
  }

  lemma CancelKeepsAnnounced(s: State, who: nat, confirmed: bool)
    requires Inv(s) && who < |s.cancels|
    ensures AnnounceInv(CancelStep(s, who, confirmed))
  {
    hide ClearChecks, ClearedOnce, ClearedTwice, SawRequest, ReceiptsChecked, RequestsSeen, Begun, Reached;
    hide AnyConfirmed, Add, Given, NoReceiptAfterSeen, LastWritten, StreamWroteLast, DroppedAtSettlement;
    hide RequestInv, EventInv, WriteInv, DropInv;
    match s.cancels[who]
    case Waiting => AppendAnnounced(s.log, Asked);
    case Interrupting =>
    case Confirmed => AppendAnnounced(s.log, CancelWrote);
    case Returned(_) =>
  }

  lemma CancelKeepsWritten(s: State, who: nat, confirmed: bool)
    requires Inv(s) && who < |s.cancels|
    ensures WriteInv(CancelStep(s, who, confirmed))
  {
    hide ClearChecks, ClearedOnce, ClearedTwice, SawRequest, ReceiptsChecked, RequestsSeen, Begun, Reached;
    hide AnyConfirmed, Add, Given, NoReceiptAfterSeen, LastWritten, StreamWroteLast, DroppedAtSettlement;
    hide RequestInv, EventInv, StatusInv, AnnounceInv, DropInv;
    match s.cancels[who]
    case Waiting => AppendWrite(s.log, Asked);
    case Interrupting =>
    case Confirmed => AppendWrite(s.log, CancelWrote);
    case Returned(_) =>
  }

  lemma CancelKeepsDrops(s: State, who: nat, confirmed: bool)
    requires Inv(s) && who < |s.cancels|
    ensures DropInv(CancelStep(s, who, confirmed))
  {
    hide ClearChecks, ClearedOnce, ClearedTwice, SawRequest, ReceiptsChecked, RequestsSeen, Begun, Reached;
    hide AnyConfirmed, Add, Given, NoReceiptAfterSeen, LastWritten, StreamWroteLast, DroppedAtSettlement;
    hide RequestInv, EventInv, WriteInv;
    match s.cancels[who]
    case Waiting =>
      AppendWrite(s.log, Asked);
      UpdateCancel(s.cancels, who, if s.child then Interrupting else Returned(false));
    case Interrupting => UpdateCancel(s.cancels, who, if confirmed then Confirmed else Returned(false));
    case Confirmed =>
      AppendWrite(s.log, CancelWrote);
      UpdateCancel(s.cancels, who, Returned(true));
    case Returned(_) =>
  }

  lemma EarlierKeepsShape(s: State, who: nat, confirmed: bool)
    requires Inv(s) && who < |s.earlier|
    ensures SpawnInv(EarlierStep(s, who, confirmed)) && SettleInv(EarlierStep(s, who, confirmed))
  {
    hide ClearChecks, ClearedOnce, ClearedTwice, SawRequest, ReceiptsChecked, RequestsSeen, Begun, Reached;
    hide AnyConfirmed, Add, Given, NoReceiptAfterSeen, LastWritten, StreamWroteLast, DroppedAtSettlement;
    hide RequestInv, EventInv, StatusInv, AnnounceInv, WriteInv, DropInv;
    match s.earlier[who]
    case Interrupting =>
    case Confirmed =>
    case _ =>
  }

  lemma EarlierKeepsChecks(s: State, who: nat, confirmed: bool)
    requires Inv(s) && who < |s.earlier|
    ensures RequestInv(EarlierStep(s, who, confirmed)) && EventInv(EarlierStep(s, who, confirmed))
    ensures StatusInv(EarlierStep(s, who, confirmed))
  {
    hide ClearChecks, ClearedOnce, ClearedTwice, SawRequest, ReceiptsChecked, RequestsSeen, Begun, Reached;
    hide AnyConfirmed, Add, Given, NoReceiptAfterSeen, LastWritten, StreamWroteLast, DroppedAtSettlement;
    hide SpawnInv, SettleInv, AnnounceInv, WriteInv, DropInv;
    match s.earlier[who]
    case Interrupting => UpdateCancel(s.earlier, who, if confirmed then Confirmed else Returned(false));
    case Confirmed =>
      AppendAct(s.log, CancelWrote);
      UpdateCancel(s.earlier, who, Returned(true));
    case _ =>
  }

  lemma EarlierKeepsWritten(s: State, who: nat, confirmed: bool)
    requires Inv(s) && who < |s.earlier|
    ensures AnnounceInv(EarlierStep(s, who, confirmed))
    ensures WriteInv(EarlierStep(s, who, confirmed)) && DropInv(EarlierStep(s, who, confirmed))
  {
    hide ClearChecks, ClearedOnce, ClearedTwice, SawRequest, ReceiptsChecked, RequestsSeen, Begun, Reached;
    hide AnyConfirmed, Add, Given, NoReceiptAfterSeen, LastWritten, StreamWroteLast, DroppedAtSettlement;
    hide SpawnInv, RequestInv, EventInv, SettleInv, StatusInv;
    match s.earlier[who]
    case Interrupting =>
    case Confirmed =>
      AppendAnnounced(s.log, CancelWrote);
      AppendWrite(s.log, CancelWrote);
    case _ =>
  }

  lemma StreamStepInv(s: State, luck: Luck)
    requires Inv(s)
    ensures Inv(StreamStep(s, luck))
  {
    hide SpawnInv, RequestInv, EventInv, SettleInv, StatusInv, AnnounceInv, WriteInv, DropInv, Setup, Pump, Finish;
    hide InSetup, InLoop;
    if InSetup(s.pc) {
      SetupKeepsShape(s, luck);
      SetupKeepsChecks(s, luck);
      SetupKeepsAnnounced(s, luck);
      SetupKeepsWritten(s, luck);
    } else if InLoop(s.pc) {
      PumpKeepsShape(s, luck);
      PumpKeepsChecks(s, luck);
      PumpKeepsStatus(s, luck);
      PumpKeepsAnnounced(s, luck);
      PumpKeepsWritten(s, luck);
    } else {
      FinishKeepsShape(s);
      FinishKeepsChecks(s);
      FinishKeepsAnnounced(s);
      FinishKeepsWritten(s);
    }
  }

  lemma StepInv(s: State, c: Choice)
    requires Inv(s)
    ensures Inv(Step(s, c))
  {
    hide SpawnInv, RequestInv, ReceiptsChecked, ClearInv, SettleInv, StatusInv, AnnounceInv, WriteInv, DropInv;
    hide StreamStep, CancelStep, EarlierStep;
    match c
    case Stream(luck) => StreamStepInv(s, luck);
    case Earlier(who, confirmed) =>
      if who < |s.earlier| {
        EarlierKeepsShape(s, who, confirmed);
        EarlierKeepsChecks(s, who, confirmed);
        EarlierKeepsWritten(s, who, confirmed);
      }
    case Cancel(who, confirmed) =>
      if who < |s.cancels| {
        CancelKeepsSpawn(s, who, confirmed);
        CancelKeepsRequest(s, who, confirmed);
        CancelKeepsReceipts(s, who, confirmed);
        CancelKeepsClear(s, who, confirmed);
        CancelKeepsSettle(s, who, confirmed);
        CancelKeepsStatus(s, who, confirmed);
        CancelKeepsAnnounced(s, who, confirmed);
        CancelKeepsWritten(s, who, confirmed);
        CancelKeepsDrops(s, who, confirmed);
      }
  }

  lemma {:induction false} RunInv(s: State, choices: seq<Choice>)
    requires Inv(s)
    ensures Inv(Run(s, choices))
    decreases |choices|
  {
    hide Inv, Step;
    if choices != [] {
      StepInv(s, choices[0]);
      RunInv(Step(s, choices[0]), choices[1..]);
    }
  }

  // ---- What every interleaving guarantees, whatever earlier streams have left

  /**
   A run, dropped or not, ends other than cancelled after a cancel of it returned True exactly when the stream was
   dropped at the RECEIPT or ERROR that settled it and no confirmed cancel wrote the status after that settlement did.
   */
  lemma ConfirmedCancelFailsIff(start: State, choices: seq<Choice>)
    requires AtStart(start)
    ensures var s := Run(start, choices);
      s.pc.Done? && AnyConfirmed(s.cancels) ==>
        (!s.status.Cancelled? <==> DroppedAtSettlement(s.log) && StreamWroteLast(s.log))
  {
    BeforeInv(start);
    RunInv(start, choices);
  }

  /**
   A cancel that began during an earlier stream and returned True during this one is undone exactly when this stream
   wrote the status after it and none of its checks saw a request, though it may be read to its end.
   */
  lemma EarlierCancelFailsIff(start: State, choices: seq<Choice>)
    requires AtStart(start)
    ensures var s := Run(start, choices);
      s.pc.Done? && AnyConfirmed(s.earlier) ==>
        (!s.status.Cancelled? <==> StreamWroteLast(s.log) && !SawRequest(s.log))
  {
    BeforeInv(start);
    RunInv(start, choices);
  }

  /** A cancel that returned True wins if its stream is read to its end, or no RECEIPT or ERROR was given out. */
  lemma ConfirmedCancelWins(start: State, choices: seq<Choice>)
    requires AtStart(start)
    ensures var s := Run(start, choices);
      s.pc.Done? && AnyConfirmed(s.cancels) && (!s.abandoned || (!Given(s.log, Receipt) && !Given(s.log, Error))) ==>
        s.status.Cancelled?
  {
    BeforeInv(start);
    RunInv(start, choices);
  }

  /** Only a stream whose child was registered can have a confirmed cancel of its own. */
  lemma ConfirmedMeansSpawned(start: State, choices: seq<Choice>)
    requires AtStart(start)
    ensures var s := Run(start, choices);
      AnyConfirmed(s.cancels) ==> s.spawned
  {
    BeforeInv(start);
    RunInv(start, choices);
  }

  /**
   A run read to its end is cancelled exactly when a check saw a request, a cancel of it was confirmed, or one of an
   earlier stream was, and wrote the status last.
   */
  lemma CancelledIff(start: State, choices: seq<Choice>)
    requires AtStart(start)
    ensures var s := Run(start, choices);
      s.pc.Done? && !s.abandoned ==>
        (s.status.Cancelled? <==>
         SawRequest(s.log) || AnyConfirmed(s.cancels) || (AnyConfirmed(s.earlier) && !StreamWroteLast(s.log)))
  {
    BeforeInv(start);
    RunInv(start, choices);
  }

  /** A request made before any check of the stream decides the run, confirmed or not, and is announced. */
  lemma RequestBeforeACheckWins(start: State, choices: seq<Choice>, i: nat, j: nat)
    requires AtStart(start)
    requires var s := Run(start, choices);
      s.pc.Done? && i < j < |s.log| && s.log[i] == Asked && s.log[j].Saw?
    ensures var s := Run(start, choices);
      s.status.Cancelled? && Given(s.log, CancelRequested)
  {
    BeforeInv(start);
    RunInv(start, choices);
    assert Run(start, choices).log[j] == Saw(true);
  }

  /** At every moment, each RECEIPT given out was cleared by the two checks just before it. */
  lemma ReceiptsAreCleared(start: State, choices: seq<Choice>)
    requires AtStart(start)
    ensures ReceiptsChecked(Run(start, choices).log)
  {
    BeforeInv(start);
    RunInv(start, choices);
  }

  /** A run read to its end has settled, and the event for its status was given out. */
  lemma SettledAndAnnounced(start: State, choices: seq<Choice>)
    requires AtStart(start)
    ensures var s := Run(start, choices);
      s.pc.Done? && !s.abandoned ==>
        match s.status
        case Completed => Given(s.log, Receipt) && !SawRequest(s.log) && !AnyConfirmed(s.cancels)
        case Failed => Given(s.log, Error) && !SawRequest(s.log) && !AnyConfirmed(s.cancels)
        case Cancelled => true
        case _ => false
  {
    BeforeInv(start);
    RunInv(start, choices);
  }

  /** RECEIPT and CANCEL_REQUESTED are both given out exactly when a check after the RECEIPT saw a request. */
  lemma ReceiptAndCancelIff(start: State, choices: seq<Choice>)
    requires AtStart(start)
    ensures var s := Run(start, choices);
      s.pc.Done? ==>
        (Given(s.log, Receipt) && Given(s.log, CancelRequested) <==>
         exists i, j | 0 <= i < j < |s.log| :: s.log[i] == Emitted(Receipt) && s.log[j] == Saw(true))
  {
    BeforeInv(start);
    RunInv(start, choices);
    var log := Run(start, choices).log;
    if Given(log, Receipt) && SawRequest(log) {
      var i :| 0 <= i < |log| && log[i] == Emitted(Receipt);
      var j :| 0 <= j < |log| && log[j] == Saw(true);
      assert i < j;
    }
  }

  /** A cancel that comes after the stream has ended returns False, leaves the status alone, and stays requested. */
  lemma CancelAfterTheEnd(start: State, choices: seq<Choice>, who: nat, confirmed: bool)
    requires AtStart(start)
    requires var s := Run(start, choices);
      s.pc.Done? && who < |s.cancels| && s.cancels[who].Waiting?
    ensures var s := Run(start, choices);
      var after := Step(s, Cancel(who, confirmed));
      after.cancels[who] == Returned(false) && after.status == s.status && after.requested
  {
    BeforeInv(start);
    RunInv(start, choices);
  }

  // ---- The next stream

  /** What a stream meets when the request was there before it. */
  ghost predicate StaleInv(s: State) {
    && (!s.pc.Done? ==> s.requested)
    && !s.pc.SecondCheck? && !s.pc.Writing? && !s.pc.Emitting? && !s.pc.TailRead? && !s.pc.TailWrite?
    && !Given(s.log, Receipt)
    && (InFinally(s.pc) && s.spawned && !s.abandoned ==> SawRequest(s.log))
  }

  lemma StepStale(s: State, c: Choice)
    requires Inv(s) && StaleInv(s)
    ensures StaleInv(Step(s, c))
  {
    hide ClearChecks, ClearedOnce, ClearedTwice, SawRequest, ReceiptsChecked, RequestsSeen, Begun, Reached;
    hide AnyConfirmed, Add, Given, NoReceiptAfterSeen, LastWritten, StreamWroteLast, DroppedAtSettlement;
    hide RequestInv, EventInv, SettleInv, AnnounceInv, WriteInv, DropInv;
    match c
    case Earlier(_, _) => AppendAnnounced(s.log, CancelWrote);
    case Cancel(_, _) =>
      AppendAnnounced(s.log, Asked);
      AppendAnnounced(s.log, CancelWrote);
    case Stream(_) =>
      match s.pc {
        case Start => AppendAnnounced(s.log, StreamWrote(Running));
        case Preparing =>
          AppendAnnounced(s.log, Emitted(Progress));
          AppendAnnounced(s.log, StreamWrote(Failed));
        case Denying => AppendAnnounced(s.log, Emitted(Error));
        case Dispatching =>
          AppendAnnounced(s.log, Emitted(Dispatch));
          AppendAnnounced(Add(s.log, Emitted(Dispatch)), Dropped(Dispatch));
        case FirstCheck => AppendAnnounced(s.log, Saw(s.requested));
        case Cancelling => AppendAnnounced(s.log, StreamWrote(Cancelled));
        case EmittingCancel => AppendAnnounced(s.log, Emitted(CancelRequested));
        case LastCheck => AppendAnnounced(s.log, Saw(s.requested));
        case _ =>
      }
  }

  lemma {:induction false} RunStale(s: State, choices: seq<Choice>)
    requires Inv(s) && StaleInv(s)
    ensures Inv(Run(s, choices)) && StaleInv(Run(s, choices))
    decreases |choices|
  {
    hide Inv, StaleInv, Step;
    if choices != [] {
      StepInv(s, choices[0]);
      StepStale(s, choices[0]);
      RunStale(Step(s, choices[0]), choices[1..]);
    }
  }

  /** A request left behind cancels the next stream of the same run id, which nobody asked to cancel. */
  lemma LeftoverRequestCancelsNextRun(first: State, callers: nat, choices: seq<Choice>)
    requires first.pc.Done? && first.requested
    ensures var s := Run(NextRun(first, callers), choices);
      && !Given(s.log, Receipt)
      && (s.pc.Done? && s.spawned && !s.abandoned ==> s.status.Cancelled? && Given(s.log, CancelRequested))
  {
    FirstAndNextStart(first, callers);
    BeforeInv(NextRun(first, callers));
    RunStale(NextRun(first, callers), choices);
  }

  /** What a stream meets when no request was there before it: one needs to be made. */
  ghost predicate FreshInv(s: State) {
    && (s.requested || Begun(s.cancels) || SawRequest(s.log) ==> Asked in s.log)
    && (AnyConfirmed(s.cancels) ==> Begun(s.cancels))
  }

  lemma AppendAsked(log: seq<Act>, act: Act)
    ensures Asked in Add(log, act) <==> Asked in log || act.Asked?
    ensures SawRequest(Add(log, act)) <==> SawRequest(log) || (act.Saw? && act.yes)
  {
  }

  lemma EarlierFresh(s: State, who: nat, confirmed: bool)
    requires FreshInv(s) && who < |s.earlier|
    ensures FreshInv(EarlierStep(s, who, confirmed))
  {
    hide SawRequest, Begun, Reached, AnyConfirmed, Add;
    AppendAsked(s.log, CancelWrote);
  }

  lemma CancelFresh(s: State, who: nat, confirmed: bool)
    requires FreshInv(s) && who < |s.cancels|
    ensures FreshInv(CancelStep(s, who, confirmed))
  {
    hide SawRequest, Begun, Reached, AnyConfirmed, Add;
    match s.cancels[who]
    case Waiting =>
      AppendAsked(s.log, Asked);
      UpdateCancel(s.cancels, who, if s.child then Interrupting else Returned(false));
    case Interrupting => UpdateCancel(s.cancels, who, if confirmed then Confirmed else Returned(false));
    case Confirmed =>
      AppendAsked(s.log, CancelWrote);
      UpdateCancel(s.cancels, who, Returned(true));
    case Returned(_) =>
  }

  lemma SetupFresh(s: State, luck: Luck)
    requires FreshInv(s) && InSetup(s.pc)
    ensures FreshInv(Setup(s, luck))
  {
    hide SawRequest, Begun, AnyConfirmed, Add;
    match s.pc
    case Start => AppendAsked(s.log, StreamWrote(Running));
    case Preparing =>
      AppendAsked(s.log, Emitted(Progress));
      AppendAsked(s.log, StreamWrote(Failed));
    case Denying => AppendAsked(s.log, Emitted(Error));
    case Registering =>
    case Dispatching =>
      AppendAsked(s.log, Emitted(Dispatch));
      AppendAsked(Add(s.log, Emitted(Dispatch)), Dropped(Dispatch));
  }

  lemma PumpFresh(s: State, luck: Luck)
    requires FreshInv(s) && InLoop(s.pc)
    ensures FreshInv(Pump(s, luck))
  {
    hide SawRequest, Begun, AnyConfirmed, Add;
    match s.pc
    case Asking =>
    case FirstCheck => AppendAsked(s.log, Saw(s.requested));
    case SecondCheck => AppendAsked(s.log, Saw(s.requested));
    case Writing => AppendAsked(s.log, StreamWrote(if s.event.Receipt? then Completed else Failed));
    case Emitting =>
      AppendAsked(s.log, Emitted(s.event));
      AppendAsked(Add(s.log, Emitted(s.event)), Dropped(s.event));
  }

  lemma FinishFresh(s: State)
    requires FreshInv(s) && !InSetup(s.pc) && !InLoop(s.pc)
    ensures FreshInv(Finish(s))
  {
    hide SawRequest, Begun, AnyConfirmed, Add;
    match s.pc
    case Cancelling => AppendAsked(s.log, StreamWrote(Cancelled));
    case EmittingCancel => AppendAsked(s.log, Emitted(CancelRequested));
    case LastCheck => AppendAsked(s.log, Saw(s.requested));
    case TailWrite => AppendAsked(s.log, StreamWrote(Completed));
    case _ =>
  }

  lemma StepFresh(s: State, c: Choice)
    requires FreshInv(s)
    ensures FreshInv(Step(s, c))
  {
    hide FreshInv, Setup, Pump, Finish, CancelStep, EarlierStep, InSetup, InLoop;
    match c
    case Cancel(who, confirmed) =>
      if who < |s.cancels| {
        CancelFresh(s, who, confirmed);
      }
    case Earlier(who, confirmed) =>
      if who < |s.earlier| {
        EarlierFresh(s, who, confirmed);
      }
    case Stream(luck) =>
      if InSetup(s.pc) {
        SetupFresh(s, luck);
      } else if InLoop(s.pc) {
        PumpFresh(s, luck);
      } else {
        FinishFresh(s);
      }
  }

  lemma {:induction false} RunFresh(s: State, choices: seq<Choice>)
    requires FreshInv(s)
    ensures FreshInv(Run(s, choices))
    decreases |choices|
  {
    hide FreshInv, Step;
    if choices != [] {
      StepFresh(s, choices[0]);
      RunFresh(Step(s, choices[0]), choices[1..]);
    }
  }

  /**
   A next stream that nobody asks to cancel, read to its end, is cancelled exactly when a request was left behind or a
   cancel of an earlier stream, still under way, was confirmed and wrote the status last.
   */
  lemma UnaskedNextRunCancelledIff(first: State, callers: nat, choices: seq<Choice>)
    requires first.pc.Done?
    ensures var s := Run(NextRun(first, callers), choices);
      s.pc.Done? && s.spawned && !s.abandoned && Asked !in s.log ==>
        (s.status.Cancelled? <==> first.requested || (AnyConfirmed(s.earlier) && !StreamWroteLast(s.log)))
  {
    var start := NextRun(first, callers);
    FirstAndNextStart(first, callers);
    BeforeInv(start);
    if first.requested {
      LeftoverRequestCancelsNextRun(first, callers, choices);
    } else {
      RunFresh(start, choices);
      RunInv(start, choices);
    }
  }

  // ---- Runs, one choice longer

  lemma {:induction false} RunSplit(s: State, first: seq<Choice>, rest: seq<Choice>)
    ensures Run(s, first + rest) == Run(Run(s, first), rest)
    decreases |first|
  {
    if first == [] {
      assert first + rest == rest;
    } else {
      assert (first + rest)[0] == first[0] && (first + rest)[1..] == first[1..] + rest;
      RunSplit(Step(s, first[0]), first[1..], rest);
    }
  }

  lemma OneStep(s: State, c: Choice)
    ensures Run(s, [c]) == Step(s, c)
  {
    hide Step;
    assert [c][1..] == [];
  }

  lemma RunSnoc(s: State, choices: seq<Choice>)
    requires choices != []
    ensures Run(s, choices) == Step(Run(s, choices[..|choices| - 1]), choices[|choices| - 1])
  {
    hide Run, Step;
    var before, last := choices[..|choices| - 1], choices[|choices| - 1];
    assert choices == before + [last];
    RunSplit(s, before, [last]);
    OneStep(Run(s, before), last);
  }

  lemma RunNothing(s: State)
    ensures Run(s, []) == s
  {
  }

  // ---- What a caller is told

  predicate Moves(c: Choice, who: nat) {
    c.Cancel? && c.who == who
  }

  predicate MovesEarlier(c: Choice, who: nat) {
    c.Earlier? && c.who == who
  }

  /** What the environment answered at each of the steps picked, in order. */
  function Answers(choices: seq<Choice>, picked: Choice -> bool): seq<bool>
    requires forall c | picked(c) :: !c.Stream?
  {
    if choices == [] then []
    else
      var last := choices[|choices| - 1];
      Answers(choices[..|choices| - 1], picked) + if picked(last) then [last.confirmed] else []
  }

  function MovesOf(who: nat): (picked: Choice -> bool)
    ensures forall c | picked(c) :: !c.Stream?
  {
    (c: Choice) => Moves(c, who)
  }

  function EarlierMovesOf(who: nat): (picked: Choice -> bool)
    ensures forall c | picked(c) :: !c.Stream?
  {
    (c: Choice) => MovesEarlier(c, who)
  }

  /** A child was registered when the caller asked. */
  predicate FoundChild(start: State, choices: seq<Choice>, who: nat) {
    if choices == [] then false
    else
      var before, last := choices[..|choices| - 1], choices[|choices| - 1];
      if Moves(last, who) && Answers(before, MovesOf(who)) == [] then Run(start, before).child
      else FoundChild(start, before, who)
  }

  /** True once the interrupt is confirmed and recorded; False if it is not, or there was nothing to interrupt. */
  predicate IsTold(c: CancelPc, found: bool, answers: seq<bool>) {
    if answers == [] then c.Waiting?
    else if !found then c == Returned(false)
    else if |answers| == 1 then c.Interrupting?
    else if !answers[1] then c == Returned(false)
    else if |answers| == 2 then c.Confirmed?
    else c == Returned(true)
  }

  /** One step of a caller, given whether a child is registered and what its interrupt came to. */
  function Moved(c: CancelPc, child: bool, confirmed: bool): CancelPc {
    match c
    case Waiting => if child then Interrupting else Returned(false)
    case Interrupting => if confirmed then Confirmed else Returned(false)
    case Confirmed => Returned(true)
    case Returned(_) => c
  }

  lemma CallerMoves(s: State, c: Choice, who: nat)
    requires who < |s.cancels|
    ensures |Step(s, c).cancels| == |s.cancels|
    ensures Step(s, c).cancels[who] ==
            if Moves(c, who) then Moved(s.cancels[who], s.child, c.confirmed) else s.cancels[who]
  {
    match c
    case Stream(luck) =>
      hide StreamStep;
      StreamLeavesCallers(s, luck);
    case Earlier(_, _) =>
    case Cancel(_, _) =>
  }

  lemma EarlierCallerMoves(s: State, c: Choice, who: nat)
    requires who < |s.earlier|
    ensures |Step(s, c).earlier| == |s.earlier|
    ensures Step(s, c).earlier[who] ==
            if MovesEarlier(c, who) && !s.earlier[who].Waiting? then Moved(s.earlier[who], false, c.confirmed)
            else s.earlier[who]
  {
    match c
    case Stream(luck) =>
      hide StreamStep;
      StreamLeavesCallers(s, luck);
    case Earlier(_, _) =>
    case Cancel(_, _) =>
  }

  /** Over every run, each caller is told what its own interrupt came to. */
  lemma {:induction false} CallersAreTold(start: State, choices: seq<Choice>, who: nat)
    requires AtStart(start) && who < |start.cancels|
    ensures var s := Run(start, choices);
      && |s.cancels| == |start.cancels|
      && IsTold(s.cancels[who], FoundChild(start, choices, who), Answers(choices, MovesOf(who)))
    decreases |choices|
  {
    if choices == [] {
      RunNothing(start);
    } else {
      var before, last := choices[..|choices| - 1], choices[|choices| - 1];
      CallersAreTold(start, before, who);
      RunSnoc(start, choices);
      hide Run, Step, AtStart;
      CallerMoves(Run(start, before), last, who);
    }
  }

  lemma StreamLeavesCallers(s: State, luck: Luck)
    ensures StreamStep(s, luck).cancels == s.cancels && StreamStep(s, luck).earlier == s.earlier
  {
    hide Setup, Pump, Finish, InSetup, InLoop;
    if InSetup(s.pc) {
      SetupLeavesCallers(s, luck);
    } else if InLoop(s.pc) {
      PumpLeavesCallers(s, luck);
    } else {
      FinishLeavesCallers(s);
    }
  }

  lemma SetupLeavesCallers(s: State, luck: Luck)
    requires InSetup(s.pc)
    ensures Setup(s, luck).cancels == s.cancels && Setup(s, luck).earlier == s.earlier
  {
    hide Add;
    match s.pc
    case Start =>
    case Preparing =>
    case Denying =>
    case Registering =>
    case Dispatching =>
  }

  lemma PumpLeavesCallers(s: State, luck: Luck)
    requires InLoop(s.pc)
    ensures Pump(s, luck).cancels == s.cancels && Pump(s, luck).earlier == s.earlier
  {
    hide Add;
    match s.pc
    case Asking =>
    case FirstCheck =>
    case SecondCheck =>
    case Writing =>
    case Emitting =>
  }

  lemma FinishLeavesCallers(s: State)
    requires !InSetup(s.pc) && !InLoop(s.pc)
    ensures Finish(s).cancels == s.cancels && Finish(s).earlier == s.earlier
  {
    hide Add;
    match s.pc
    case Cancelling =>
    case EmittingCancel =>
    case LastCheck =>
    case TailRead =>
    case TailWrite =>
    case Unregistering =>
    case Discarding =>
    case Done =>
  }

  /** The same of a caller of an earlier stream, from where that stream left it. */
  predicate IsToldLater(c: CancelPc, first: CancelPc, answers: seq<bool>) {
    if answers == [] then c == first
    else if first.Confirmed? then c == Returned(true)
    else if !answers[0] then c == Returned(false)
    else if |answers| == 1 then c.Confirmed?
    else c == Returned(true)
  }

  lemma {:induction false} EarlierCallersAreTold(start: State, choices: seq<Choice>, who: nat)
    requires AtStart(start) && who < |start.earlier|
    ensures var s := Run(start, choices);
      && |s.earlier| == |start.earlier|
      && IsToldLater(s.earlier[who], start.earlier[who], Answers(choices, EarlierMovesOf(who)))
    decreases |choices|
  {
    assert start.earlier[who] in start.earlier;
    if choices == [] {
      RunNothing(start);
    } else {
      var before, last := choices[..|choices| - 1], choices[|choices| - 1];
      EarlierCallersAreTold(start, before, who);
      RunSnoc(start, choices);
      hide Run, Step;
      EarlierCallerMoves(Run(start, before), last, who);
    }
  }

  /** A caller is told True only if the step that found it interrupting confirmed the interrupt. */
  lemma {:induction false} TrueOnlyIfConfirmed(start: State, choices: seq<Choice>, who: nat)
    requires AtStart(start) && who < |start.cancels|
    ensures var s := Run(start, choices);
      && |s.cancels| == |start.cancels|
      && (s.cancels[who].Confirmed? || s.cancels[who] == Returned(true) ==>
            exists i | 0 <= i < |choices| ::
              choices[i] == Cancel(who, true) && WasInterrupting(start, choices[..i], who))
    decreases |choices|
  {
    if choices == [] {
      RunNothing(start);
    } else {
      var n := |choices| - 1;
      var before, last := choices[..n], choices[n];
      TrueOnlyIfConfirmed(start, before, who);
      RunSnoc(start, choices);
      hide Run, Step, AtStart;
      var s := Run(start, before);
      CallerMoves(s, last, who);
      if s.cancels[who].Confirmed? || s.cancels[who] == Returned(true) {
        var i :| 0 <= i < n && before[i] == Cancel(who, true) && WasInterrupting(start, before[..i], who);
        assert choices[i] == before[i] && choices[..i] == before[..i];
      } else if last == Cancel(who, true) && s.cancels[who].Interrupting? {
        assert WasInterrupting(start, choices[..n], who);
      }
    }
  }

  predicate WasInterrupting(start: State, choices: seq<Choice>, who: nat) {
    var s := Run(start, choices);
    who < |s.cancels| && s.cancels[who].Interrupting?
  }

  // ---- Who writes the status

  function Writes(log: seq<Act>): nat {
    if log == [] then 0 else Writes(log[..|log| - 1]) + if log[|log| - 1].CancelWrote? then 1 else 0
  }

  function Trues(cancels: seq<CancelPc>): nat {
    if cancels == [] then 0
    else Trues(cancels[..|cancels| - 1]) + if cancels[|cancels| - 1] == Returned(true) then 1 else 0
  }

  lemma WritesMore(log: seq<Act>, act: Act)
    ensures Writes(Add(log, act)) == Writes(log) + if act.CancelWrote? then 1 else 0
  {
    assert (log + [act])[..|log|] == log;
  }

  lemma {:induction false} TruesUpdate(cancels: seq<CancelPc>, who: nat, c: CancelPc)
    requires who < |cancels| && cancels[who] != Returned(true)
    ensures Trues(cancels[who := c]) == Trues(cancels) + if c == Returned(true) then 1 else 0
    decreases |cancels|
  {
    var n := |cancels| - 1;
    if who < n {
      TruesUpdate(cancels[..n], who, c);
      assert cancels[who := c][..n] == cancels[..n][who := c];
    } else {
      assert cancels[who := c][..n] == cancels[..n];
    }
  }

  lemma {:induction false} NoTrues(cancels: seq<CancelPc>)
    requires forall c | c in cancels :: c != Returned(true)
    ensures Trues(cancels) == 0
  {
    if cancels != [] {
      var n := |cancels| - 1;
      assert cancels[n] in cancels;
      forall c | c in cancels[..n] ensures c != Returned(true) {
        assert c in cancels;
      }
      NoTrues(cancels[..n]);
    }
  }

  lemma CancelWrites(s: State, who: nat, confirmed: bool)
    requires who < |s.cancels|
    ensures var after := CancelStep(s, who, confirmed);
      Writes(after.log) - Writes(s.log) == Trues(after.cancels) - Trues(s.cancels) && after.earlier == s.earlier
  {
    hide Writes, Trues, Add;
    match s.cancels[who]
    case Waiting =>
      WritesMore(s.log, Asked);
      TruesUpdate(s.cancels, who, if s.child then Interrupting else Returned(false));
    case Interrupting => TruesUpdate(s.cancels, who, if confirmed then Confirmed else Returned(false));
    case Confirmed =>
      WritesMore(s.log, CancelWrote);
      TruesUpdate(s.cancels, who, Returned(true));
    case Returned(_) =>
  }

  lemma EarlierWrites(s: State, who: nat, confirmed: bool)
    requires who < |s.earlier|
    ensures var after := EarlierStep(s, who, confirmed);
      Writes(after.log) - Writes(s.log) == Trues(after.earlier) - Trues(s.earlier) && after.cancels == s.cancels
  {
    hide Writes, Trues, Add;
    match s.earlier[who]
    case Interrupting => TruesUpdate(s.earlier, who, if confirmed then Confirmed else Returned(false));
    case Confirmed =>
      WritesMore(s.log, CancelWrote);
      TruesUpdate(s.earlier, who, Returned(true));
    case _ =>
  }

  lemma StreamWritesNoCancel(s: State, luck: Luck)
    ensures Writes(StreamStep(s, luck).log) == Writes(s.log)
  {
    hide Setup, Pump, Finish, InSetup, InLoop, Writes;
    if InSetup(s.pc) {
      SetupWritesNoCancel(s, luck);
    } else if InLoop(s.pc) {
      PumpWritesNoCancel(s, luck);
    } else {
      FinishWritesNoCancel(s);
    }
  }

  lemma SetupWritesNoCancel(s: State, luck: Luck)
    requires InSetup(s.pc)
    ensures Writes(Setup(s, luck).log) == Writes(s.log)
  {
    hide Writes, Add;
    match s.pc
    case Start => WritesMore(s.log, StreamWrote(Running));
    case Preparing =>
      WritesMore(s.log, Emitted(Progress));
      WritesMore(s.log, StreamWrote(Failed));
    case Denying => WritesMore(s.log, Emitted(Error));
    case Registering =>
    case Dispatching =>
      WritesMore(s.log, Emitted(Dispatch));
      WritesMore(Add(s.log, Emitted(Dispatch)), Dropped(Dispatch));
  }

  lemma PumpWritesNoCancel(s: State, luck: Luck)
    requires InLoop(s.pc)
    ensures Writes(Pump(s, luck).log) == Writes(s.log)
  {
    hide Writes, Add;
    match s.pc
    case Asking =>
    case FirstCheck => WritesMore(s.log, Saw(s.requested));
    case SecondCheck => WritesMore(s.log, Saw(s.requested));
    case Writing => WritesMore(s.log, StreamWrote(if s.event.Receipt? then Completed else Failed));
    case Emitting =>
      WritesMore(s.log, Emitted(s.event));
      WritesMore(Add(s.log, Emitted(s.event)), Dropped(s.event));
  }

  lemma FinishWritesNoCancel(s: State)
    requires !InSetup(s.pc) && !InLoop(s.pc)
    ensures Writes(Finish(s).log) == Writes(s.log)
  {
    hide Writes, Add;
    match s.pc
    case Cancelling => WritesMore(s.log, StreamWrote(Cancelled));
    case EmittingCancel => WritesMore(s.log, Emitted(CancelRequested));
    case LastCheck => WritesMore(s.log, Saw(s.requested));
    case TailWrite => WritesMore(s.log, StreamWrote(Completed));
    case _ =>
  }

  /** Over every run, cancels have written the status once for each caller told True: the others never write it. */
  lemma {:induction false} OnlyTrueCallersWrite(start: State, choices: seq<Choice>)
    requires AtStart(start)
    ensures var s := Run(start, choices);
      Writes(s.log) == Trues(s.cancels) + Trues(s.earlier)
    decreases |choices|
  {
    if choices == [] {
      RunNothing(start);
      NoTrues(start.cancels);
      NoTrues(start.earlier);
    } else {
      var before, last := choices[..|choices| - 1], choices[|choices| - 1];
      OnlyTrueCallersWrite(start, before);
      RunSnoc(start, choices);
      hide Run, StreamStep, CancelStep, EarlierStep, Writes, Trues;
      var s := Run(start, before);
      match last
      case Stream(luck) =>
        StreamWritesNoCancel(s, luck);
        StreamLeavesCallers(s, luck);
      case Cancel(who, confirmed) =>
        if who < |s.cancels| {
          CancelWrites(s, who, confirmed);
        }
      case Earlier(who, confirmed) =>
        if who < |s.earlier| {
          EarlierWrites(s, who, confirmed);
        }
    }
  }

  // ---- What the status says of the command

  /** At the last of these choices the command ended, and ended so. */
  predicate EndsAt(start: State, choices: seq<Choice>, well: bool) {
    choices != [] &&
    var s, last := Run(start, choices[..|choices| - 1]), choices[|choices| - 1];
    last.Stream? &&
    if s.pc.Preparing? then last.luck.Fail? && !well
    else s.pc.Asking? && s.iter.Settling? && !last.luck.Abandon? && (well <==> last.luck == Settle(true))
  }

  ghost predicate Ended(start: State, choices: seq<Choice>, well: bool) {
    exists n | 0 <= n <= |choices| :: EndsAt(start, choices[..n], well)
  }

  lemma EndedStays(start: State, choices: seq<Choice>, well: bool)
    requires choices != []
    ensures Ended(start, choices[..|choices| - 1], well) ==> Ended(start, choices, well)
    ensures EndsAt(start, choices, well) ==> Ended(start, choices, well)
  {
    hide EndsAt;
    var before := choices[..|choices| - 1];
    if Ended(start, before, well) {
      var n :| 0 <= n <= |before| && EndsAt(start, before[..n], well);
      assert before[..n] == choices[..n];
    }
    assert choices[..|choices|] == choices;
  }

  /** Over every run, completed or failed is what the stream makes of how the command ended, and of nothing else. */
  lemma {:induction false} SettlesAsItEnded(start: State, choices: seq<Choice>)
    requires AtStart(start)
    ensures var s := Run(start, choices);
      && (s.event.Receipt? || (s.status.Completed? && !s.pc.Start?) ==> Ended(start, choices, true))
      && (s.event.Error? || (s.status.Failed? && !s.pc.Start?) ==> Ended(start, choices, false))
    decreases |choices|
  {
    if choices == [] {
      RunNothing(start);
    } else {
      var before, last := choices[..|choices| - 1], choices[|choices| - 1];
      SettlesAsItEnded(start, before);
      BeforeInv(start);
      RunInv(start, before);
      RunSnoc(start, choices);
      EndedStays(start, choices, true);
      EndedStays(start, choices, false);
      StepSettles(start, choices);
    }
  }

  lemma SetupSettles(s: State, luck: Luck)
    requires InSetup(s.pc)
    ensures var after := Setup(s, luck);
      && after.event == s.event && !after.pc.Start?
      && (after.status.Completed? ==> s.status.Completed? && !s.pc.Start?)
      && (after.status.Failed? ==> (s.status.Failed? && !s.pc.Start?) || (s.pc.Preparing? && luck.Fail?))
  {
    hide Add;
    match s.pc
    case Start =>
    case Preparing =>
    case Denying =>
    case Registering =>
    case Dispatching =>
  }

  lemma PumpSettles(s: State, luck: Luck)
    requires InLoop(s.pc) && SettleInv(s)
    ensures var after := Pump(s, luck);
      var ends := s.pc.Asking? && s.iter.Settling? && !luck.Abandon?;
      && (after.event.Receipt? ==> s.event.Receipt? || (ends && luck == Settle(true)))
      && (after.event.Error? ==> s.event.Error? || (ends && luck != Settle(true)))
      && (after.status.Completed? ==> s.event.Receipt? || s.status.Completed?)
      && (after.status.Failed? ==> s.event.Error? || s.status.Failed?)
  {
    hide Add;
    match s.pc
    case Asking =>
      hide Ask, SettleInv;
      AskSettles(s, luck);
    case FirstCheck =>
    case SecondCheck =>
    case Writing =>
    case Emitting =>
      hide SettleInv;
  }

  lemma AskSettles(s: State, luck: Luck)
    ensures var after := Ask(s, luck);
      var ends := s.iter.Settling? && !luck.Abandon?;
      && after.status == s.status
      && (after.event.Receipt? ==> s.event.Receipt? || (ends && luck == Settle(true)))
      && (after.event.Error? ==> s.event.Error? || (ends && luck != Settle(true)))
  {
    if s.iter.Over? {
    } else if luck.Abandon? {
    } else if s.iter.Settling? {
    }
  }

  lemma FinishSettles(s: State)
    requires !InSetup(s.pc) && !InLoop(s.pc) && !s.pc.TailWrite?
    ensures var after := Finish(s);
      && after.event == s.event
      && (after.status.Completed? ==> s.status.Completed?) && (after.status.Failed? ==> s.status.Failed?)
  {
    hide Add;
    match s.pc
    case Cancelling =>
    case EmittingCancel =>
    case LastCheck =>
    case TailRead =>
    case Unregistering =>
    case Discarding =>
    case Done =>
  }

  lemma CallersSettleNothing(s: State, who: nat, confirmed: bool)
    ensures who < |s.cancels| ==>
      var after := CancelStep(s, who, confirmed);
      after.event == s.event && after.pc == s.pc && (after.status == s.status || after.status.Cancelled?)
    ensures who < |s.earlier| ==>
      var after := EarlierStep(s, who, confirmed);
      after.event == s.event && after.pc == s.pc && (after.status == s.status || after.status.Cancelled?)
  {
  }

  /** A step takes an event or a settled status from how the command ended, or leaves it as it was. */
  lemma StepSettles(start: State, choices: seq<Choice>)
    requires choices != [] && Inv(Run(start, choices[..|choices| - 1]))
    ensures var s, last := Run(start, choices[..|choices| - 1]), choices[|choices| - 1];
      var after := Step(s, last);
      && (after.event.Receipt? ==> s.event.Receipt? || EndsAt(start, choices, true))
      && (after.event.Error? ==> s.event.Error? || EndsAt(start, choices, false))
      && (after.status.Completed? && !after.pc.Start? ==>
            s.event.Receipt? || (s.status.Completed? && !s.pc.Start?) || EndsAt(start, choices, true))
      && (after.status.Failed? && !after.pc.Start? ==>
            s.event.Error? || (s.status.Failed? && !s.pc.Start?) || EndsAt(start, choices, false))
  {
    hide Run, Add, SpawnInv, RequestInv, EventInv, StatusInv, AnnounceInv, WriteInv, DropInv;
    hide Setup, Pump, Finish, CancelStep, EarlierStep;
    var s, last := Run(start, choices[..|choices| - 1]), choices[|choices| - 1];
    match last
    case Cancel(who, confirmed) => CallersSettleNothing(s, who, confirmed);
    case Earlier(who, confirmed) => CallersSettleNothing(s, who, confirmed);
    case Stream(luck) =>
      if InSetup(s.pc) {
        SetupSettles(s, luck);
      } else if InLoop(s.pc) {
        PumpSettles(s, luck);
      } else {
        FinishSettles(s);
      }
  }

  /** A request is in the set, or the stream is over, and how the command ended has not been looked at. */
  predicate StoppedReading(s: State) {
    s.event.Progress? && !s.iter.Settling? && (s.requested || s.pc.Done?)
  }

  lemma SetupStopped(s: State, luck: Luck)
    requires StoppedReading(s) && InSetup(s.pc)
    ensures StoppedReading(Setup(s, luck))
  {
    hide Add;
    match s.pc
    case Start =>
    case Preparing =>
    case Denying =>
    case Registering =>
    case Dispatching =>
  }

  lemma PumpStopped(s: State, luck: Luck)
    requires StoppedReading(s) && InLoop(s.pc)
    ensures StoppedReading(Pump(s, luck))
  {
    hide Add;
    match s.pc
    case Asking =>
    case FirstCheck =>
    case SecondCheck =>
    case Writing =>
    case Emitting =>
  }

  lemma FinishStopped(s: State)
    requires StoppedReading(s) && !InSetup(s.pc) && !InLoop(s.pc)
    ensures StoppedReading(Finish(s))
  {
    hide Add;
    match s.pc
    case Discarding =>
    case Done =>
    case _ =>
  }

  lemma StepStopped(s: State, c: Choice)
    requires StoppedReading(s)
    ensures StoppedReading(Step(s, c))
  {
    hide Setup, Pump, Finish, InSetup, InLoop;
    match c
    case Cancel(_, _) =>
    case Earlier(_, _) =>
    case Stream(luck) =>
      if InSetup(s.pc) {
        SetupStopped(s, luck);
      } else if InLoop(s.pc) {
        PumpStopped(s, luck);
      } else {
        FinishStopped(s);
      }
  }

  /** Once a request is made while output is still being read, how the command ends is not looked at any more. */
  lemma {:induction false} RequestEndsTheReading(s: State, choices: seq<Choice>)
    requires StoppedReading(s)
    ensures StoppedReading(Run(s, choices))
    decreases |choices|
  {
    hide Step, StoppedReading;
    if choices != [] {
      StepStopped(s, choices[0]);
      RequestEndsTheReading(Step(s, choices[0]), choices[1..]);
    }
  }

  // ---- A stream that nobody cancels

  const GO := Stream(Go)

  lemma FourSteps(s: State, a: Choice, b: Choice, c: Choice, d: Choice)
    ensures Run(s, [a, b, c, d]) == Step(Step(Step(Step(s, a), b), c), d)
  {
    hide Step;
    assert [a, b, c, d][1..] == [b, c, d] && [b, c, d][1..] == [c, d] && [c, d][1..] == [d] && [d][1..] == [];
    assert Run(Step(Step(s, a), b), [c, d]) == Run(Step(Step(Step(s, a), b), c), [d]);
  }

  /** The events given out, in order. */
  function Events(log: seq<Act>): seq<Kind> {
    if log == [] then []
    else
      var last := log[|log| - 1];
      Events(log[..|log| - 1]) + if last.Emitted? then [last.kind] else []
  }

  lemma EventsMore(log: seq<Act>, act: Act)
    ensures Events(Add(log, act)) == Events(log) + if act.Emitted? then [act.kind] else []
  {
    assert (log + [act])[..|log|] == log;
  }

  function Times<T>(n: nat, xs: seq<T>): (r: seq<T>)
    ensures |r| == n * |xs|
  {
    if n == 0 then [] else Times(n - 1, xs) + xs
  }

  /** Nobody is asked to cancel or told anything, and the stream stands here with these events given out. */
  predicate Undisturbed(start: State, s: State, pc: StreamPc, events: seq<Kind>) {
    && s.pc == pc && !s.requested && !s.abandoned && s.cancels == start.cancels && s.earlier == start.earlier
    && Events(s.log) == events
  }

  const NOTE := [Stream(Speak)]
  const LINE := [Stream(Speak), GO, GO]

  lemma BeginPreparing(start: State)
    requires AtStart(start) && !start.requested
    ensures var s := Run(start, [GO]);
      Undisturbed(start, s, Preparing, []) && s.iter.Live? && s.status.Running? && !s.spawned
  {
    hide Run, Events;
    OneStep(start, GO);
    NoEvents();
    EventsMore([], StreamWrote(Running));
  }

  lemma NoEvents()
    ensures Events([]) == []
  {
  }

  lemma {:induction false} SayNotes(start: State, s: State, n: nat)
    requires Undisturbed(start, s, Preparing, []) && s.iter.Live? && s.status.Running? && !s.spawned
    ensures var end := Run(s, Times(n, NOTE));
      Undisturbed(start, end, Preparing, Times(n, [Progress])) && end.iter.Live? && end.status.Running? && !end.spawned
  {
    if n == 0 {
      RunNothing(s);
    } else {
      SayNotes(start, s, n - 1);
      hide Run, Events;
      RunSplit(s, Times(n - 1, NOTE), NOTE);
      var before := Run(s, Times(n - 1, NOTE));
      OneStep(before, Stream(Speak));
      EventsMore(before.log, Emitted(Progress));
    }
  }

  lemma SpawnAndDispatch(start: State, s: State, events: seq<Kind>)
    requires Undisturbed(start, s, Preparing, events) && s.iter.Live? && s.status.Running?
    ensures var end := Run(s, [GO, GO, GO] + []);
      && Undisturbed(start, end, Asking, events + [Dispatch])
      && end.iter.Live? && end.status.Running? && end.spawned && end.child
  {
    hide Run, Events, Add;
    assert [GO, GO, GO] + [] == [GO] + ([GO] + [GO]);
    RunSplit(s, [GO], [GO] + [GO]);
    RunSplit(Run(s, [GO]), [GO], [GO]);
    OneStep(s, GO);
    OneStep(Run(s, [GO]), GO);
    OneStep(Run(Run(s, [GO]), [GO]), GO);
    EventsMore(s.log, Emitted(Dispatch));
  }

  lemma {:induction false} SayLines(start: State, s: State, events: seq<Kind>, n: nat)
    requires Undisturbed(start, s, Asking, events) && s.iter.Live? && s.status.Running? && s.spawned && s.child
    ensures var end := Run(s, Times(n, LINE));
      && Undisturbed(start, end, Asking, events + Times(n, [Progress]))
      && end.iter.Live? && end.status.Running? && end.spawned && end.child
  {
    if n == 0 {
      RunNothing(s);
      assert events + [] == events;
    } else {
      SayLines(start, s, events, n - 1);
      hide Run, Events;
      RunSplit(s, Times(n - 1, LINE), LINE);
      SayLine(start, Run(s, Times(n - 1, LINE)), events + Times(n - 1, [Progress]));
      assert events + Times(n - 1, [Progress]) + [Progress] == events + Times(n, [Progress]);
    }
  }

  lemma SayLine(start: State, s: State, events: seq<Kind>)
    requires Undisturbed(start, s, Asking, events) && s.iter.Live? && s.status.Running? && s.spawned && s.child
    ensures var end := Run(s, LINE);
      && Undisturbed(start, end, Asking, events + [Progress])
      && end.iter.Live? && end.status.Running? && end.spawned && end.child
  {
    hide Run, Events, Add;
    assert LINE == [Stream(Speak)] + ([GO] + [GO]);
    RunSplit(s, [Stream(Speak)], [GO] + [GO]);
    RunSplit(Run(s, [Stream(Speak)]), [GO], [GO]);
    OneStep(s, Stream(Speak));
    OneStep(Run(s, [Stream(Speak)]), GO);
    OneStep(Run(Run(s, [Stream(Speak)]), [GO]), GO);
    EventsMore(s.log, Saw(false));
    EventsMore(Add(s.log, Saw(false)), Emitted(Progress));
  }

  lemma ReadSettlement(start: State, s: State, events: seq<Kind>, well: bool)
    requires Undisturbed(start, s, Asking, events) && s.iter.Live? && s.status.Running? && s.spawned && s.child
    ensures var end := Run(s, [GO, Stream(Settle(well)), GO, GO]);
      && Undisturbed(start, end, Writing, events)
      && end.iter.Over? && end.event == (if well then Receipt else Error) && end.spawned && end.child
  {
    hide Run, Events, Add;
    FourSteps(s, GO, Stream(Settle(well)), GO, GO);
    EventsMore(s.log, Saw(false));
    EventsMore(Add(s.log, Saw(false)), Saw(false));
  }

  lemma GiveSettlement(start: State, s: State, events: seq<Kind>)
    requires Undisturbed(start, s, Writing, events) && s.iter.Over? && s.spawned && s.child
    requires s.event.Receipt? || s.event.Error?
    ensures var end := Run(s, [GO, GO, GO, GO]);
      && Undisturbed(start, end, TailRead, events + [s.event]) && end.spawned
      && end.status == if s.event.Receipt? then Completed else Failed
  {
    hide Run, Events, Add;
    FourSteps(s, GO, GO, GO, GO);
    var status := if s.event.Receipt? then Completed else Failed;
    EventsMore(s.log, StreamWrote(status));
    EventsMore(Add(s.log, StreamWrote(status)), Emitted(s.event));
    EventsMore(Add(Add(s.log, StreamWrote(status)), Emitted(s.event)), Saw(false));
  }

  lemma LeaveQuietly(start: State, s: State, events: seq<Kind>)
    requires Undisturbed(start, s, TailRead, events) && s.spawned && !s.status.Running?
    ensures var end := Run(s, [GO, GO, GO, GO]);
      Undisturbed(start, end, Done, events) && end.spawned && !end.child && end.status == s.status
  {
    hide Run, Events, Add;
    FourSteps(s, GO, GO, GO, GO);
  }

  /** The choices of a stream that nobody cancels: some notes, a child, some lines, and its end. */
  function QuietChoices(notes: nat, lines: nat, well: bool): seq<Choice> {
    [GO] + (Times(notes, NOTE) + ([GO, GO, GO] + [] + (Times(lines, LINE) +
    ([GO, Stream(Settle(well)), GO, GO] + ([GO, GO, GO, GO] + [GO, GO, GO, GO])))))
  }

  /**
   A stream that nobody cancels gives out each note, the dispatch, each line, and RECEIPT or ERROR as the command ended,
   in this order; it ends completed or failed accordingly, and its callers are as they were.
   */
  lemma UndisturbedStream(start: State, notes: nat, lines: nat, well: bool)
    requires AtStart(start) && !start.requested
    ensures var s := Run(start, QuietChoices(notes, lines, well));
      && Undisturbed(start, s, Done, Times(notes, [Progress]) + [Dispatch] + Times(lines, [Progress]) +
                                     [if well then Receipt else Error])
      && s.spawned && !s.child && s.status == if well then Completed else Failed
  {
    hide Run, Undisturbed, AtStart, Times;
    var (a, b, c) := (Times(notes, NOTE), [GO, GO, GO] + [], Times(lines, LINE));
    var (d, e, f) := ([GO, Stream(Settle(well)), GO, GO], [GO, GO, GO, GO], [GO, GO, GO, GO]);
    var kinds := Times(notes, [Progress]);
    RunSplit(start, [GO], a + (b + (c + (d + (e + f)))));
    BeginPreparing(start);
    var s1 := Run(start, [GO]);
    RunSplit(s1, a, b + (c + (d + (e + f))));
    SayNotes(start, s1, notes);
    var s2 := Run(s1, a);
    RunSplit(s2, b, c + (d + (e + f)));
    SpawnAndDispatch(start, s2, kinds);
    var s3 := Run(s2, b);
    RunSplit(s3, c, d + (e + f));
    SayLines(start, s3, kinds + [Dispatch], lines);
    var s4 := Run(s3, c);
    RunSplit(s4, d, e + f);
    ReadSettlement(start, s4, kinds + [Dispatch] + Times(lines, [Progress]), well);
    var s5 := Run(s4, d);
    RunSplit(s5, e, f);
    GiveSettlement(start, s5, kinds + [Dispatch] + Times(lines, [Progress]));
    LeaveQuietly(start, Run(s5, e), kinds + [Dispatch] + Times(lines, [Progress]) + [if well then Receipt else Error]);
  }

  /** One whose command cannot be started ends failed after its notes and an ERROR, without a child. */
  lemma DeniedStream(start: State, notes: nat)
    requires AtStart(start) && !start.requested
    ensures var s := Run(start, [GO] + (Times(notes, NOTE) + ([Stream(Fail)] + [GO])));
      Undisturbed(start, s, Done, Times(notes, [Progress]) + [Error]) && !s.spawned && s.status.Failed?
  {
    hide Run, Undisturbed, AtStart, Times;
    var a := Times(notes, NOTE);
    RunSplit(start, [GO], a + ([Stream(Fail)] + [GO]));
    BeginPreparing(start);
    var s1 := Run(start, [GO]);
    RunSplit(s1, a, [Stream(Fail)] + [GO]);
    SayNotes(start, s1, notes);
    RunSplit(Run(s1, a), [Stream(Fail)], [GO]);
    DenyAndEnd(start, Run(s1, a), Times(notes, [Progress]));
  }

  lemma DenyAndEnd(start: State, s: State, events: seq<Kind>)
    requires Undisturbed(start, s, Preparing, events) && !s.spawned
    ensures var end := Run(Run(s, [Stream(Fail)]), [GO]);
      Undisturbed(start, end, Done, events + [Error]) && !end.spawned && end.status.Failed?
  {
    hide Run, Events, Add;
    OneStep(s, Stream(Fail));
    OneStep(Run(s, [Stream(Fail)]), GO);
    EventsMore(s.log, StreamWrote(Failed));
    EventsMore(Add(s.log, StreamWrote(Failed)), Emitted(Error));
  }

  // ---- What it does not guarantee

  const CONFIRM := Cancel(0, true)
  const CONFIRM_EARLIER := Earlier(0, true)

  /** From the start to a RECEIPT that both checks have cleared. */
  const TO_RECEIPT: seq<Choice> := [GO, GO, GO, GO] + [GO, Stream(Settle(true)), GO, GO]

  /** One caller, at this place. */
  function One(c: CancelPc): (cancels: seq<CancelPc>)
    ensures |cancels| == 1 && cancels[0] == c
  {
    [c]
  }

  lemma MoveOne(c: CancelPc, d: CancelPc)
    ensures One(c)[0 := d] == One(d)
    ensures AnyConfirmed(One(Returned(true)))
  {
    assert One(Returned(true))[0] == Returned(true);
  }

  const LOG_AT_DISPATCH := Add(Add([], StreamWrote(Running)), Emitted(Dispatch))
  const LOG_AT_RECEIPT := Add(Add(LOG_AT_DISPATCH, Saw(false)), Saw(false))
  const LOG_CONFIRMED := Add(Add(LOG_AT_RECEIPT, Asked), CancelWrote)
  const LOG_SETTLED := Add(LOG_CONFIRMED, StreamWrote(Completed))

  function AtDispatch(cancels: seq<CancelPc>, earlier: seq<CancelPc>): State {
    State(Running, false, true, true, false, Asking, Progress, Live, cancels, earlier, LOG_AT_DISPATCH)
  }

  function AtReceipt(cancels: seq<CancelPc>, earlier: seq<CancelPc>): State {
    State(Running, false, true, true, false, Writing, Receipt, Over, cancels, earlier, LOG_AT_RECEIPT)
  }

  lemma ReachDispatch(s: State)
    requires s == Before(s.status, false, |s.cancels|, s.earlier)
    ensures Run(s, [GO, GO, GO, GO]) == AtDispatch(s.cancels, s.earlier)
  {
    hide Run, Add;
    FourSteps(s, GO, GO, GO, GO);
  }

  lemma DispatchToReceipt(cancels: seq<CancelPc>, earlier: seq<CancelPc>)
    ensures Run(AtDispatch(cancels, earlier), [GO, Stream(Settle(true)), GO, GO]) == AtReceipt(cancels, earlier)
  {
    hide Run, Add;
    FourSteps(AtDispatch(cancels, earlier), GO, Stream(Settle(true)), GO, GO);
  }

  lemma ReachReceipt(s: State)
    requires s == Before(s.status, false, |s.cancels|, s.earlier)
    ensures Run(s, TO_RECEIPT) == AtReceipt(s.cancels, s.earlier)
  {
    hide Run, AtDispatch, AtReceipt, Before;
    RunSplit(s, [GO, GO, GO, GO], [GO, Stream(Settle(true)), GO, GO]);
    ReachDispatch(s);
    DispatchToReceipt(s.cancels, s.earlier);
  }

  /** Twelve choices and more, by way of the RECEIPT. */
  lemma ThroughReceipt(s: State, cancels: seq<CancelPc>, first: seq<Choice>, last: seq<Choice>)
    requires s == Before(s.status, false, |cancels|, s.earlier) && s.cancels == cancels
    ensures Run(s, TO_RECEIPT + (first + last)) == Run(Run(AtReceipt(cancels, s.earlier), first), last)
  {
    hide Run, AtReceipt, Before;
    RunSplit(s, TO_RECEIPT, first + last);
    ReachReceipt(s);
    RunSplit(AtReceipt(cancels, s.earlier), first, last);
  }

  lemma OneWaiting()
    ensures Init(1) == Before(Pending, false, 1, []) && Init(1).cancels == One(Waiting) && Init(1).earlier == []
    ensures Init(1).status == Pending
  {
  }

  /** The cancel is confirmed, and then the stream writes its settlement. */
  lemma SettleOverConfirmed()
    ensures Run(AtReceipt(One(Waiting), []), [CONFIRM, CONFIRM, CONFIRM, GO]) ==
            State(Completed, true, true, true, false, Emitting, Receipt, Over, One(Returned(true)), [], LOG_SETTLED)
  {
    hide Run, Add, One;
    MoveOne(Waiting, Interrupting);
    MoveOne(Interrupting, Confirmed);
    MoveOne(Confirmed, Returned(true));
    FourSteps(AtReceipt(One(Waiting), []), CONFIRM, CONFIRM, CONFIRM, GO);
  }

  lemma DropAndEnd(s: State)
    requires s.pc.Emitting?
    ensures var end := Run(s, [Stream(Abandon), GO, GO, GO]);
      end.pc.Done? && end.abandoned && end.cancels == s.cancels && end.status == s.status
  {
    hide Run, Add;
    FourSteps(s, Stream(Abandon), GO, GO, GO);
    var s1 := Step(s, Stream(Abandon));
    assert s1.pc.Unregistering? && s1.abandoned && s1.cancels == s.cancels && s1.status == s.status;
  }

  /** A consumer that drops the stream at the RECEIPT can be told a cancel succeeded and find the run completed. */
  lemma DroppedStreamCompletesAfterConfirmedCancel()
    ensures var s := Run(Init(1), TO_RECEIPT + ([CONFIRM, CONFIRM, CONFIRM, GO] + [Stream(Abandon), GO, GO, GO]));
      s.pc.Done? && s.abandoned && AnyConfirmed(s.cancels) && s.status.Completed?
  {
    hide Run, Step, Add, One, Init, AnyConfirmed, AtReceipt, Before;
    var first, last := [CONFIRM, CONFIRM, CONFIRM, GO], [Stream(Abandon), GO, GO, GO];
    OneWaiting();
    ThroughReceipt(Init(1), One(Waiting), first, last);
    SettleOverConfirmed();
    MoveOne(Waiting, Waiting);
    DropAndEnd(Run(AtReceipt(One(Waiting), []), first));
  }

  const LOG_GIVEN := Add(Add(LOG_AT_RECEIPT, StreamWrote(Completed)), Emitted(Receipt))
  const LOG_SEEN := Add(Add(Add(LOG_GIVEN, Asked), Saw(true)), StreamWrote(Cancelled))

  /** The RECEIPT is given out, and then a request comes. */
  lemma AskAfterReceipt()
    ensures Run(AtReceipt(One(Waiting), []), [GO, GO, CONFIRM, GO]) ==
            State(Completed, true, true, true, false, LastCheck, Receipt, Over, One(Interrupting), [],
                  Add(LOG_GIVEN, Asked))
  {
    hide Run, Add, One;
    MoveOne(Waiting, Interrupting);
    FourSteps(AtReceipt(One(Waiting), []), GO, GO, CONFIRM, GO);
  }

  /** RECEIPT and CANCEL_REQUESTED can both be given out: a late cancel still wins the status. */
  lemma ReceiptThenCancel()
    ensures var s := Run(Init(1), TO_RECEIPT + ([GO, GO, CONFIRM, GO] + [GO, GO, GO, GO]));
      && InFinally(s.pc) && !s.abandoned && s.status.Cancelled?
      && Given(s.log, Receipt) && Given(s.log, CancelRequested)
  {
    hide Run, Add, One, Init, Given, AtReceipt, Before;
    var first, last := [GO, GO, CONFIRM, GO], [GO, GO, GO, GO];
    OneWaiting();
    ThroughReceipt(Init(1), One(Waiting), first, last);
    AskAfterReceipt();
    FourSteps(Run(AtReceipt(One(Waiting), []), first), GO, GO, GO, GO);
    AppendAnnounced(Add(LOG_AT_RECEIPT, StreamWrote(Completed)), Emitted(Receipt));
    AppendAnnounced(LOG_GIVEN, Asked);
    AppendAnnounced(Add(LOG_GIVEN, Asked), Saw(true));
    AppendAnnounced(Add(Add(LOG_GIVEN, Asked), Saw(true)), StreamWrote(Cancelled));
    AppendAnnounced(LOG_SEEN, Emitted(CancelRequested));
  }

  // ---- A cancel that outlives its stream

  /** A stream read to its end in which a cancel gets hold of the child after the last check. */
  const OUTLIVED: seq<Choice> := TO_RECEIPT + ([GO, GO, GO, GO] + [GO, CONFIRM, GO, GO])

  const LOG_ENDED := Add(LOG_GIVEN, Saw(false))

  lemma PastTheLastCheck(cancels: seq<CancelPc>, earlier: seq<CancelPc>)
    ensures Run(AtReceipt(cancels, earlier), [GO, GO, GO, GO]) ==
            State(Completed, false, true, true, false, TailRead, Receipt, Over, cancels, earlier, LOG_ENDED)
  {
    hide Run, Add;
    FourSteps(AtReceipt(cancels, earlier), GO, GO, GO, GO);
  }

  lemma AskBeforeFinally()
    ensures Run(State(Completed, false, true, true, false, TailRead, Receipt, Over, One(Waiting), [], LOG_ENDED),
                [GO, CONFIRM, GO, GO]) ==
            State(Completed, false, false, true, false, Done, Receipt, Over, One(Interrupting), [],
                  Add(LOG_ENDED, Asked))
  {
    hide Run, Add, One;
    MoveOne(Waiting, Interrupting);
    FourSteps(State(Completed, false, true, true, false, TailRead, Receipt, Over, One(Waiting), [], LOG_ENDED),
              GO, CONFIRM, GO, GO);
  }

  /** The stream ends completed and forgets the request, while the cancel that made it still runs. */
  lemma CancelOutlivesItsStream()
    ensures var s := Run(Init(1), OUTLIVED);
      s.pc.Done? && !s.abandoned && s.status.Completed? && !s.requested && s.cancels == One(Interrupting) &&
      s.earlier == []
  {
    hide Run, Add, One, Init, AtReceipt, Before;
    OneWaiting();
    ThroughReceipt(Init(1), One(Waiting), [GO, GO, GO, GO], [GO, CONFIRM, GO, GO]);
    PastTheLastCheck(One(Waiting), []);
    AskBeforeFinally();
  }

  lemma NextStart()
    ensures NextRun(Run(Init(1), OUTLIVED), 0) == Before(Completed, false, 0, One(Interrupting))
  {
    hide Run, Init;
    CancelOutlivesItsStream();
    assert InFlight(One(Interrupting)) == One(Interrupting) + InFlight([]);
    assert One(Interrupting) + [] + [] == One(Interrupting);
  }

  /** The cancel is confirmed after the next stream's RECEIPT. */
  lemma ConfirmAfterReceipt()
    ensures Run(AtReceipt([], One(Interrupting)), [GO, GO, CONFIRM_EARLIER, CONFIRM_EARLIER]) ==
            State(Cancelled, false, true, true, false, Asking, Receipt, Over, [], One(Returned(true)),
                  Add(LOG_GIVEN, CancelWrote))
  {
    hide Run, Add, One;
    MoveOne(Interrupting, Confirmed);
    MoveOne(Confirmed, Returned(true));
    FourSteps(AtReceipt([], One(Interrupting)), GO, GO, CONFIRM_EARLIER, CONFIRM_EARLIER);
  }

  /** The cancel is confirmed before the next stream writes its settlement. */
  lemma ConfirmBeforeSettlement()
    ensures Run(AtReceipt([], One(Interrupting)), [CONFIRM_EARLIER, CONFIRM_EARLIER, GO, GO]) ==
            State(Completed, false, true, true, false, Asking, Receipt, Over, [], One(Returned(true)),
                  Add(Add(Add(LOG_AT_RECEIPT, CancelWrote), StreamWrote(Completed)), Emitted(Receipt)))
  {
    hide Run, Add, One;
    MoveOne(Interrupting, Confirmed);
    MoveOne(Confirmed, Returned(true));
    FourSteps(AtReceipt([], One(Interrupting)), CONFIRM_EARLIER, CONFIRM_EARLIER, GO, GO);
  }

  /** From asking for an event that will not come to the last step but one. */
  lemma EndQuietly(s: State)
    requires s.pc.Asking? && s.iter.Over? && !s.requested && !s.abandoned && !s.status.Running?
    ensures var end := Run(s, [GO, GO, GO, GO] + [GO]);
      && end.pc.Done? && !end.abandoned && end.status == s.status
      && end.cancels == s.cancels && end.earlier == s.earlier && end.log == Add(s.log, Saw(false))
  {
    hide Run, Add;
    RunSplit(s, [GO, GO, GO, GO], [GO]);
    FourSteps(s, GO, GO, GO, GO);
    OneStep(Run(s, [GO, GO, GO, GO]), GO);
  }

  /** A next stream that nobody asked to cancel, read to its end and completed with its RECEIPT, ends cancelled. */
  lemma OutlivingCancelCancelsNextRun()
    ensures var first := Run(Init(1), OUTLIVED);
      var s := Run(NextRun(first, 0),
                   TO_RECEIPT + ([GO, GO, CONFIRM_EARLIER, CONFIRM_EARLIER] + ([GO, GO, GO, GO] + [GO])));
      && first.pc.Done? && !first.requested
      && s.pc.Done? && !s.abandoned && s.status.Cancelled? && Given(s.log, Receipt) && Asked !in s.log
  {
    hide Run, Add, One, Init, AtReceipt, Before, Given, NextRun;
    var start := Before(Completed, false, 0, One(Interrupting));
    CancelOutlivesItsStream();
    NextStart();
    NoCallers(Completed, One(Interrupting));
    ThroughReceipt(start, [], [GO, GO, CONFIRM_EARLIER, CONFIRM_EARLIER], [GO, GO, GO, GO] + [GO]);
    ConfirmAfterReceipt();
    EndQuietly(Run(AtReceipt([], One(Interrupting)), [GO, GO, CONFIRM_EARLIER, CONFIRM_EARLIER]));
    GivenUnasked();
  }

  lemma NoCallers(status: Status, earlier: seq<CancelPc>)
    ensures var s := Before(status, false, 0, earlier);
      s.cancels == [] && s.earlier == earlier && s.status == status
  {
  }

  lemma GivenUnasked()
    ensures var log := Add(Add(LOG_GIVEN, CancelWrote), Saw(false));
      Given(log, Receipt) && Asked !in log
  {
    assert LOG_GIVEN[|LOG_GIVEN| - 1] == Emitted(Receipt);
    assert Add(Add(LOG_GIVEN, CancelWrote), Saw(false))[|LOG_GIVEN| - 1] == Emitted(Receipt);
  }

  /** A next stream read to its end completes although the cancel returned True during it. */
  lemma NextRunUndoesAConfirmedCancel()
    ensures var s := Run(NextRun(Run(Init(1), OUTLIVED), 0),
                         TO_RECEIPT + ([CONFIRM_EARLIER, CONFIRM_EARLIER, GO, GO] + ([GO, GO, GO, GO] + [GO])));
      s.pc.Done? && !s.abandoned && s.status.Completed? && AnyConfirmed(s.earlier)
  {
    hide Run, Add, One, Init, AtReceipt, Before, AnyConfirmed, NextRun;
    var start := Before(Completed, false, 0, One(Interrupting));
    NextStart();
    NoCallers(Completed, One(Interrupting));
    ThroughReceipt(start, [], [CONFIRM_EARLIER, CONFIRM_EARLIER, GO, GO], [GO, GO, GO, GO] + [GO]);
    ConfirmBeforeSettlement();
    EndQuietly(Run(AtReceipt([], One(Interrupting)), [CONFIRM_EARLIER, CONFIRM_EARLIER, GO, GO]));
    MoveOne(Waiting, Waiting);
  }
}
