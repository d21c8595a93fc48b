/**
 The gateway session protocol: IDENTIFY and RESUME over any run of connections, received
 messages and closes, with the reconnect loop's backoff. A host is a pure state machine over
 inputs; the classes and loops at the end of the file are proved to be runs of it.
 */
module Gateway {
  import opened Basics

  const FATAL_CLOSE_CODES := {4004, 4010, 4011, 4012, 4013, 4014}
  const REIDENTIFY_CLOSE_CODES := {4007, 4009}
  const BACKOFF_CAP := 60.0
  const BACKOFF_FLOOR := 0.25

  /** The RESUME state carried across reconnects. */
  datatype Known = Known(id: string, sequence: Option<int>, url: string, readySeen: bool) {
    predicate CanResume() {
      id != "" && sequence.Some?
    }

    function Ready(newId: string, newUrl: string): Known {
      Known(if newId != "" then newId else id, sequence, if newUrl != "" then newUrl else url, true)
    }

    function Invalidated(): Known {
      Known("", None, "", readySeen)
    }
  }

  const UNKNOWN := Known("", None, "", false)

  /** What a message says, beside its sequence number. */
  datatype Body =
    | Hello(at: real)
    | Reconnect
    | InvalidSession(resumable: bool)
    | HeartbeatAck
    | Ready(id: string, url: string)
    | Resumed
    | OtherBody

  /** What one turn of the receiving loop meets; `stale` is the health verdict it reads. */
  datatype Event =
    | Quiet(at: real, stale: bool)
    | Noise
    | Message(s: Option<int>, body: Body)
    | Broken(code: Option<int>)
    | Dropped
    | Crashed

  datatype Handshake = Identify | Resume(id: string, sequence: Option<int>)

  /** What happened, in order. */
  datatype Act =
    | Opened(resuming: bool, url: string)
    | Refused
    | Got(event: Event)
    | Sent(handshake: Handshake)
    | Waited(draw: real, delay: real)
    | Halted

  datatype Phase = Idle | Online(resuming: bool, ready: bool, deadline: Option<real>) | Waiting | Over

  datatype Host = Host(known: Known, phase: Phase, attempt: nat, log: seq<Act>)

  datatype Input = Connect(refused: bool) | Receive(event: Event) | Retry(draw: real) | Halt

  const START := Host(UNKNOWN, Idle, 0, [])

  // ---- Pacing

  function Pow2(n: nat): (p: real)
    ensures p >= 1.0
  {
    if n == 0 then 1.0 else 2.0 * Pow2(n - 1)
  }

  function Ceiling(attempt: nat): (c: real)
    ensures 1.0 <= c <= BACKOFF_CAP
  {
    var steps := if attempt == 0 then 0 else attempt - 1;
    if Pow2(steps) <= BACKOFF_CAP then Pow2(steps) else BACKOFF_CAP
  }

  function Delay(attempt: nat, draw: real): real {
    var d := draw * Ceiling(attempt);
    if d <= BACKOFF_FLOOR then BACKOFF_FLOOR else d
  }

  /** With full jitter the delay stays between the floor and a ceiling that doubles up to the cap. */
  lemma DelayRange(attempt: nat, draw: real)
    requires 0.0 <= draw <= 1.0
    ensures BACKOFF_FLOOR <= Delay(attempt, draw) <= Ceiling(attempt) <= BACKOFF_CAP
    ensures Ceiling(1) == 1.0
    ensures attempt > 0 ==>
      Ceiling(attempt + 1) == if 2.0 * Ceiling(attempt) <= BACKOFF_CAP then 2.0 * Ceiling(attempt) else BACKOFF_CAP
  {
    assert draw * Ceiling(attempt) <= 1.0 * Ceiling(attempt);
  }

  /** The drawn part of the ceiling, or the floor where that is less. */
  predicate IsShareOf(delay: real, draw: real, ceiling: real) {
    delay >= draw * ceiling && delay >= BACKOFF_FLOOR && (delay == draw * ceiling || delay == BACKOFF_FLOOR)
  }

  lemma DelayIsShare(attempt: nat, draw: real)
    ensures IsShareOf(Delay(attempt, draw), draw, Ceiling(attempt))
  {
  }

  /** Full jitter: a larger draw never waits less, and the draws reach every delay from the floor to the ceiling. */
  lemma JitterIsFull(attempt: nat, draw: real, more: real, t: real)
    requires 0.0 <= draw <= more <= 1.0 && BACKOFF_FLOOR <= t <= Ceiling(attempt)
    ensures Delay(attempt, draw) <= Delay(attempt, more)
    ensures exists d: real :: 0.0 <= d <= 1.0 && Delay(attempt, d) == t
    ensures Delay(attempt, 0.0) == BACKOFF_FLOOR && Delay(attempt, 1.0) == Ceiling(attempt)
  {
    var c := Ceiling(attempt);
    Scaling(draw, more, c);
    var d := t / c;
    assert d * c == t;
    Fraction(t, c);
    assert Delay(attempt, d) == t;
  }

  lemma Scaling(a: real, b: real, c: real)
    requires a <= b && c >= 0.0
    ensures a * c <= b * c
  {
  }

  lemma Fraction(t: real, c: real)
    requires 0.0 <= t <= c && c > 0.0
    ensures 0.0 <= t / c <= 1.0
  {
  }

  /** The ceiling of every attempt: one second doubled for each attempt before it, up to the cap. */
  lemma {:induction false} CeilingIs(attempt: nat)
    requires attempt > 0
    ensures Ceiling(attempt) == if attempt == 1 then 1.0 else if attempt == 2 then 2.0 else if attempt == 3 then 4.0
                                else if attempt == 4 then 8.0 else if attempt == 5 then 16.0
                                else if attempt == 6 then 32.0 else 60.0
  {
    if attempt > 1 {
      CeilingIs(attempt - 1);
      DelayRange(attempt - 1, 0.0);
    }
  }

  // ---- The machine

  predicate Fatal(code: Option<int>) {
    code.Some? && code.value in FATAL_CLOSE_CODES
  }

  predicate Reidentify(code: Option<int>) {
    code.Some? && code.value in REIDENTIFY_CLOSE_CODES
  }

  predicate Stalled(ready: bool, deadline: Option<real>, at: real) {
    !ready && deadline.Some? && at >= deadline.value
  }

  function Hear(known: Known, s: Option<int>): Known {
    if s.Some? then known.(sequence := s) else known
  }

  /** The session after a turn of the loop. */
  function Learn(known: Known, e: Event): Known {
    match e
    case Message(s, body) =>
      (var heard := Hear(known, s);
       match body
       case InvalidSession(resumable) => if resumable then heard else heard.Invalidated()
       case Ready(id, url) => heard.Ready(id, url)
       case Resumed => heard.(readySeen := true)
       case _ => heard)
    case Broken(code) => if Fatal(code) || Reidentify(code) then known.Invalidated() else known
    case _ => known
  }

  /** Where the connection stands after that turn. */
  function Move(phase: Phase, e: Event, limit: real): Phase
    requires phase.Online?
  {
    match e
    case Quiet(at, stale) => if Stalled(phase.ready, phase.deadline, at) || stale then Waiting else phase
    case Noise => phase
    case Message(_, body) =>
      (match body
       case Hello(at) =>
         if phase.deadline.None? && !phase.ready then
           phase.(deadline := Some(at + if limit >= 0.0 then limit else 0.0))
         else phase
       case Reconnect => Waiting
       case InvalidSession(_) => Waiting
       case Ready(_, _) => phase.(ready := true, deadline := None)
       case Resumed => phase.(ready := true, deadline := None)
       case _ => phase)
    case Broken(code) => if Fatal(code) then Over else Waiting
    case Dropped => Waiting
    case Crashed => Waiting
  }

  /** The delay's place on the ladder: a session that started earns a fresh one. */
  function NextAttempt(h: Host): nat {
    (if h.known.readySeen then 0 else h.attempt) + 1
  }

  predicate Fits(phase: Phase, input: Input) {
    match input
    case Connect(_) => phase.Idle?
    case Receive(_) => phase.Online?
    case Retry(_) => phase.Waiting?
    case Halt => phase.Idle? || phase.Online?
  }

  /** What an input that fits adds to the log: Hello is answered by the handshake chosen when the socket opened. */
  function Added(h: Host, input: Input): (added: seq<Act>)
    requires Fits(h.phase, input)
    ensures 1 <= |added| <= 2
    ensures |added| == 2 ==> input.Receive? && added[1].Sent?
  {
    match input
    case Connect(refused) =>
      var resuming := h.known.CanResume();
      if refused then [Refused] else [Opened(resuming, if resuming then h.known.url else "")]
    case Receive(e) =>
      if e.Message? && e.body.Hello? then
        [Got(e), Sent(if h.phase.resuming then Resume(Learn(h.known, e).id, Learn(h.known, e).sequence) else Identify)]
      else [Got(e)]
    case Retry(draw) => [Waited(draw, Delay(NextAttempt(h), draw))]
    case Halt => [Halted]
  }

  /** An input that does not fit the phase changes nothing. */
  function Step(h: Host, input: Input, limit: real): Host {
    if !Fits(h.phase, input) then h
    else
      var log := h.log + Added(h, input);
      match input
      case Connect(refused) =>
        Host(h.known, if refused then Waiting else Online(h.known.CanResume(), false, None), h.attempt, log)
      case Receive(e) => Host(Learn(h.known, e), Move(h.phase, e, limit), h.attempt, log)
      case Retry(_) => Host(h.known.(readySeen := false), Idle, NextAttempt(h), log)
      case Halt => Host(h.known, Over, h.attempt, log)
  }

  function Run(h: Host, inputs: seq<Input>, limit: real): Host
    decreases |inputs|
  {
    if inputs == [] then h else Run(Step(h, inputs[0], limit), inputs[1..], limit)
  }

  // ---- Reading the log backwards

  /** The peer or a close code said the session is gone. */
  predicate Invalidates(a: Act) {
    && a.Got?
    && match a.event
       case Message(_, InvalidSession(resumable)) => !resumable
       case Broken(code) => Fatal(code) || Reidentify(code)
       case _ => false
  }

  predicate IsReady(a: Act) {
    a.Got? && a.event.Message? && a.event.body.Ready?
  }

  predicate StartsSession(a: Act) {
    a.Got? && a.event.Message? && (a.event.body.Ready? || a.event.body.Resumed?)
  }

  /** The session id of the latest READY, unless the session was invalidated since. */
  function CurrentId(log: seq<Act>): Option<string> {
    if log == [] then None
    else
      var (before, last) := (log[..|log| - 1], log[|log| - 1]);
      if Invalidates(last) then None
      else if IsReady(last) then Some(last.event.body.id)
      else CurrentId(before)
  }

  /** The last sequence number received since the latest READY, that message included. */
  function LastSequence(log: seq<Act>): Option<int> {
    if log == [] then None
    else
      var (before, last) := (log[..|log| - 1], log[|log| - 1]);
      if Invalidates(last) then None
      else if last.Got? && last.event.Message? && last.event.s.Some? then last.event.s
      else if IsReady(last) then None
      else LastSequence(before)
  }

  /** The resume address last named by a READY of a session not invalidated since. */
  function LastUrl(log: seq<Act>): string {
    if log == [] then ""
    else
      var (before, last) := (log[..|log| - 1], log[|log| - 1]);
      if Invalidates(last) then ""
      else if IsReady(last) && last.event.body.url != "" then last.event.body.url
      else LastUrl(before)
  }

  /** Whether the latest socket was opened to resume. */
  function LatestOpened(log: seq<Act>): Option<bool> {
    if log == [] then None
    else if log[|log| - 1].Opened? then Some(log[|log| - 1].resuming)
    else LatestOpened(log[..|log| - 1])
  }

  /** How many delays since a session last started. */
  function WaitsSinceReady(log: seq<Act>): nat {
    if log == [] then 0
    else
      var (before, last) := (log[..|log| - 1], log[|log| - 1]);
      if StartsSession(last) then 0 else (if last.Waited? then 1 else 0) + WaitsSinceReady(before)
  }

  /** When Hello first came on the latest socket, unless a session has started on it. */
  function HelloPending(log: seq<Act>): Option<real> {
    if log == [] then None
    else
      var (before, last) := (log[..|log| - 1], log[|log| - 1]);
      if last.Opened? || StartsSession(last) || SessionStarted(before) then None
      else if last.Got? && last.event.Message? && last.event.body.Hello? && HelloPending(before).None? then
        Some(last.event.body.at)
      else HelloPending(before)
  }

  /** A session has started on the latest socket. */
  predicate SessionStarted(log: seq<Act>) {
    if log == [] || log[|log| - 1].Opened? then false
    else StartsSession(log[|log| - 1]) || SessionStarted(log[..|log| - 1])
  }

  // ---- What each act must respect

  /** RESUME names the session of the latest READY and the last sequence number received in it. */
  predicate ResumesFaithfully(before: seq<Act>, a: Act) {
    a.Sent? && a.handshake.Resume? ==>
      && CurrentId(before) == Some(a.handshake.id)
      && LastSequence(before) == a.handshake.sequence && a.handshake.sequence.Some?
  }

  /** The latest READY carried an id, and a numbered message has come since, that READY included. */
  predicate Resumable(before: seq<Act>) {
    CurrentId(before) != Some("") && LastSequence(before).Some?
  }

  /** RESUME is faithful exactly when the session it resumes was resumable. */
  predicate FaithfulIffResumable(before: seq<Act>, a: Act) {
    a.Sent? && a.handshake.Resume? ==> (ResumesFaithfully(before, a) <==> Resumable(before))
  }

  /** Before the first READY, and after an invalidation until the next READY, every handshake is IDENTIFY. */
  predicate IdentifiesWhenUnknown(before: seq<Act>, a: Act) {
    a.Sent? && CurrentId(before).None? ==> a.handshake.Identify?
  }

  /** The kind of handshake is fixed when the socket opens. */
  predicate KeepsKind(before: seq<Act>, a: Act) {
    a.Sent? ==> LatestOpened(before) == Some(a.handshake.Resume?)
  }

  predicate OpensAtItsAddress(before: seq<Act>, a: Act) {
    a.Opened? ==> a.url == if a.resuming then LastUrl(before) else ""
  }

  /** The delay is the one due after the failures since a session last started. */
  predicate WaitsAsDue(before: seq<Act>, a: Act) {
    a.Waited? ==> a.delay == Delay(1 + WaitsSinceReady(before), a.draw)
  }

  /** A socket is opened to resume when the latest READY named a session and a number of it is known. */
  predicate ResumesWhenItCan(before: seq<Act>, a: Act) {
    a.Opened? && CurrentId(before).Some? && CurrentId(before).value != "" && LastSequence(before).Some? ==> a.resuming
  }

  predicate IsHello(a: Act) {
    a.Got? && a.event.Message? && a.event.body.Hello?
  }

  /** A handshake is sent right after each Hello, and at no other time. */
  predicate AnswersHello(before: seq<Act>, a: Act) {
    a.Sent? <==> before != [] && IsHello(before[|before| - 1])
  }

  /** Nothing more happens. */
  predicate Final(a: Act) {
    a.Halted? || (a.Got? && a.event.Broken? && Fatal(a.event.code))
  }

  /** The connection is lost, but not for good. */
  predicate Loses(a: Act) {
    || a.Refused?
    || (a.Got? && match a.event
          case Quiet(_, stale) => stale
          case Message(_, body) => body.Reconnect? || body.InvalidSession?
          case Broken(code) => !Fatal(code)
          case Dropped => true
          case Crashed => true
          case Noise => false)
  }

  predicate Overdue(before: seq<Act>, a: Act, limit: real) {
    && a.Got? && a.event.Quiet?
    && HelloPending(before).Some?
    && a.event.at >= HelloPending(before).value + if limit >= 0.0 then limit else 0.0
  }

  /** What may come next: a fatal close ends the log, any other loss is followed by a delay, a delay by an attempt. */
  predicate Proceeds(before: seq<Act>, a: Act, limit: real) {
    before == [] ||
    var last := before[|before| - 1];
    && !Final(last)
    && (last.Waited? ==> a.Opened? || a.Refused? || a.Halted?)
    && (a.Waited? <==> Loses(last) || Overdue(before, last, limit))
  }

  // ---- The invariants, one per law

  lemma Append(log: seq<Act>, a: Act)
    ensures CurrentId(log + [a]) ==
      if Invalidates(a) then None else if IsReady(a) then Some(a.event.body.id) else CurrentId(log)
    ensures LastSequence(log + [a]) ==
      if Invalidates(a) then None
      else if a.Got? && a.event.Message? && a.event.s.Some? then a.event.s
      else if IsReady(a) then None else LastSequence(log)
    ensures LastUrl(log + [a]) ==
      if Invalidates(a) then "" else if IsReady(a) && a.event.body.url != "" then a.event.body.url else LastUrl(log)
    ensures LatestOpened(log + [a]) == if a.Opened? then Some(a.resuming) else LatestOpened(log)
    ensures WaitsSinceReady(log + [a]) ==
      if StartsSession(a) then 0 else (if a.Waited? then 1 else 0) + WaitsSinceReady(log)
    ensures SessionStarted(log + [a]) == (!a.Opened? && (StartsSession(a) || SessionStarted(log)))
    ensures HelloPending(log + [a]) ==
      if a.Opened? || StartsSession(a) || SessionStarted(log) then None
      else if a.Got? && a.event.Message? && a.event.body.Hello? && HelloPending(log).None? then Some(a.event.body.at)
      else HelloPending(log)
  {
    assert (log + [a])[..|log|] == log;
  }

  ghost predicate KindInv(h: Host) {
    && (h.phase.Online? ==> LatestOpened(h.log) == Some(h.phase.resuming))
    && Always(h.log, KeepsKind)
  }

  ghost predicate UnknownInv(h: Host) {
    && (CurrentId(h.log).None? ==> h.known.id == "" && !(h.phase.Online? && h.phase.resuming))
    && Always(h.log, IdentifiesWhenUnknown)
  }

  ghost predicate UrlInv(h: Host) {
    && h.known.url == LastUrl(h.log)
    && Always(h.log, OpensAtItsAddress)
  }

  ghost predicate PaceInv(h: Host) {
    && (if h.known.readySeen then WaitsSinceReady(h.log) == 0 else WaitsSinceReady(h.log) == h.attempt)
    && Always(h.log, WaitsAsDue)
  }

  ghost predicate ResumeInv(h: Host) {
    && (CurrentId(h.log).None? ==> h.known.id == "")
    && (CurrentId(h.log).Some? && CurrentId(h.log).value != "" ==> h.known.id == CurrentId(h.log).value)
    && (LastSequence(h.log).Some? ==> h.known.sequence == LastSequence(h.log))
    && (h.phase.Online? && h.phase.resuming ==> h.known.id != "" && h.known.sequence.Some?)
    && Always(h.log, FaithfulIffResumable) && Always(h.log, ResumesWhenItCan)
  }

  ghost predicate HelloInv(h: Host) {
    && (h.log != [] ==> !IsHello(h.log[|h.log| - 1]))
    && Always(h.log, AnswersHello)
  }

  /** Needs every READY to carry an id and a sequence number. */
  ghost predicate CompleteInv(h: Host) {
    && (CurrentId(h.log).Some? ==> CurrentId(h.log).value != "" && LastSequence(h.log).Some?)
    && (h.phase.Online? && h.phase.resuming ==> CurrentId(h.log).Some?)
    && (h.known.id != "" ==> CurrentId(h.log).Some?)
    && Always(h.log, ResumesAResumable)
  }

  predicate ResumesAResumable(before: seq<Act>, a: Act) {
    a.Sent? && a.handshake.Resume? ==> Resumable(before)
  }

  predicate CompleteReady(input: Input) {
    input.Receive? && input.event.Message? && input.event.body.Ready? ==>
      input.event.body.id != "" && input.event.s.Some?
  }

  predicate SameReading(log: seq<Act>, other: seq<Act>) {
    && CurrentId(log) == CurrentId(other) && LastSequence(log) == LastSequence(other) && LastUrl(log) == LastUrl(other)
    && LatestOpened(log) == LatestOpened(other) && WaitsSinceReady(log) == WaitsSinceReady(other)
    && SessionStarted(log) == SessionStarted(other) && HelloPending(log) == HelloPending(other)
  }

  /** A handshake changes no reading of the log. */
  lemma Grow(log: seq<Act>, added: seq<Act>)
    requires 1 <= |added| <= 2 && (|added| == 2 ==> added[1].Sent?)
    ensures SameReading(log + added, log + [added[0]])
  {
    hide CurrentId, LastSequence, LastUrl, LatestOpened, WaitsSinceReady, HelloPending, SessionStarted;
    if |added| == 1 {
      assert added == [added[0]];
    } else {
      assert log + added == log + [added[0]] + [added[1]];
      Append(log + [added[0]], added[1]);
      StartedIsNotPending(log + [added[0]]);
    }
  }

  lemma StartedIsNotPending(log: seq<Act>)
    ensures SessionStarted(log) ==> HelloPending(log).None?
  {
  }

  lemma AlwaysGrow(log: seq<Act>, added: seq<Act>, ok: (seq<Act>, Act) -> bool)
    requires 1 <= |added| <= 2 && Always(log, ok) && ok(log, added[0])
    requires |added| == 2 ==> ok(log + [added[0]], added[1])
    ensures Always(log + added, ok)
  {
    hide Always;
    AlwaysAppend(log, added[0], ok);
    if |added| == 1 {
      assert added == [added[0]];
    } else {
      assert log + added == log + [added[0]] + [added[1]];
      AlwaysAppend(log + [added[0]], added[1], ok);
    }
  }

  lemma StepKind(h: Host, input: Input, limit: real)
    requires KindInv(h)
    ensures KindInv(Step(h, input, limit))
  {
    hide Always, CurrentId, LastSequence, LastUrl, LatestOpened, WaitsSinceReady, HelloPending, SessionStarted;
    if Fits(h.phase, input) {
      var added := Added(h, input);
      Grow(h.log, added);
      Append(h.log, added[0]);
      AlwaysGrow(h.log, added, KeepsKind);
    }
  }

  lemma StepUnknown(h: Host, input: Input, limit: real)
    requires UnknownInv(h)
    ensures UnknownInv(Step(h, input, limit))
  {
    hide Always, CurrentId, LastSequence, LastUrl, LatestOpened, WaitsSinceReady, HelloPending, SessionStarted;
    if Fits(h.phase, input) {
      var added := Added(h, input);
      Grow(h.log, added);
      Append(h.log, added[0]);
      AlwaysGrow(h.log, added, IdentifiesWhenUnknown);
    }
  }

  lemma StepUrl(h: Host, input: Input, limit: real)
    requires UrlInv(h)
    ensures UrlInv(Step(h, input, limit))
  {
    hide Always, CurrentId, LastSequence, LastUrl, LatestOpened, WaitsSinceReady, HelloPending, SessionStarted;
    if Fits(h.phase, input) {
      var added := Added(h, input);
      Grow(h.log, added);
      Append(h.log, added[0]);
      AlwaysGrow(h.log, added, OpensAtItsAddress);
    }
  }

  lemma StepPace(h: Host, input: Input, limit: real)
    requires PaceInv(h)
    ensures PaceInv(Step(h, input, limit))
  {
    hide Always, CurrentId, LastSequence, LastUrl, LatestOpened, WaitsSinceReady, HelloPending, SessionStarted;
    if Fits(h.phase, input) {
      var added := Added(h, input);
      Grow(h.log, added);
      Append(h.log, added[0]);
      AlwaysGrow(h.log, added, WaitsAsDue);
    }
  }

  lemma StepResume(h: Host, input: Input, limit: real)
    requires ResumeInv(h)
    ensures ResumeInv(Step(h, input, limit))
  {
    hide Always, CurrentId, LastSequence, LastUrl, LatestOpened, WaitsSinceReady, HelloPending, SessionStarted;
    if Fits(h.phase, input) {
      var added := Added(h, input);
      Grow(h.log, added);
      Append(h.log, added[0]);
      AlwaysGrow(h.log, added, FaithfulIffResumable);
      AlwaysGrow(h.log, added, ResumesWhenItCan);
    }
  }

  lemma StepHello(h: Host, input: Input, limit: real)
    requires HelloInv(h)
    ensures HelloInv(Step(h, input, limit))
  {
    hide Always;
    if Fits(h.phase, input) {
      AlwaysGrow(h.log, Added(h, input), AnswersHello);
    }
  }

  lemma StepComplete(h: Host, input: Input, limit: real)
    requires CompleteInv(h) && CompleteReady(input)
    ensures CompleteInv(Step(h, input, limit))
  {
    hide Always, CurrentId, LastSequence, LastUrl, LatestOpened, WaitsSinceReady, HelloPending, SessionStarted;
    if Fits(h.phase, input) {
      var added := Added(h, input);
      Grow(h.log, added);
      Append(h.log, added[0]);
      AlwaysGrow(h.log, added, ResumesAResumable);
    }
  }

  function Within(limit: real): (seq<Act>, Act) -> bool {
    (before, a) => Proceeds(before, a, limit)
  }

  /** The phase agrees with the last act, and the deadline with the pending Hello. */
  ghost predicate PhaseInv(h: Host, limit: real) {
    && (h.phase.Online? ==>
          && h.phase.ready == SessionStarted(h.log)
          && h.phase.deadline == match HelloPending(h.log)
                                 case None => None
                                 case Some(at) => Some(at + if limit >= 0.0 then limit else 0.0))
    && (if h.log == [] then h.phase.Idle?
        else
          var last := h.log[|h.log| - 1];
          && (h.phase.Over? <==> Final(last))
          && (h.phase.Waiting? <==> Loses(last) || Overdue(h.log, last, limit))
          && (h.phase.Idle? <==> last.Waited?))
    && Always(h.log, Within(limit))
  }

  lemma StepPhase(h: Host, input: Input, limit: real)
    requires PhaseInv(h, limit)
    ensures PhaseInv(Step(h, input, limit), limit)
  {
    hide Always, CurrentId, LastSequence, LastUrl, LatestOpened, WaitsSinceReady, HelloPending, SessionStarted;
    if Fits(h.phase, input) {
      var added := Added(h, input);
      Grow(h.log, added);
      Append(h.log, added[0]);
      StartedIsNotPending(h.log);
      AlwaysGrow(h.log, added, Within(limit));
    }
  }

  lemma {:induction false} RunInv(h: Host, inputs: seq<Input>, limit: real)
    requires KindInv(h) && UnknownInv(h) && UrlInv(h) && PaceInv(h) && PhaseInv(h, limit)
    ensures var end := Run(h, inputs, limit);
      KindInv(end) && UnknownInv(end) && UrlInv(end) && PaceInv(end) && PhaseInv(end, limit)
    decreases |inputs|
  {
    hide Step, KindInv, UnknownInv, UrlInv, PaceInv, PhaseInv;
    if inputs != [] {
      StepKind(h, inputs[0], limit);
      StepUnknown(h, inputs[0], limit);
      StepUrl(h, inputs[0], limit);
      StepPace(h, inputs[0], limit);
      StepPhase(h, inputs[0], limit);
      RunInv(Step(h, inputs[0], limit), inputs[1..], limit);
    }
  }

  lemma {:induction false} RunResume(h: Host, inputs: seq<Input>, limit: real)
    requires ResumeInv(h)
    ensures ResumeInv(Run(h, inputs, limit))
    decreases |inputs|
  {
    hide Step, ResumeInv;
    if inputs != [] {
      StepResume(h, inputs[0], limit);
      RunResume(Step(h, inputs[0], limit), inputs[1..], limit);
    }
  }

  lemma {:induction false} RunHello(h: Host, inputs: seq<Input>, limit: real)
    requires HelloInv(h)
    ensures HelloInv(Run(h, inputs, limit))
    decreases |inputs|
  {
    hide Step, HelloInv;
    if inputs != [] {
      StepHello(h, inputs[0], limit);
      RunHello(Step(h, inputs[0], limit), inputs[1..], limit);
    }
  }

  lemma {:induction false} RunComplete(h: Host, inputs: seq<Input>, limit: real)
    requires CompleteInv(h) && forall i | 0 <= i < |inputs| :: CompleteReady(inputs[i])
    ensures CompleteInv(Run(h, inputs, limit))
    decreases |inputs|
  {
    hide Step, CompleteInv;
    if inputs != [] {
      StepComplete(h, inputs[0], limit);
      RunComplete(Step(h, inputs[0], limit), inputs[1..], limit);
    }
  }

  // ---- The protocol, over every run

  /**
   Whatever the peer sends, a RESUME names the latest READY's session and the last sequence number received in it
   exactly when that READY carried an id and a numbered message has come since.
   */
  lemma ResumeIsFaithfulIff(inputs: seq<Input>, limit: real)
    ensures Always(Run(START, inputs, limit).log, FaithfulIffResumable)
  {
    RunResume(START, inputs, limit);
  }

  /** Over every run, a session that can be resumed is: IDENTIFY does not take its place. */
  lemma ResumableIsResumed(inputs: seq<Input>, limit: real)
    ensures Always(Run(START, inputs, limit).log, ResumesWhenItCan)
  {
    RunResume(START, inputs, limit);
  }

  /** Over every run, each Hello is answered by one handshake, and nothing else is. */
  lemma EveryHelloIsAnswered(inputs: seq<Input>, limit: real)
    ensures var log := Run(START, inputs, limit).log;
      && Always(log, AnswersHello)
      && (log != [] ==> !IsHello(log[|log| - 1]))
  {
    RunHello(START, inputs, limit);
  }

  /** So every RESUME is faithful if every READY carries an id and a sequence number. */
  lemma ResumeIsFaithful(inputs: seq<Input>, limit: real)
    requires forall i | 0 <= i < |inputs| :: CompleteReady(inputs[i])
    ensures Always(Run(START, inputs, limit).log, ResumesFaithfully)
  {
    hide ResumesFaithfully, Resumable;
    RunResume(START, inputs, limit);
    RunComplete(START, inputs, limit);
    var log := Run(START, inputs, limit).log;
    forall k | 0 <= k < |log| ensures ResumesFaithfully(log[..k], log[k]) {
      assert FaithfulIffResumable(log[..k], log[k]) && ResumesAResumable(log[..k], log[k]);
      if !(log[k].Sent? && log[k].handshake.Resume?) {
        OthersAreFaithful(log[..k], log[k]);
      }
    }
  }

  lemma OthersAreFaithful(before: seq<Act>, a: Act)
    requires !(a.Sent? && a.handshake.Resume?)
    ensures ResumesFaithfully(before, a)
  {
  }

  /** After an invalidation every handshake is IDENTIFY until the next READY, whatever the peer sends. */
  lemma InvalidatedMeansIdentify(inputs: seq<Input>, limit: real)
    ensures Always(Run(START, inputs, limit).log, IdentifiesWhenUnknown)
  {
    RunInv(START, inputs, limit);
  }

  /** What counts as known: nothing, from an invalidation to the next READY. */
  lemma {:induction false} UnknownUntilReady(log: seq<Act>, i: nat, k: nat)
    requires i < k <= |log| && Invalidates(log[i]) && forall j | i < j < k :: !IsReady(log[j])
    ensures CurrentId(log[..k]).None?
  {
    assert log[..k][..k - 1] == log[..k - 1];
    if i < k - 1 {
      UnknownUntilReady(log, i, k - 1);
    }
  }

  /** No socket carries both kinds of handshake. */
  lemma OneKindPerConnection(inputs: seq<Input>, limit: real, i: nat, j: nat)
    requires var log := Run(START, inputs, limit).log;
      && i < j < |log| && log[i].Sent? && log[j].Sent?
      && forall k | i < k < j :: !log[k].Opened?
    ensures var log := Run(START, inputs, limit).log;
      log[i].handshake.Resume? == log[j].handshake.Resume?
  {
    RunInv(START, inputs, limit);
    var log := Run(START, inputs, limit).log;
    assert KeepsKind(log[..i], log[i]) && KeepsKind(log[..j], log[j]);
    LatestOpenedUnchanged(log, i, j);
  }

  lemma {:induction false} LatestOpenedUnchanged(log: seq<Act>, i: nat, j: nat)
    requires i <= j <= |log| && forall k | i <= k < j :: !log[k].Opened?
    ensures LatestOpened(log[..i]) == LatestOpened(log[..j])
  {
    if i < j {
      LatestOpenedUnchanged(log, i, j - 1);
      assert log[..j][..j - 1] == log[..j - 1];
    }
  }

  /** A resuming socket goes to the address its session named; an identifying one looks the gateway up. */
  lemma OpensWhereDue(inputs: seq<Input>, limit: real)
    ensures Always(Run(START, inputs, limit).log, OpensAtItsAddress)
  {
    RunInv(START, inputs, limit);
  }

  /** Every delay is the due one, so lies between floor and cap and starts over when a session starts. */
  lemma DelaysAreDue(inputs: seq<Input>, limit: real, k: nat)
    requires var log := Run(START, inputs, limit).log;
      k < |log| && log[k].Waited? && 0.0 <= log[k].draw <= 1.0
    ensures var log := Run(START, inputs, limit).log;
      && WaitsAsDue(log[..k], log[k])
      && BACKOFF_FLOOR <= log[k].delay <= Ceiling(1 + WaitsSinceReady(log[..k])) <= BACKOFF_CAP
      && IsShareOf(log[k].delay, log[k].draw, Ceiling(1 + WaitsSinceReady(log[..k])))
  {
    RunInv(START, inputs, limit);
    var log := Run(START, inputs, limit).log;
    assert WaitsAsDue(log[..k], log[k]);
    hide Ceiling, Delay, IsShareOf, WaitsSinceReady;
    DelayRange(1 + WaitsSinceReady(log[..k]), log[k].draw);
    DelayIsShare(1 + WaitsSinceReady(log[..k]), log[k].draw);
  }

  /** A fatal close ends the log; every other loss, and silence past the READY deadline, retries after a delay. */
  lemma LossesRetryAndFatalEnds(inputs: seq<Input>, limit: real)
    ensures Always(Run(START, inputs, limit).log, Within(limit))
    ensures var h := Run(START, inputs, limit);
      h.phase.Over? <==> h.log != [] && Final(h.log[|h.log| - 1])
  {
    RunInv(START, inputs, limit);
  }

  // ---- Both conditions fail at some input

  lemma RunOne(h: Host, a: Input, limit: real)
    ensures Run(h, [a], limit) == Step(h, a, limit)
  {
    assert [a][1..] == [];
  }

  lemma RunThree(h: Host, a: Input, b: Input, c: Input, rest: seq<Input>, limit: real)
    ensures Run(h, [a, b, c] + rest, limit) == Run(Step(Step(Step(h, a, limit), b, limit), c, limit), rest, limit)
  {
    hide Step;
    var inputs := [a, b, c] + rest;
    assert inputs[1..] == [b, c] + rest && ([b, c] + rest)[1..] == [c] + rest && ([c] + rest)[1..] == rest;
    var h1 := Step(h, a, limit);
    var h2 := Step(h1, b, limit);
    assert Run(h, inputs, limit) == Run(h1, [b, c] + rest, limit);
    assert Run(h1, [b, c] + rest, limit) == Run(h2, [c] + rest, limit);
  }

  /** Two messages on a first socket, a drop, and Hello on the next. */
  function TwoThenHello(first: Event, second: Event): seq<Input> {
    [Connect(false), Receive(first), Receive(second)]
    + ([Receive(Dropped), Retry(0.0), Connect(false)] + [Receive(Message(None, Hello(0.0)))])
  }

  lemma RunTwoThenHello(first: Event, second: Event)
    requires forall e | e == first || e == second :: e.Message? && (e.body.Ready? || e.body.OtherBody?)
    requires Learn(Learn(UNKNOWN, first), second).CanResume()
    ensures var known := Learn(Learn(UNKNOWN, first), second);
      Run(START, TwoThenHello(first, second), 0.0).log ==
      [Opened(false, ""), Got(first), Got(second), Got(Dropped), Waited(0.0, 0.25), Opened(true, known.url),
       Got(Message(None, Hello(0.0))), Sent(Resume(known.id, known.sequence))]
  {
    hide Run;
    var known := Learn(Learn(UNKNOWN, first), second);
    var hello := Receive(Message(None, Hello(0.0)));
    RunThree(START, Connect(false), Receive(first), Receive(second),
             [Receive(Dropped), Retry(0.0), Connect(false)] + [hello], 0.0);
    var h1 := Step(START, Connect(false), 0.0);
    var h2 := Step(h1, Receive(first), 0.0);
    assert h2.known == Learn(UNKNOWN, first) && h2.phase.Online? && h2.log == [Opened(false, ""), Got(first)];
    var h3 := Step(h2, Receive(second), 0.0);
    assert h3.known == known && h3.phase.Online? && h3.attempt == 0;
    assert h3.log == [Opened(false, ""), Got(first), Got(second)];
    RunThree(h3, Receive(Dropped), Retry(0.0), Connect(false), [hello], 0.0);
    var h6 := Step(Step(Step(h3, Receive(Dropped), 0.0), Retry(0.0), 0.0), Connect(false), 0.0);
    assert h6.known == known.(readySeen := false) && h6.phase == Online(true, false, None);
    assert h6.log == h3.log + [Got(Dropped), Waited(0.0, 0.25), Opened(true, known.url)];
    RunOne(h6, hello, 0.0);
  }

  /** A READY that carries no id leaves the old one in place: the next RESUME names a session that is not the latest. */
  lemma ReadyWithoutIdMisleads()
    ensures var inputs := TwoThenHello(Message(Some(1), Ready("a", "")), Message(Some(2), Ready("", "")));
      var log := Run(START, inputs, 0.0).log;
      !Always(log, ResumesFaithfully)
  {
    var first, second := Message(Some(1), Ready("a", "")), Message(Some(2), Ready("", ""));
    RunTwoThenHello(first, second);
    var log := Run(START, TwoThenHello(first, second), 0.0).log;
    assert log[7] == Sent(Resume("a", Some(2)));
    IdOfLatestReady(log, 2, 7);
    assert !ResumesFaithfully(log[..7], log[7]);
  }

  /** A READY that carries no sequence number lets RESUME name one received before the session began. */
  lemma ReadyWithoutSequenceMisleads()
    ensures var log := Run(START, TwoThenHello(Message(Some(1), OtherBody), Message(None, Ready("a", ""))), 0.0).log;
      !Always(log, ResumesFaithfully)
  {
    var first, second := Message(Some(1), OtherBody), Message(None, Ready("a", ""));
    RunTwoThenHello(first, second);
    var log := Run(START, TwoThenHello(first, second), 0.0).log;
    assert log[7] == Sent(Resume("a", Some(1)));
    NoSequenceSince(log, 2, 7);
    assert !ResumesFaithfully(log[..7], log[7]);
  }

  lemma {:induction false} IdOfLatestReady(log: seq<Act>, i: nat, k: nat)
    requires i < k <= |log| && IsReady(log[i])
    requires forall j | i < j < k :: !IsReady(log[j]) && !Invalidates(log[j])
    ensures CurrentId(log[..k]) == Some(log[i].event.body.id)
  {
    assert log[..k][..k - 1] == log[..k - 1];
    if i < k - 1 {
      IdOfLatestReady(log, i, k - 1);
    }
  }

  lemma {:induction false} NoSequenceSince(log: seq<Act>, i: nat, k: nat)
    requires i < k <= |log| && IsReady(log[i])
    requires forall j | i <= j < k :: log[j].Got? && log[j].event.Message? ==> log[j].event.s.None?
    ensures LastSequence(log[..k]).None?
  {
    assert log[..k][..k - 1] == log[..k - 1];
    if i < k - 1 {
      NoSequenceSince(log, i, k - 1);
    }
  }

  // ---- The objects and loops of the program

  lemma {:induction false} RunSplit(h: Host, first: seq<Input>, rest: seq<Input>, limit: real)
    ensures Run(h, first + rest, limit) == Run(Run(h, first, limit), rest, limit)
    decreases |first|
  {
    hide Step;
    if first == [] {
      assert first + rest == rest;
    } else {
      assert (first + rest)[1..] == first[1..] + rest;
      RunSplit(Step(h, first[0], limit), first[1..], rest, limit);
    }
  }

  function Received(events: seq<Event>): (inputs: seq<Input>)
    ensures |inputs| == |events|
  {
    seq(|events|, i requires 0 <= i < |events| => Receive(events[i]))
  }

  /** Messages no longer matter once the connection is lost. */
  lemma {:induction false} NotOnline(h: Host, events: seq<Event>, limit: real)
    requires !h.phase.Online?
    ensures Run(h, Received(events), limit) == h
    decreases |events|
  {
    if events != [] {
      assert Received(events)[1..] == Received(events[1..]);
      NotOnline(h, events[1..], limit);
    }
  }

  lemma ReceivedStep(h: Host, refused: bool, events: seq<Event>, i: nat, limit: real)
    requires i < |events|
    ensures Run(h, [Connect(refused)] + Received(events[..i + 1]), limit) ==
            Step(Run(h, [Connect(refused)] + Received(events[..i]), limit), Receive(events[i]), limit)
  {
    hide Step;
    var before := [Connect(refused)] + Received(events[..i]);
    assert [Connect(refused)] + Received(events[..i + 1]) == before + [Receive(events[i])];
    RunSplit(h, before, [Receive(events[i])], limit);
    assert [Receive(events[i])][1..] == [];
  }

  lemma ReceivedRest(h: Host, refused: bool, events: seq<Event>, i: nat, limit: real)
    requires i <= |events|
    requires !Run(h, [Connect(refused)] + Received(events[..i]), limit).phase.Online?
    ensures Run(h, [Connect(refused)] + Received(events), limit) ==
            Run(h, [Connect(refused)] + Received(events[..i]), limit)
  {
    hide Step;
    var before := [Connect(refused)] + Received(events[..i]);
    assert [Connect(refused)] + Received(events) == before + Received(events[i..]);
    RunSplit(h, before, Received(events[i..]), limit);
    NotOnline(Run(h, before, limit), events[i..], limit);
  }

  class GatewaySession {
    var sessionId: string
    var sequence: Option<int>
    var resumeUrl: string
    var readySeen: bool

    function Value(): Known
      reads this
    {
      Known(sessionId, sequence, resumeUrl, readySeen)
    }

    constructor ()
      ensures Value() == UNKNOWN
    {
      sessionId := "";
      sequence := None;
      resumeUrl := "";
      readySeen := false;
    }

    method CanResume() returns (can: bool)
      ensures can == Value().CanResume()
    {
      can := sessionId != "" && sequence.Some?;
    }

    method NoteReady(id: string, url: string)
      modifies this
      ensures Value() == old(Value()).Ready(id, url)
    {
      if id != "" {
        sessionId := id;
      }
      if url != "" {
        resumeUrl := url;
      }
      readySeen := true;
    }

    method NoteResumed()
      modifies this
      ensures Value() == old(Value()).(readySeen := true)
    {
      readySeen := true;
    }

    method ConsumeReady() returns (seen: bool)
      modifies this
      ensures seen == old(readySeen) && Value() == old(Value()).(readySeen := false)
    {
      seen := readySeen;
      readySeen := false;
    }

    method Invalidate()
      modifies this
      ensures Value() == old(Value()).Invalidated()
    {
      sessionId := "";
      sequence := None;
      resumeUrl := "";
    }
  }

  /** How a connection ended: the stop flag was set, or it was lost. */
  datatype Outcome = Returned | Lost(fatal: bool)

  /** A lost connection's phase. */
  function After(resuming: bool, ready: bool, deadline: Option<real>, outcome: Outcome): Phase {
    match outcome
    case Returned => Online(resuming, ready, deadline)
    case Lost(fatal) => if fatal then Over else Waiting
  }

  /** One turn of the receiving loop; `outcome` stays `Returned` while the connection lives. */
  method Turn(session: GatewaySession, e: Event, resuming: bool, ready: bool, deadline: Option<real>, limit: real,
              log: seq<Act>, ghost attempt: nat)
    returns (nowReady: bool, due: Option<real>, outcome: Outcome, longer: seq<Act>)
    modifies session
    ensures Step(Host(old(session.Value()), Online(resuming, ready, deadline), attempt, log), Receive(e), limit)
         == Host(session.Value(), After(resuming, nowReady, due, outcome), attempt, longer)
    ensures outcome == Lost(true) ==> longer == log + [Got(e)]
  {
    nowReady, due, outcome, longer := ready, deadline, Returned, log + [Got(e)];
    match e
    case Quiet(at, stale) =>
      if !ready && deadline.Some? && at >= deadline.value {
        outcome := Lost(false);
      } else if stale {
        outcome := Lost(false);
      }
    case Noise =>
    case Message(s, body) =>
      if s.Some? {
        session.sequence := s;
      }
      match body {
        case Hello(at) =>
          if deadline.None? && !ready {
            due := Some(at + if limit >= 0.0 then limit else 0.0);
          }
          if resuming {
            longer := log + [Got(e), Sent(Resume(session.sessionId, session.sequence))];
          } else {
            longer := log + [Got(e), Sent(Identify)];
          }
        case Reconnect => outcome := Lost(false);
        case InvalidSession(resumable) =>
          if !resumable {
            session.Invalidate();
          }
          outcome := Lost(false);
        case HeartbeatAck =>
        case Ready(id, url) =>
          nowReady, due := true, None;
          session.NoteReady(id, url);
        case Resumed =>
          nowReady, due := true, None;
          session.NoteResumed();
        case OtherBody =>
      }
    case Broken(code) =>
      var fatal := code.Some? && code.value in FATAL_CLOSE_CODES;
      if fatal || (code.Some? && code.value in REIDENTIFY_CLOSE_CODES) {
        session.Invalidate();
      }
      outcome := Lost(fatal);
    case Dropped => outcome := Lost(false);
    case Crashed => outcome := Lost(false);
  }

  /** One connection, up to its loss or to the end of the events, when the stop flag is set. */
  method RunDiscordGateway(session: GatewaySession, refused: bool, events: seq<Event>, limit: real,
                           log: seq<Act>, ghost attempt: nat)
    returns (outcome: Outcome, longer: seq<Act>)
    modifies session
    ensures var start := Host(old(session.Value()), Idle, attempt, log);
      var end := Run(start, [Connect(refused)] + Received(events), limit);
      && end.known == session.Value() && end.log == longer && end.attempt == attempt
      && match outcome
         case Returned => end.phase.Online?
         case Lost(fatal) => end.phase == if fatal then Over else Waiting
    ensures outcome == Lost(true) ==> longer != [] && longer[|longer| - 1].Got?
  {
    hide Run;
    ghost var start := Host(session.Value(), Idle, attempt, log);
    var resuming := session.CanResume();
    RunOne(start, Connect(refused), limit);
    assert events[..0] == [] && [Connect(refused)] + Received([]) == [Connect(refused)];
    if refused {
      ReceivedRest(start, refused, events, 0, limit);
      return Lost(false), log + [Refused];
    }
    var url := if resuming then session.resumeUrl else "";
    longer := log + [Opened(resuming, url)];
    var ready, deadline := false, None;
    outcome := Returned;
    var i := 0;
    while i < |events|
      invariant 0 <= i <= |events|
      invariant Run(start, [Connect(refused)] + Received(events[..i]), limit) ==
                Host(session.Value(), Online(resuming, ready, deadline), attempt, longer)
      invariant outcome == Returned
    {
      ReceivedStep(start, refused, events, i, limit);
      ready, deadline, outcome, longer := Turn(session, events[i], resuming, ready, deadline, limit, longer, attempt);
      i := i + 1;
      if outcome != Returned {
        ReceivedRest(start, refused, events, i, limit);
        return;
      }
    }
    assert events[..i] == events;
  }

  /** One turn of the reconnect loop: what its connection meets, and the jitter drawn after a loss. */
  datatype Try = Try(refused: bool, events: seq<Event>, draw: real)

  /** The stop flag is set when a connection's events, or the tries themselves, run out. */
  function Inputs(tries: seq<Try>): seq<Input> {
    if tries == [] then [Halt]
    else [Connect(tries[0].refused)] + Received(tries[0].events) + ([Halt, Retry(tries[0].draw)] + Inputs(tries[1..]))
  }

  lemma {:induction false} OverIsOver(h: Host, inputs: seq<Input>, limit: real)
    requires h.phase.Over?
    ensures Run(h, inputs, limit) == h
    decreases |inputs|
  {
    if inputs != [] {
      OverIsOver(h, inputs[1..], limit);
    }
  }

  lemma RunTry(h: Host, tries: seq<Try>, limit: real)
    requires tries != []
    ensures var met := Run(h, [Connect(tries[0].refused)] + Received(tries[0].events), limit);
      Run(h, Inputs(tries), limit) ==
      Run(Step(Step(met, Halt, limit), Retry(tries[0].draw), limit), Inputs(tries[1..]), limit)
  {
    hide Step;
    var met := [Connect(tries[0].refused)] + Received(tries[0].events);
    var rest := [Halt, Retry(tries[0].draw)] + Inputs(tries[1..]);
    RunSplit(h, met, rest, limit);
    assert rest[1..] == [Retry(tries[0].draw)] + Inputs(tries[1..]) && rest[1..][1..] == Inputs(tries[1..]);
  }

  lemma RunOut(h: Host, limit: real)
    ensures Run(h, Inputs([]), limit) == Step(h, Halt, limit)
  {
    assert [Halt][1..] == [];
  }

  /** The reconnect loop of the panel. */
  method ReconnectLoop(tries: seq<Try>, limit: real) returns (log: seq<Act>, fatal: bool)
    ensures log == Run(START, Inputs(tries), limit).log
    ensures Run(START, Inputs(tries), limit).phase.Over?
    ensures log != [] && (fatal <==> !log[|log| - 1].Halted?)
  {
    hide Run, Inputs;
    var session := new GatewaySession();
    var attempt: nat := 0;
    log := [];
    var i := 0;
    while i < |tries|
      invariant 0 <= i <= |tries|
      invariant Run(START, Inputs(tries), limit) ==
                Run(Host(session.Value(), Idle, attempt, log), Inputs(tries[i..]), limit)
    {
      RunTry(Host(session.Value(), Idle, attempt, log), tries[i..], limit);
      assert tries[i..][1..] == tries[i + 1..];
      var outcome;
      outcome, log := RunDiscordGateway(session, tries[i].refused, tries[i].events, limit, log, attempt);
      match outcome {
        case Returned =>
          log := log + [Halted];
          OverIsOver(Host(session.Value(), Over, attempt, log), Inputs(tries[i + 1..]), limit);
          return log, false;
        case Lost(isFatal) =>
          if isFatal {
            OverIsOver(Host(session.Value(), Over, attempt, log), Inputs(tries[i + 1..]), limit);
            return log, true;
          }
      }
      var seen := session.ConsumeReady();
      if seen {
        attempt := 0;
      }
      attempt := attempt + 1;
      var delay := Delay(attempt, tries[i].draw);
      log := log + [Waited(tries[i].draw, delay)];
      i := i + 1;
    }
    assert tries[i..] == [];
    RunOut(Host(session.Value(), Idle, attempt, log), limit);
    log := log + [Halted];
    fatal := false;
  }
}
