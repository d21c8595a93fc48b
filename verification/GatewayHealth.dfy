/**
 The gateway's liveness verdict. The module state that the `note_*` calls update is a class; its
 verdict after any run of events is proved equal to one read off the events themselves.
 */
module GatewayHealth {
  import opened Basics

  const DEFAULT_INTERVAL_MS := 41250

  datatype Event =
    | Connected
    | Expected(at: real)
    | Ready(at: real)
    | Interval(ms: int)
    | Ack(at: real)
    | Closed(at: real)

  datatype State = State(
    ready: bool,
    connected: bool,
    lastAck: real,
    readyAt: real,
    intervalMs: int,
    expected: bool,
    expectedAt: real)

  const RESET := State(false, false, 0.0, 0.0, DEFAULT_INTERVAL_MS, false, 0.0)

  /** `Quiet`: nothing to say yet. `Stale` is the verdict that makes the socket reconnect. */
  datatype Verdict = Quiet | NeverReady | SocketClosed | Fresh | Stale

  datatype Limits = Limits(ackStale: real, readyGrace: real, neverReadyGrace: real)

  // ---- What the calls do to the state

  function Note(s: State, e: Event): State {
    match e
    case Connected => s.(connected := true, ready := false, lastAck := 0.0, readyAt := 0.0)
    case Expected(at) => if s.expected then s else s.(expected := true, expectedAt := at)
    case Ready(at) =>
      s.(ready := true, connected := true, readyAt := at, lastAck := if s.lastAck == 0.0 then at else s.lastAck)
    case Interval(ms) => if ms <= 0 then s else s.(intervalMs := ms)
    case Ack(at) => s.(lastAck := at, connected := true)
    case Closed(_) => s.(connected := false)
  }

  function NoteAll(events: seq<Event>): State {
    if events == [] then RESET else Note(NoteAll(events[..|events| - 1]), events[|events| - 1])
  }

  function Scaled(ackStale: real, intervalMs: int): real {
    var beats := intervalMs as real / 1000.0 * 2.5;
    if ackStale >= beats then ackStale else beats
  }

  function Age(s: State, now: real): Option<real> {
    if s.lastAck <= 0.0 then None else Some(if now - s.lastAck >= 0.0 then now - s.lastAck else 0.0)
  }

  /** The branches that follow once READY was seen on an open socket, after the ready-grace one. */
  function AfterGrace(s: State, now: real, limits: Limits): Verdict {
    if Age(s, now).None? || Age(s, now).value > Scaled(limits.ackStale, s.intervalMs) then Stale else Fresh
  }

  function Snapshot(s: State, now: real, limits: Limits): Verdict {
    if !s.ready then
      if s.expected && s.expectedAt != 0.0 && now - s.expectedAt >= limits.neverReadyGrace then NeverReady else Quiet
    else if !s.connected then SocketClosed
    else if s.readyAt != 0.0 && now - s.readyAt < limits.readyGrace
         && (Age(s, now).None? || Age(s, now).value < Scaled(limits.ackStale, s.intervalMs)) then Fresh
    else AfterGrace(s, now, limits)
  }

  // ---- What the events say, read backwards

  /** A READY has come since the latest connect. */
  predicate ReadySince(events: seq<Event>) {
    if events == [] || events[|events| - 1].Connected? then false
    else events[|events| - 1].Ready? || ReadySince(events[..|events| - 1])
  }

  /** The latest word on the socket was not that it closed. */
  predicate Up(events: seq<Event>) {
    if events == [] then false
    else
      match events[|events| - 1]
      case Connected => true
      case Ready(_) => true
      case Ack(_) => true
      case Closed(_) => false
      case _ => Up(events[..|events| - 1])
  }

  function NewestAck(events: seq<Event>): Option<real> {
    if events == [] || events[|events| - 1].Connected? then None
    else if events[|events| - 1].Ack? then Some(events[|events| - 1].at)
    else NewestAck(events[..|events| - 1])
  }

  /** The first READY since the latest connect. */
  function FirstReady(events: seq<Event>): Option<real> {
    if events == [] || events[|events| - 1].Connected? then None
    else if events[|events| - 1].Ready? && FirstReady(events[..|events| - 1]).None? then Some(events[|events| - 1].at)
    else FirstReady(events[..|events| - 1])
  }

  /** The sign of life the verdict goes by: the newest ACK on this socket, or else its first READY. */
  function Mark(events: seq<Event>): Option<real> {
    if NewestAck(events).Some? then NewestAck(events) else FirstReady(events)
  }

  function LatestInterval(events: seq<Event>): int {
    if events == [] then DEFAULT_INTERVAL_MS
    else if events[|events| - 1].Interval? && events[|events| - 1].ms > 0 then events[|events| - 1].ms
    else LatestInterval(events[..|events| - 1])
  }

  /** When a gateway was first expected in this process; later connects do not move it. */
  function FirstExpected(events: seq<Event>): Option<real> {
    if events == [] then None
    else if events[|events| - 1].Expected? && FirstExpected(events[..|events| - 1]).None? then
      Some(events[|events| - 1].at)
    else FirstExpected(events[..|events| - 1])
  }

  ghost predicate PositiveTimes(events: seq<Event>) {
    forall i | 0 <= i < |events| && !events[i].Connected? && !events[i].Interval? :: events[i].at > 0.0
  }

  ghost predicate Agrees(s: State, events: seq<Event>) {
    && s.ready == ReadySince(events) && s.connected == Up(events)
    && s.lastAck == (if Mark(events).Some? then Mark(events).value else 0.0) && s.lastAck >= 0.0
    && (s.ready ==> s.lastAck > 0.0)
    && (NewestAck(events).Some? ==> NewestAck(events).value > 0.0)
    && (FirstReady(events).Some? <==> ReadySince(events))
    && (FirstReady(events).Some? ==> FirstReady(events).value > 0.0)
    && s.intervalMs == LatestInterval(events)
    && s.expected == FirstExpected(events).Some?
    && (s.expected ==> s.expectedAt == FirstExpected(events).value && s.expectedAt > 0.0)
  }

  lemma {:induction false} StateAgrees(events: seq<Event>)
    requires PositiveTimes(events)
    ensures Agrees(NoteAll(events), events)
  {
    if events != [] {
      StateAgrees(events[..|events| - 1]);
    }
  }

  // ---- The verdict

  /** The verdict in terms of the events. */
  function VerdictOn(events: seq<Event>, now: real, limits: Limits): Verdict {
    if !ReadySince(events) then
      match FirstExpected(events)
      case Some(at) => if now - at >= limits.neverReadyGrace then NeverReady else Quiet
      case None => Quiet
    else if !Up(events) then SocketClosed
    else if Mark(events).Some? && now - Mark(events).value <= Scaled(limits.ackStale, LatestInterval(events)) then Fresh
    else Stale
  }

  lemma {:induction false} LatestIntervalPositive(events: seq<Event>)
    ensures LatestInterval(events) > 0
  {
    if events != [] {
      LatestIntervalPositive(events[..|events| - 1]);
    }
  }

  /** After any run of events the verdict is the one the events justify. */
  lemma VerdictIsJustified(events: seq<Event>, now: real, limits: Limits)
    requires PositiveTimes(events)
    ensures Snapshot(NoteAll(events), now, limits) == VerdictOn(events, now, limits)
  {
    hide NoteAll, ReadySince, Up, NewestAck, FirstReady, LatestInterval, FirstExpected, PositiveTimes;
    StateAgrees(events);
    LatestIntervalPositive(events);
  }

  /** A socket is called stale exactly when it is up, has had READY, and its mark is older than the scaled window. */
  lemma StaleIff(events: seq<Event>, now: real, limits: Limits)
    requires PositiveTimes(events)
    ensures Snapshot(NoteAll(events), now, limits).Stale? <==>
            ReadySince(events) && Up(events) && Mark(events).Some? &&
            now - Mark(events).value > Scaled(limits.ackStale, LatestInterval(events))
  {
    hide NoteAll, ReadySince, Up, NewestAck, FirstReady, LatestInterval, FirstExpected, PositiveTimes;
    StateAgrees(events);
    VerdictIsJustified(events, now, limits);
  }

  /** The window is the least that holds both the limit and two and a half intervals, of milliseconds. */
  lemma ScaledIsLeast(ackStale: real, intervalMs: int, window: real)
    ensures Scaled(ackStale, intervalMs) >= ackStale && 400.0 * Scaled(ackStale, intervalMs) >= intervalMs as real
    ensures window >= ackStale && 400.0 * window >= intervalMs as real ==> window >= Scaled(ackStale, intervalMs)
  {
  }

  /** Stale, in plain numbers: silence longer than the limit and than two and a half heartbeat intervals. */
  lemma StaleAfterBoth(events: seq<Event>, now: real, limits: Limits)
    requires PositiveTimes(events)
    ensures Snapshot(NoteAll(events), now, limits).Stale? <==>
            ReadySince(events) && Up(events) && Mark(events).Some? &&
            now - Mark(events).value > limits.ackStale &&
            (now - Mark(events).value) * 1000.0 > 2.5 * LatestInterval(events) as real
  {
    hide NoteAll, ReadySince, Up, NewestAck, FirstReady, LatestInterval, FirstExpected, PositiveTimes, Snapshot, Mark;
    StaleIff(events, now, limits);
  }

  /** Between a connect and its READY nothing is called stale. */
  lemma {:induction false} NotStaleBeforeReady(events: seq<Event>, later: seq<Event>, now: real, limits: Limits)
    requires PositiveTimes(events + [Connected] + later) && forall i | 0 <= i < |later| :: !later[i].Ready?
    ensures !Snapshot(NoteAll(events + [Connected] + later), now, limits).Stale?
  {
    StaleIff(events + [Connected] + later, now, limits);
    NotReady(events + [Connected], later);
  }

  lemma {:induction false} NotReady(events: seq<Event>, later: seq<Event>)
    requires events != [] && events[|events| - 1].Connected? && forall i | 0 <= i < |later| :: !later[i].Ready?
    ensures !ReadySince(events + later)
    decreases |later|
  {
    var all := events + later;
    if later == [] {
      assert all == events;
    } else {
      assert all[..|all| - 1] == events + later[..|later| - 1] && all[|all| - 1] == later[|later| - 1];
      NotReady(events, later[..|later| - 1]);
    }
  }

  /** The ready-grace branch decides nothing: leaving it out gives the same verdict after every run. */
  lemma GraceChangesNothing(events: seq<Event>, now: real, limits: Limits)
    requires PositiveTimes(events)
    ensures var s := NoteAll(events);
      s.ready && s.connected ==> Snapshot(s, now, limits) == AfterGrace(s, now, limits)
  {
    hide NoteAll, ReadySince, Up, NewestAck, FirstReady, LatestInterval, FirstExpected, PositiveTimes;
    StateAgrees(events);
  }

  /** READY itself is a sign of life only when the socket has shown none before: otherwise it can be stale at once. */
  lemma StaleAtReadyIff(events: seq<Event>, at: real, limits: Limits)
    requires PositiveTimes(events) && at > 0.0
    ensures Snapshot(NoteAll(events + [Ready(at)]), at, limits).Stale? <==>
            Mark(events).Some? && at - Mark(events).value > Scaled(limits.ackStale, LatestInterval(events))
  {
    var all := events + [Ready(at)];
    assert all[..|all| - 1] == events;
    LatestIntervalPositive(events);
    StaleIff(all, at, limits);
  }

  /** With the default limits, an ACK long before READY on the same socket has that effect. */
  lemma ReadyCanBeStaleAtOnce()
    ensures Snapshot(NoteAll([Connected, Ack(1.0)] + [Ready(1000.0)]), 1000.0, Limits(120.0, 90.0, 90.0)).Stale?
  {
    var events := [Connected, Ack(1.0)];
    assert events[..1] == [Connected] && NewestAck(events) == Some(1.0);
    assert LatestInterval(events[..1]) == LatestInterval(events) && [Connected][..0] == [];
    assert LatestInterval([Connected]) == DEFAULT_INTERVAL_MS;
    StaleAtReadyIff(events, 1000.0, Limits(120.0, 90.0, 90.0));
  }

  // ---- The module state

  class Health {
    var ready: bool
    var connected: bool
    var lastAckAt: real
    var readyAt: real
    var heartbeatIntervalMs: int
    var expected: bool
    var expectedAt: real

    function Value(): State
      reads this
    {
      State(ready, connected, lastAckAt, readyAt, heartbeatIntervalMs, expected, expectedAt)
    }

    constructor ()
      ensures Value() == RESET
    {
      ready, connected, lastAckAt, readyAt := false, false, 0.0, 0.0;
      heartbeatIntervalMs, expected, expectedAt := DEFAULT_INTERVAL_MS, false, 0.0;
    }

    method NoteConnected()
      modifies this
      ensures Value() == Note(old(Value()), Connected)
    {
      connected := true;
      ready := false;
      lastAckAt := 0.0;
      readyAt := 0.0;
    }

    method NoteExpected(now: real)
      modifies this
      ensures Value() == Note(old(Value()), Expected(now))
    {
      if !expected {
        expected := true;
        expectedAt := now;
      }
    }

    method NoteReady(now: real)
      modifies this
      ensures Value() == Note(old(Value()), Ready(now))
    {
      ready := true;
      connected := true;
      readyAt := now;
      if lastAckAt == 0.0 {
        lastAckAt := now;
      }
    }

    method NoteInterval(ms: int)
      modifies this
      ensures Value() == Note(old(Value()), Interval(ms))
    {
      if ms <= 0 {
        return;
      }
      heartbeatIntervalMs := ms;
    }

    method NoteAck(now: real)
      modifies this
      ensures Value() == Note(old(Value()), Ack(now))
    {
      lastAckAt := now;
      connected := true;
    }

    method NoteClosed(now: real)
      modifies this
      ensures Value() == Note(old(Value()), Closed(now))
    {
      connected := false;
    }

    /** The verdict, branch by branch as the calls read the state. */
    method Verdict(now: real, limits: Limits) returns (v: Verdict)
      ensures v == Snapshot(Value(), now, limits)
    {
      var beats := heartbeatIntervalMs as real / 1000.0 * 2.5;
      var scaled := if limits.ackStale >= beats then limits.ackStale else beats;
      var age: Option<real> := None;
      if lastAckAt > 0.0 {
        age := Some(if now - lastAckAt >= 0.0 then now - lastAckAt else 0.0);
      }
      if !ready {
        if expected && expectedAt != 0.0 && now - expectedAt >= limits.neverReadyGrace {
          return NeverReady;
        }
        return Quiet;
      }
      if !connected {
        return SocketClosed;
      }
      if readyAt != 0.0 && now - readyAt < limits.readyGrace && (age.None? || age.value < scaled) {
        return Fresh;
      }
      if age.None? || age.value > scaled {
        return Stale;
      }
      return Fresh;
    }
  }

  /** Any run of the calls, then a look: the object gives the verdict the events justify. */
  method Observe(events: seq<Event>, now: real, limits: Limits) returns (v: Verdict)
    requires PositiveTimes(events)
    ensures v == VerdictOn(events, now, limits)
  {
    var health := new Health();
    assert events[..0] == [];
    for i := 0 to |events|
      invariant fresh(health) && health.Value() == NoteAll(events[..i])
    {
      assert events[..i + 1][..i] == events[..i];
      match events[i] {
        case Connected => health.NoteConnected();
        case Expected(at) => health.NoteExpected(at);
        case Ready(at) => health.NoteReady(at);
        case Interval(ms) => health.NoteInterval(ms);
        case Ack(at) => health.NoteAck(at);
        case Closed(at) => health.NoteClosed(at);
      }
    }
    assert events[..|events|] == events;
    VerdictIsJustified(events, now, limits);
    v := health.Verdict(now, limits);
  }
}
