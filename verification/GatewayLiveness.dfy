/**
 The gateway loop and the health module together: what the loop tells the module as it runs, and what it may
 conclude when it reads the verdict back on a quiet turn.
 */
module GatewayLiveness {
  import opened Basics
  import G = Gateway
  import H = GatewayHealth

  /** The module's clock and the heartbeat interval that Hello carries, by position in the log. */
  datatype World = World(clock: nat -> real, beat: nat -> int, limits: H.Limits)

  /** The connection is over: lost, or for good. */
  predicate Ends(before: seq<G.Act>, a: G.Act, limit: real) {
    (G.Loses(a) && !a.Refused?) || G.Final(a) || G.Overdue(before, a, limit)
  }

  /** What the loop tells the module at an act. */
  function Told(before: seq<G.Act>, a: G.Act, w: World, limit: real): seq<H.Event> {
    var at := w.clock(|before|);
    if a.Opened? then [H.Connected]
    else if Ends(before, a, limit) then [H.Closed(at)]
    else if !a.Got? || !a.event.Message? then []
    else
      match a.event.body
      case Hello(_) => [H.Interval(w.beat(|before|))]
      case HeartbeatAck => [H.Ack(at)]
      case Ready(_, _) => [H.Ready(at)]
      case Resumed => [H.Ready(at)]
      case _ => []
  }

  function Notes(log: seq<G.Act>, w: World, limit: real): seq<H.Event> {
    if log == [] then []
    else
      var before := log[..|log| - 1];
      Notes(before, w, limit) + Told(before, log[|log| - 1], w, limit)
  }

  lemma NotesAppend(log: seq<G.Act>, a: G.Act, w: World, limit: real)
    ensures Notes(log + [a], w, limit) == Notes(log, w, limit) + Told(log, a, w, limit)
  {
    assert (log + [a])[..|log|] == log;
  }

  lemma ToldOne(events: seq<H.Event>, told: seq<H.Event>)
    requires |told| <= 1
    ensures H.ReadySince(events + told) ==
            if told == [] then H.ReadySince(events)
            else !told[0].Connected? && (told[0].Ready? || H.ReadySince(events))
    ensures H.Up(events + told) ==
            if told == [] || told[0].Interval? || told[0].Expected? then H.Up(events) else !told[0].Closed?
  {
    if told == [] {
      assert events + told == events;
    } else {
      var all := events + told;
      assert all[..|all| - 1] == events && all[|all| - 1] == told[0];
    }
  }

  lemma ToldShape(before: seq<G.Act>, a: G.Act, w: World, limit: real)
    ensures var told := Told(before, a, w, limit);
      && |told| <= 1
      && (a.Opened? <==> told != [] && told[0].Connected?)
      && (G.StartsSession(a) <==> told != [] && told[0].Ready?)
  {
    hide G.HelloPending;
  }

  /** The module has seen READY on this socket exactly when the loop has. */
  lemma {:induction false} ReadyIsShared(log: seq<G.Act>, w: World, limit: real)
    ensures H.ReadySince(Notes(log, w, limit)) == G.SessionStarted(log)
  {
    hide Told, G.StartsSession, H.ReadySince;
    if log == [] {
      NothingSeen();
    } else {
      var before := log[..|log| - 1];
      ReadyIsShared(before, w, limit);
      ToldShape(before, log[|log| - 1], w, limit);
      ToldOne(Notes(before, w, limit), Told(before, log[|log| - 1], w, limit));
    }
  }

  lemma NothingSeen()
    ensures !H.ReadySince([])
  {
  }

  lemma {:induction false} NotesArePositive(log: seq<G.Act>, w: World, limit: real)
    requires forall k: nat :: w.clock(k) > 0.0
    ensures H.PositiveTimes(Notes(log, w, limit))
  {
    if log != [] {
      NotesArePositive(log[..|log| - 1], w, limit);
    }
  }

  /** The module takes the socket to be up at every turn of the loop. */
  function UpAtTurns(w: World, limit: real): (seq<G.Act>, G.Act) -> bool {
    (before: seq<G.Act>, a: G.Act) => a.Got? ==> H.Up(Notes(before, w, limit))
  }

  ghost predicate UpInv(h: G.Host, w: World, limit: real) {
    && (h.phase.Online? ==> H.Up(Notes(h.log, w, limit)))
    && Always(h.log, UpAtTurns(w, limit))
  }

  /** An act after which the socket is still open is not one that ends it. */
  lemma StillOnline(h: G.Host, input: G.Input, limit: real)
    requires G.PhaseInv(h, limit) && G.Fits(h.phase, input) && G.Step(h, input, limit).phase.Online?
    ensures !Ends(h.log, G.Added(h, input)[0], limit)
  {
    hide G.HelloPending, G.SessionStarted, Always;
    var a := G.Added(h, input)[0];
    G.StepPhase(h, input, limit);
    G.StartedIsNotPending(h.log);
  }

  lemma StepUp(h: G.Host, input: G.Input, w: World, limit: real)
    requires UpInv(h, w, limit) && G.PhaseInv(h, limit)
    ensures UpInv(G.Step(h, input, limit), w, limit)
  {
    hide Always, H.Up, H.ReadySince, Notes, Ends, G.PhaseInv;
    if G.Fits(h.phase, input) {
      var added := G.Added(h, input);
      NotesAppend(h.log, added[0], w, limit);
      ToldOne(Notes(h.log, w, limit), Told(h.log, added[0], w, limit));
      if G.Step(h, input, limit).phase.Online? {
        StillOnline(h, input, limit);
      }
      if |added| == 2 {
        SentTellsNothing(h.log + [added[0]], added[1], w, limit);
        assert h.log + added == h.log + [added[0]] + [added[1]];
      } else {
        assert added == [added[0]];
      }
      G.AlwaysGrow(h.log, added, UpAtTurns(w, limit));
    }
  }

  lemma SentTellsNothing(log: seq<G.Act>, a: G.Act, w: World, limit: real)
    requires a.Sent?
    ensures Notes(log + [a], w, limit) == Notes(log, w, limit)
  {
    NotesAppend(log, a, w, limit);
  }

  lemma {:induction false} RunUp(h: G.Host, inputs: seq<G.Input>, w: World, limit: real)
    requires UpInv(h, w, limit) && G.PhaseInv(h, limit)
    ensures UpInv(G.Run(h, inputs, limit), w, limit)
    decreases |inputs|
  {
    hide UpInv, G.PhaseInv, G.Step;
    if inputs != [] {
      StepUp(h, inputs[0], w, limit);
      G.StepPhase(h, inputs[0], limit);
      RunUp(G.Step(h, inputs[0], limit), inputs[1..], w, limit);
    }
  }

  /** The flag a quiet turn carries is the verdict the module gives then. */
  function ReadsVerdict(w: World, limit: real): (seq<G.Act>, G.Act) -> bool {
    (before: seq<G.Act>, a: G.Act) =>
      a.Got? && a.event.Quiet? ==>
        a.event.stale == H.Snapshot(H.NoteAll(Notes(before, w, limit)), w.clock(|before|), w.limits).Stale?
  }

  /**
   In every run whose quiet turns read the module's verdict, a quiet turn finds the socket stale exactly when a
   session has started on it and its newest ACK, or else its first READY, is older than the scaled window.
   */
  lemma StaleTurnIff(inputs: seq<G.Input>, w: World, limit: real, k: nat)
    requires forall i: nat :: w.clock(i) > 0.0
    requires var log := G.Run(G.START, inputs, limit).log;
      Always(log, ReadsVerdict(w, limit)) && k < |log| && log[k].Got? && log[k].event.Quiet?
    ensures var log := G.Run(G.START, inputs, limit).log;
      var notes := Notes(log[..k], w, limit);
      log[k].event.stale <==> (
      && G.SessionStarted(log[..k]) && H.Mark(notes).Some?
      && w.clock(k) - H.Mark(notes).value > H.Scaled(w.limits.ackStale, H.LatestInterval(notes)))
  {
    hide H.NoteAll, H.Snapshot, H.ReadySince, H.Up, H.Mark, H.LatestInterval, H.Scaled, G.SessionStarted, Notes;
    var log := G.Run(G.START, inputs, limit).log;
    RunUp(G.START, inputs, w, limit);
    assert UpAtTurns(w, limit)(log[..k], log[k]);
    assert ReadsVerdict(w, limit)(log[..k], log[k]);
    ReadyIsShared(log[..k], w, limit);
    NotesArePositive(log[..k], w, limit);
    H.StaleIff(Notes(log[..k], w, limit), w.clock(k), w.limits);
  }

  /** So no socket is dropped as stale before its READY. */
  lemma NoStaleDropBeforeReady(inputs: seq<G.Input>, w: World, limit: real, k: nat)
    requires forall i: nat :: w.clock(i) > 0.0
    requires var log := G.Run(G.START, inputs, limit).log;
      Always(log, ReadsVerdict(w, limit)) && k < |log| && log[k].Got? && log[k].event.Quiet?
    ensures var log := G.Run(G.START, inputs, limit).log;
      !G.SessionStarted(log[..k]) ==> !log[k].event.stale
  {
    StaleTurnIff(inputs, w, limit, k);
  }
}
