/**
 The REST request loop against an adversarial transport: what each attempt meets is the
 environment's choice. The limiter and its clock are the ones of `RateLimit`.
 */
module RestRetry {
  import opened Basics
  import opened RateLimit

  const TRANSIENT_HTTP := {502, 503, 504}
  const IDEMPOTENT_RETRY_HTTP := {500}
  const TRANSIENT_RETRY_SLEEPS := [0.25, 0.75]
  const RATE_LIMIT_MAX_RETRIES := 3
  const RATE_LIMIT_MAX_WAIT := 60.0

  datatype Errno =
    | EADDRNOTAVAIL
    | ETIMEDOUT
    | ECONNRESET
    | ECONNREFUSED
    | EHOSTUNREACH
    | ENETUNREACH
    | EPIPE
    | ECONNABORTED
    | ETIME
    | OTHER

  /**
   A transport exception: a failed name lookup, a timeout, an error of the operating system, or the wrapping of one by
   the URL library. `says` tells whether the message of an exception speaks of a transient fault.
   */
  datatype Exn =
    | Lookup(says: bool)
    | TimedOut
    | System(errno: Option<Errno>, says: bool)
    | Url(reason: Option<Exn>)

  predicate TransientErrno(errno: Errno) {
    !errno.OTHER?
  }

  predicate NotSentErrno(errno: Errno) {
    errno.ECONNREFUSED? || errno.EHOSTUNREACH? || errno.ENETUNREACH? || errno.EADDRNOTAVAIL?
  }

  predicate IsTransient(e: Exn) {
    match e
    case TimedOut => true
    case Url(_) => true
    case System(errno, says) => (errno.Some? && TransientErrno(errno.value)) || says
    case Lookup(says) => says
  }

  /** The code's reason to believe that nothing was sent: it looks at the error, not at when it was raised. */
  predicate DefinitelyNotSent(e: Exn) {
    match e
    case Lookup(_) => true
    case TimedOut => false
    case System(errno, _) => errno.Some? && NotSentErrno(errno.value)
    case Url(reason) => reason.Some? && DefinitelyNotSent(reason.value)
  }

  /** How far an attempt had come: nothing had gone out, nothing had come back, or the body was being read. */
  datatype Stage = Connecting | Awaiting | Reading(headers: Headers)

  /** A 429 carries its wait, a transport error the stage at which it was raised. */
  datatype Reply =
    | Body(headers: Headers)
    | TooMany(wait: Span, isGlobal: bool, headers: Headers)
    | HttpError(code: int, headers: Headers)
    | Transport(exn: Exn, stage: Stage)

  /** What one attempt meets, and how the clock moves around it. */
  datatype Answer = Answer(reply: Reply, lags: Lags, travel: Span, read: Span, reread: Span, over: Span)

  /** What is left of the two retry budgets. */
  datatype Budget = Budget(transient: nat, limited: nat)

  const FULL := Budget(2, 3)

  predicate Transient(idempotent: bool, reply: Reply) {
    match reply
    case HttpError(code, _) => code in TRANSIENT_HTTP || (idempotent && code in IDEMPOTENT_RETRY_HTTP)
    case Transport(exn, _) => IsTransient(exn) && (idempotent || DefinitelyNotSent(exn))
    case _ => false
  }

  /** The attempt is followed by another one. */
  predicate Again(idempotent: bool, reply: Reply, left: Budget) {
    if reply.TooMany? then left.limited > 0 && reply.wait <= RATE_LIMIT_MAX_WAIT
    else Transient(idempotent, reply) && left.transient > 0
  }

  function Spend(reply: Reply, left: Budget): Budget
    requires if reply.TooMany? then left.limited > 0 else left.transient > 0
  {
    if reply.TooMany? then Budget(left.transient, left.limited - 1) else Budget(left.transient - 1, left.limited)
  }

  function Pause(reply: Reply, left: Budget): real {
    if reply.TooMany? then reply.wait else if left.transient >= 2 then 0.25 else 0.75
  }

  /** The limiter's world after one attempt and, if another follows, the pause before it. */
  function Met(w: World, route: Route, a: Answer, again: bool, left: Budget): World {
    var leaves := w.Acquired(route, a.lags);
    var back := World(leaves.book, leaves.time + a.travel);
    match a.reply
    case Body(headers) => back.Observed(route, headers, a.read)
    case TooMany(wait, isGlobal, headers) =>
      var told := back.Observed(route, headers, a.read);
      if again then told.Limited(route, wait, isGlobal, a.reread, a.over) else told
    case HttpError(_, headers) =>
      var told := back.Observed(route, headers, a.read);
      if again then World(told.book, told.time + Pause(a.reply, left) + a.over) else told
    case Transport(_, stage) =>
      var told := if stage.Reading? then back.Observed(route, stage.headers, a.read) else back;
      if again then World(told.book, told.time + Pause(a.reply, left) + a.over) else told
  }

  /** How a request went: attempts made, pauses between them, whether a body came back. */
  datatype Story = Story(attempts: nat, pauses: seq<real>, ok: bool, world: World)

  function Tell(w: World, route: Route, idempotent: bool, answers: nat -> Answer, k: nat, left: Budget): (s: Story)
    ensures 1 <= s.attempts == |s.pauses| + 1
    decreases left.transient + left.limited
  {
    var a := answers(k);
    var again := Again(idempotent, a.reply, left);
    var met := Met(w, route, a, again, left);
    if !again then Story(1, [], a.reply.Body?, met)
    else
      var rest := Tell(met, route, idempotent, answers, k + 1, Spend(a.reply, left));
      Story(rest.attempts + 1, [Pause(a.reply, left)] + rest.pauses, rest.ok, rest.world)
  }

  /** One turn of the request loop: send, read the answer, and pause if it may be tried again. */
  method Attempt(limiter: RestRateLimiter, route: Route, idempotent: bool, a: Answer, left: Budget, backoff: nat)
    returns (again: bool, ok: bool, pause: real)
    requires backoff == if left.transient >= 2 then 0 else 1
    modifies limiter
    ensures again == Again(idempotent, a.reply, left) && ok == a.reply.Body?
    ensures again ==> pause == Pause(a.reply, left)
    ensures limiter.Value() == Met(old(limiter.Value()), route, a, again, left)
  {
    hide World.Acquired, World.Observed, World.Limited;
    limiter.Acquire(route, a.lags);
    limiter.time := limiter.time + a.travel;
    again, ok, pause := false, false, 0.0;
    match a.reply {
      case Body(headers) =>
        limiter.Observe(route, headers, a.read);
        ok := true;
      case TooMany(wait, isGlobal, headers) =>
        limiter.Observe(route, headers, a.read);
        if left.limited > 0 && wait <= RATE_LIMIT_MAX_WAIT {
          again, pause := true, wait;
          limiter.NoteRateLimited(route, wait, isGlobal, a.reread, a.over);
        }
      case HttpError(code, headers) =>
        limiter.Observe(route, headers, a.read);
        var retryable := code in TRANSIENT_HTTP || (idempotent && code in IDEMPOTENT_RETRY_HTTP);
        if retryable && left.transient > 0 {
          again, pause := true, TRANSIENT_RETRY_SLEEPS[backoff];
          limiter.time := limiter.time + pause + a.over;
        }
      case Transport(exn, stage) =>
        if stage.Reading? {
          limiter.Observe(route, stage.headers, a.read);
        }
        if IsTransient(exn) && (idempotent || DefinitelyNotSent(exn)) && left.transient > 0 {
          again, pause := true, TRANSIENT_RETRY_SLEEPS[backoff];
          limiter.time := limiter.time + pause + a.over;
        }
    }
  }

  /** The whole story, from a part already lived and the rest. */
  function Joined(attempts: nat, pauses: seq<real>, rest: Story): Story {
    Story(attempts + rest.attempts, pauses + rest.pauses, rest.ok, rest.world)
  }

  lemma JoinedEnd(w: World, route: Route, idempotent: bool, answers: nat -> Answer, k: nat, left: Budget,
                  attempts: nat, pauses: seq<real>)
    requires !Again(idempotent, answers(k).reply, left)
    ensures Joined(attempts, pauses, Tell(w, route, idempotent, answers, k, left)) ==
            Story(attempts + 1, pauses, answers(k).reply.Body?, Met(w, route, answers(k), false, left))
  {
    hide Met;
    assert pauses + [] == pauses;
  }

  lemma JoinedStep(w: World, route: Route, idempotent: bool, answers: nat -> Answer, k: nat, left: Budget,
                   attempts: nat, pauses: seq<real>)
    requires Again(idempotent, answers(k).reply, left)
    ensures var r := answers(k).reply;
      && (if r.TooMany? then left.limited > 0 else left.transient > 0)
      && Joined(attempts, pauses, Tell(w, route, idempotent, answers, k, left)) ==
         Joined(attempts + 1, pauses + [Pause(r, left)],
                Tell(Met(w, route, answers(k), true, left), route, idempotent, answers, k + 1, Spend(r, left)))
  {
    hide Met, Pause;
    var r := answers(k).reply;
    var rest := Tell(Met(w, route, answers(k), true, left), route, idempotent, answers, k + 1, Spend(r, left));
    assert pauses + ([Pause(r, left)] + rest.pauses) == pauses + [Pause(r, left)] + rest.pauses;
  }

  /** The request loop. */
  method DiscordRequestBytes(limiter: RestRateLimiter, route: Route, idempotent: bool, answers: nat -> Answer)
    returns (ok: bool, attempts: nat, pauses: seq<real>)
    modifies limiter
    ensures Story(attempts, pauses, ok, limiter.Value()) ==
            Tell(old(limiter.Value()), route, idempotent, answers, 0, FULL)
  {
    hide Met, Pause, Again, Tell, Joined;
    var transientLeft: nat, limitLeft: nat, backoff: nat := |TRANSIENT_RETRY_SLEEPS|, RATE_LIMIT_MAX_RETRIES, 0;
    attempts, pauses := 0, [];
    JoinedNothing(Tell(limiter.Value(), route, idempotent, answers, 0, FULL));
    while true
      invariant transientLeft <= 2 && backoff == if transientLeft >= 2 then 0 else 1
      invariant Tell(old(limiter.Value()), route, idempotent, answers, 0, FULL) ==
                Joined(attempts, pauses, Tell(limiter.Value(), route, idempotent, answers, attempts,
                                              Budget(transientLeft, limitLeft)))
      decreases transientLeft + limitLeft
    {
      var a := answers(attempts);
      var left := Budget(transientLeft, limitLeft);
      ghost var w := limiter.Value();
      var again, pause;
      again, ok, pause := Attempt(limiter, route, idempotent, a, left, backoff);
      if !again {
        JoinedEnd(w, route, idempotent, answers, attempts, left, attempts, pauses);
        attempts := attempts + 1;
        return;
      }
      JoinedStep(w, route, idempotent, answers, attempts, left, attempts, pauses);
      attempts := attempts + 1;
      pauses := pauses + [pause];
      if a.reply.TooMany? {
        limitLeft := limitLeft - 1;
      } else {
        transientLeft := transientLeft - 1;
        backoff := Min(backoff + 1, |TRANSIENT_RETRY_SLEEPS| - 1);
      }
    }
  }

  lemma JoinedNothing(s: Story)
    ensures Joined(0, [], s) == s
  {
    assert [] + s.pauses == s.pauses;
  }

  // ---- What the loop promises, whatever it meets

  /** The exception that the wrappings of the URL library lead to. */
  function Cause(e: Exn): Exn {
    if e.Url? && e.reason.Some? then Cause(e.reason.value) else e
  }

  /** A failed lookup, or one of four refusals by the operating system, however deeply wrapped, and nothing else. */
  predicate NeverConnected(e: Exn) {
    || Cause(e).Lookup?
    || (Cause(e).System?
        && Cause(e).errno in {Some(ECONNREFUSED), Some(EHOSTUNREACH), Some(ENETUNREACH), Some(EADDRNOTAVAIL)})
  }

  lemma {:induction false} NotSentIffNeverConnected(e: Exn)
    ensures DefinitelyNotSent(e) <==> NeverConnected(e)
  {
    if e.Url? && e.reason.Some? {
      NotSentIffNeverConnected(e.reason.value);
    }
  }

  /** The server may have applied the attempt: it is not refused, not turned away at the edge, and did go out. */
  predicate MayApply(reply: Reply) {
    match reply
    case Body(_) => true
    case TooMany(_, _, _) => false
    case HttpError(code, _) => code !in TRANSIENT_HTTP
    case Transport(_, stage) => !stage.Connecting?
  }

  /** An error of never having connected, taken for proof that nothing was sent, though the request had gone out. */
  predicate Misjudged(reply: Reply) {
    reply.Transport? && !reply.stage.Connecting? && NeverConnected(reply.exn)
  }

  /** An answer after which sending a POST again cannot double it, as far as the answer tells. */
  predicate SafeToResend(reply: Reply) {
    || reply.TooMany?
    || (reply.HttpError? && reply.code in {502, 503, 504})
    || (reply.Transport? && NeverConnected(reply.exn))
  }

  /** A POST is tried again only after a 429, a 502, 503 or 504, or an error of never having connected. */
  lemma {:induction false} PostIsResentOnlyIfSafe(w: World, route: Route, answers: nat -> Answer, k: nat, left: Budget,
                                                  i: nat)
    requires i + 1 < Tell(w, route, false, answers, k, left).attempts
    ensures SafeToResend(answers(k + i).reply)
    decreases i
  {
    hide Met, IsTransient, DefinitelyNotSent, NeverConnected;
    var a := answers(k);
    if i > 0 {
      PostIsResentOnlyIfSafe(Met(w, route, a, true, left), route, answers, k + 1, Spend(a.reply, left), i - 1);
    } else if a.reply.Transport? {
      NotSentIffNeverConnected(a.reply.exn);
    }
  }

  /** So a POST that times out, bare or wrapped by the URL library, is not sent again. */
  lemma TimedOutPostIsTheLast(w: World, route: Route, answers: nat -> Answer, i: nat)
    requires answers(i).reply.Transport? && Cause(answers(i).reply.exn).TimedOut?
    ensures Tell(w, route, false, answers, 0, FULL).attempts <= i + 1
  {
    hide Tell;
    if i + 1 < Tell(w, route, false, answers, 0, FULL).attempts {
      PostIsResentOnlyIfSafe(w, route, answers, 0, FULL, i);
    }
  }

  /** The faults that pass: what a call is tried again after. */
  predicate Passing(idempotent: bool, reply: Reply) {
    match reply
    case Body(_) => false
    case TooMany(wait, _, _) => wait <= 60.0
    case HttpError(code, _) => code in {502, 503, 504} || (idempotent && code == 500)
    case Transport(exn, _) =>
      && (idempotent || NeverConnected(exn))
      && (match exn
          case TimedOut => true
          case Url(_) => true
          case Lookup(says) => says
          case System(errno, says) =>
            says || errno in {Some(EADDRNOTAVAIL), Some(ETIMEDOUT), Some(ECONNRESET), Some(ECONNREFUSED),
                              Some(EHOSTUNREACH), Some(ENETUNREACH), Some(EPIPE), Some(ECONNABORTED), Some(ETIME)})
  }

  lemma PassingIsRetried(idempotent: bool, reply: Reply, left: Budget)
    ensures Again(idempotent, reply, left) <==>
            Passing(idempotent, reply) && if reply.TooMany? then left.limited > 0 else left.transient > 0
  {
    if reply.Transport? {
      hide DefinitelyNotSent, NeverConnected;
      NotSentIffNeverConnected(reply.exn);
    }
  }

  /** A call comes through any passing faults that the budgets allow for, in any order, and gives the body then. */
  lemma {:induction false} ComesThrough(w: World, route: Route, idempotent: bool, answers: nat -> Answer, k: nat,
                                        left: Budget, n: nat)
    requires answers(k + n).reply.Body? && forall i | k <= i < k + n :: Passing(idempotent, answers(i).reply)
    requires CountTooMany(answers, k, n) <= left.limited && n - CountTooMany(answers, k, n) <= left.transient
    ensures var s := Tell(w, route, idempotent, answers, k, left);
      s.ok && s.attempts == n + 1
    decreases n
  {
    hide Met, Passing, Again;
    PassingIsRetried(idempotent, answers(k).reply, left);
    if n == 0 {
      BodyDoesNotPass(idempotent, answers(k).reply);
    } else {
      var a := answers(k);
      ComesThrough(Met(w, route, a, true, left), route, idempotent, answers, k + 1, Spend(a.reply, left), n - 1);
    }
  }

  lemma BodyDoesNotPass(idempotent: bool, reply: Reply)
    requires reply.Body?
    ensures !Passing(idempotent, reply)
  {
  }

  /** The pauses: after a 429 what it asks for; after the first other fault a quarter second, then three quarters. */
  lemma {:induction false} PausesAreDue(w: World, route: Route, idempotent: bool, answers: nat -> Answer, k: nat,
                                        left: Budget, i: nat)
    requires left.transient <= 2 && i + 1 < Tell(w, route, idempotent, answers, k, left).attempts
    ensures CountTooMany(answers, k, i) <= i
    ensures Tell(w, route, idempotent, answers, k, left).pauses[i] ==
            if answers(k + i).reply.TooMany? then answers(k + i).reply.wait
            else if left.transient - (i - CountTooMany(answers, k, i)) == 2 then 0.25 else 0.75
    decreases i
  {
    hide Met;
    var a := answers(k);
    if i > 0 {
      PausesAreDue(Met(w, route, a, true, left), route, idempotent, answers, k + 1, Spend(a.reply, left), i - 1);
      CountFirst(answers, k, i);
    }
  }

  lemma CountFirst(answers: nat -> Answer, k: nat, n: nat)
    requires n > 0
    ensures CountTooMany(answers, k, n) ==
            (if answers(k).reply.TooMany? then 1 else 0) + CountTooMany(answers, k + 1, n - 1)
  {
  }

  function HeadersOf(reply: Reply): Option<Headers> {
    match reply
    case Body(headers) => Some(headers)
    case TooMany(_, _, headers) => Some(headers)
    case HttpError(_, headers) => Some(headers)
    case Transport(_, stage) => if stage.Reading? then Some(stage.headers) else None
  }

  /** Whatever came back, its headers are learned; and the clock moves on by the pause at least. */
  lemma AttemptLearnsHeaders(w: World, route: Route, a: Answer, again: bool, left: Budget)
    ensures Met(w, route, a, again, left).time >= w.time + if again && !a.reply.Body? then Pause(a.reply, left) else 0.0
    ensures HeadersOf(a.reply).Some? && HeadersOf(a.reply).value.bucket.Some? ==>
      var (book, headers) := (Met(w, route, a, again, left).book, HeadersOf(a.reply).value);
      var bucket := headers.bucket.value;
      && route in book.bucketOf && book.bucketOf[route] == bucket
      && (headers.remaining.Some? && !(a.reply.TooMany? && again) ==>
            bucket in book.remaining && book.remaining[bucket] == headers.remaining.value)
    ensures HeadersOf(a.reply).None? ==>
            Met(w, route, a, again, left).book == w.Acquired(route, a.lags).book
  {
    var leaves := w.Acquired(route, a.lags);
    assert leaves.time >= w.time;
    hide World.Acquired;
  }

  function Sum(xs: seq<real>): real {
    if xs == [] then 0.0 else xs[0] + Sum(xs[1..])
  }

  /** At most six attempts, and at most 181 seconds of pauses between them. */
  lemma AttemptsAndPausesBounded(w: World, route: Route, idempotent: bool, answers: nat -> Answer)
    ensures var s := Tell(w, route, idempotent, answers, 0, FULL);
      1 <= s.attempts <= 6 && Sum(s.pauses) <= 181.0
  {
    Bounded(w, route, idempotent, answers, 0, FULL);
  }

  lemma {:induction false} Bounded(w: World, route: Route, idempotent: bool, answers: nat -> Answer, k: nat,
                                   left: Budget)
    requires left.transient <= 2
    ensures var s := Tell(w, route, idempotent, answers, k, left);
      && 1 <= s.attempts <= 1 + left.transient + left.limited
      && 0.0 <= Sum(s.pauses) <= 60.0 * left.limited as real
                                 + if left.transient == 2 then 1.0 else if left.transient == 1 then 0.75 else 0.0
    decreases left.transient + left.limited
  {
    hide Met;
    var a := answers(k);
    if Again(idempotent, a.reply, left) {
      var met := Met(w, route, a, true, left);
      Bounded(met, route, idempotent, answers, k + 1, Spend(a.reply, left));
      var rest := Tell(met, route, idempotent, answers, k + 1, Spend(a.reply, left));
      assert ([Pause(a.reply, left)] + rest.pauses)[1..] == rest.pauses;
    }
  }

  /** For a call that is not idempotent, an attempt tried again may have been applied only if it was misjudged. */
  lemma {:induction false} OnlyTheLastMayApply(w: World, route: Route, answers: nat -> Answer, k: nat, left: Budget,
                                               i: nat)
    requires i + 1 < Tell(w, route, false, answers, k, left).attempts
    ensures MayApply(answers(k + i).reply) <==> Misjudged(answers(k + i).reply)
    decreases i
  {
    hide Met, IsTransient, DefinitelyNotSent, NeverConnected;
    var a := answers(k);
    if i > 0 {
      OnlyTheLastMayApply(Met(w, route, a, true, left), route, answers, k + 1, Spend(a.reply, left), i - 1);
    } else if a.reply.Transport? {
      NotSentIffNeverConnected(a.reply.exn);
    }
  }

  /** Two attempts of a POST may have been applied exactly when a misjudged one is followed by one that may be. */
  lemma AppliedTwiceIff(w: World, route: Route, answers: nat -> Answer)
    ensures var n := Tell(w, route, false, answers, 0, FULL).attempts;
      (exists i, j | 0 <= i < j < n :: MayApply(answers(i).reply) && MayApply(answers(j).reply)) <==>
      (exists i, j | 0 <= i < j < n :: Misjudged(answers(i).reply) && MayApply(answers(j).reply))
  {
    hide Tell, Met, MayApply, Misjudged;
    var n := Tell(w, route, false, answers, 0, FULL).attempts;
    forall i | 0 <= i && i + 1 < n ensures MayApply(answers(i).reply) <==> Misjudged(answers(i).reply) {
      OnlyTheLastMayApply(w, route, answers, 0, FULL, i);
    }
  }

  /** So without a misjudged attempt a POST is applied at most once, and only by the last attempt. */
  lemma PostAppliedAtMostOnce(w: World, route: Route, answers: nat -> Answer, applied: set<nat>)
    requires var n := Tell(w, route, false, answers, 0, FULL).attempts;
      && (forall i | i in applied :: i < n && MayApply(answers(i).reply))
      && (forall i | 0 <= i && i + 1 < n :: !Misjudged(answers(i).reply))
    ensures applied <= {Tell(w, route, false, answers, 0, FULL).attempts - 1}
  {
    hide Tell, Met, MayApply, Misjudged;
    forall i | i in applied ensures i == Tell(w, route, false, answers, 0, FULL).attempts - 1 {
      if i + 1 < Tell(w, route, false, answers, 0, FULL).attempts {
        OnlyTheLastMayApply(w, route, answers, 0, FULL, i);
      }
    }
  }

  /** A host that becomes unreachable while the answer is read, and then a body. */
  function UnreachableThenBody(a: Answer): nat -> Answer
    requires a.reply.Body?
  {
    k => if k == 0 then a.(reply := Transport(System(Some(EHOSTUNREACH), false), Reading(a.reply.headers))) else a
  }

  /** Such a POST is sent again although the first attempt may have been applied. */
  lemma UnreachableWhileReadingAppliesTwice(w: World, route: Route, a: Answer)
    requires a.reply.Body?
    ensures var answers := UnreachableThenBody(a);
      && Tell(w, route, false, answers, 0, FULL).attempts == 2
      && MayApply(answers(0).reply) && MayApply(answers(1).reply)
  {
    hide Met;
    var answers := UnreachableThenBody(a);
    assert Again(false, answers(0).reply, FULL);
    assert !Again(false, answers(1).reply, Spend(answers(0).reply, FULL));
  }

  function CountTooMany(answers: nat -> Answer, k: nat, n: nat): (c: nat)
    ensures c <= n
    decreases n
  {
    if n == 0 then 0 else (if answers(k).reply.TooMany? then 1 else 0) + CountTooMany(answers, k + 1, n - 1)
  }

  /** The loop stops at the first answer it may not retry with what is left, and gives back a body exactly then. */
  lemma {:induction false} StopsOnlyWhenItMust(w: World, route: Route, idempotent: bool, answers: nat -> Answer, k: nat,
                                               left: Budget)
    ensures var s := Tell(w, route, idempotent, answers, k, left);
      var last := answers(k + s.attempts - 1).reply;
      var limited := CountTooMany(answers, k, s.attempts - 1);
      && (s.ok <==> last.Body?)
      && (last.TooMany? ==> last.wait > RATE_LIMIT_MAX_WAIT || limited == left.limited)
      && (Transient(idempotent, last) ==> s.attempts - 1 - limited == left.transient)
    decreases left.transient + left.limited
  {
    hide Met, Pause;
    var a := answers(k);
    if Again(idempotent, a.reply, left) {
      StopsOnlyWhenItMust(Met(w, route, a, true, left), route, idempotent, answers, k + 1, Spend(a.reply, left));
    }
  }

  /** An origin that fails after running the request is asked three times if the method is idempotent, once if not. */
  lemma FailedOriginIsRetriedOnlyIfIdempotent(w: World, route: Route, idempotent: bool, a: Answer)
    requires a.reply.HttpError? && a.reply.code == 500
    ensures Tell(w, route, idempotent, _ => a, 0, FULL).attempts == if idempotent then 3 else 1
  {
    hide Met;
    var answers: nat -> Answer := _ => a;
    StopsOnlyWhenItMust(w, route, idempotent, answers, 0, FULL);
    NoneTooMany(answers, 0, Tell(w, route, idempotent, answers, 0, FULL).attempts - 1);
  }

  lemma {:induction false} NoneTooMany(answers: nat -> Answer, k: nat, n: nat)
    requires forall i: nat :: !answers(i).reply.TooMany?
    ensures CountTooMany(answers, k, n) == 0
    decreases n
  {
    if n > 0 {
      NoneTooMany(answers, k + 1, n - 1);
    }
  }
}
