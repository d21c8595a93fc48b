/**
 The REST rate limiter against a clock, and against a fixed-window server. The clock moves by
 whatever the environment likes at each reading, and by at least what is asked at each sleep.
 */
module RateLimit {
  import opened Basics

  type Route = string
  type Bucket = string
  type Span = x: real | x >= 0.0 witness 0.0

  /** Response headers; a missing or unreadable one is `None`. */
  datatype Headers = Headers(bucket: Option<Bucket>, remaining: Option<int>, resetAfter: Option<real>)

  datatype Book = Book(
    bucketOf: map<Route, Bucket>,
    resetAt: map<Bucket, real>,
    remaining: map<Bucket, int>,
    globalUntil: real)

  const EMPTY := Book(map[], map[], map[], 0.0)

  /** How late the clock is at each of the two readings, and how long each sleep overshoots. */
  datatype Lags = Lags(read0: Span, over0: Span, read1: Span, over1: Span)

  function Left(book: Book, bucket: Bucket): int {
    if bucket in book.remaining then book.remaining[bucket] else 1
  }

  function ResetTime(book: Book, bucket: Bucket): real {
    if bucket in book.resetAt then book.resetAt[bucket] else 0.0
  }

  /** The time after waiting for `until` from a clock reading, sleeping only when it lies ahead. */
  function WaitFor(now: real, until: real, over: Span): (t: real)
    ensures t >= now && t >= until
  {
    if until - now > 0.0 then until + over else now
  }

  /** What the limiter knows, and the clock. */
  datatype World = World(book: Book, time: real) {
    /** Just before a request leaves. */
    function Acquired(route: Route, lags: Lags): World {
      var t := WaitFor(time + lags.read0, book.globalUntil, lags.over0);
      if route !in book.bucketOf || Left(book, book.bucketOf[route]) > 0 then World(book, t)
      else
        var bucket := book.bucketOf[route];
        World(book.(remaining := book.remaining[bucket := 1]),
              WaitFor(t + lags.read1, ResetTime(book, bucket), lags.over1))
    }

    function Observed(route: Route, headers: Headers, read: Span): World {
      match headers.bucket
      case None => this
      case Some(bucket) =>
        var seen := book.(bucketOf := book.bucketOf[route := bucket],
                          remaining := if headers.remaining.Some? then book.remaining[bucket := headers.remaining.value]
                                       else book.remaining);
        match headers.resetAfter
        case None => World(seen, time)
        case Some(after) => World(seen.(resetAt := book.resetAt[bucket := time + read + after]), time + read)
    }

    function Limited(route: Route, wait: Span, isGlobal: bool, read: Span, over: Span): World {
      var until := time + read + wait;
      var later := if wait > 0.0 then until + over else time + read;
      if isGlobal then
        World(book.(globalUntil := if book.globalUntil >= until then book.globalUntil else until), later)
      else
        var bucketOf := if route in book.bucketOf then book.bucketOf else book.bucketOf[route := route];
        World(Book(bucketOf, book.resetAt[bucketOf[route] := until], book.remaining[bucketOf[route] := 0],
                   book.globalUntil), later)
    }
  }

  // ---- The limiter object

  class RestRateLimiter {
    var bucketOfRoute: map<Route, Bucket>
    var bucketResetAt: map<Bucket, real>
    var bucketRemaining: map<Bucket, int>
    var globalUntil: real
    /** The injected clock. */
    var time: real
    var waits: seq<real>

    function Value(): World
      reads this
    {
      World(Book(bucketOfRoute, bucketResetAt, bucketRemaining, globalUntil), time)
    }

    constructor (start: real)
      ensures Value() == World(EMPTY, start) && waits == []
    {
      bucketOfRoute, bucketResetAt, bucketRemaining := map[], map[], map[];
      globalUntil, time, waits := 0.0, start, [];
    }

    method Now(lag: Span) returns (t: real)
      modifies this`time
      ensures t == time == old(time) + lag
    {
      time := time + lag;
      t := time;
    }

    method Sleep(seconds: real, over: Span)
      modifies this`time, this`waits
      ensures time == if seconds <= 0.0 then old(time) else old(time) + seconds + over
      ensures waits == if seconds <= 0.0 then old(waits) else old(waits) + [seconds]
    {
      if seconds <= 0.0 {
        return;
      }
      waits := waits + [seconds];
      time := time + seconds + over;
    }

    method Acquire(route: Route, lags: Lags)
      modifies this
      ensures Value() == old(Value()).Acquired(route, lags)
    {
      var now := Now(lags.read0);
      var ahead := globalUntil - now;
      if ahead > 0.0 {
        Sleep(ahead, lags.over0);
      }
      if route !in bucketOfRoute {
        return;
      }
      var bucket := bucketOfRoute[route];
      if (if bucket in bucketRemaining then bucketRemaining[bucket] else 1) > 0 {
        return;
      }
      now := Now(lags.read1);
      var wait := (if bucket in bucketResetAt then bucketResetAt[bucket] else 0.0) - now;
      if wait > 0.0 {
        Sleep(wait, lags.over1);
      }
      bucketRemaining := bucketRemaining[bucket := 1];
    }

    method Observe(route: Route, headers: Headers, read: Span)
      modifies this
      ensures Value() == old(Value()).Observed(route, headers, read)
      ensures waits == old(waits)
    {
      if headers.bucket.None? {
        return;
      }
      var bucket := headers.bucket.value;
      bucketOfRoute := bucketOfRoute[route := bucket];
      if headers.remaining.Some? {
        bucketRemaining := bucketRemaining[bucket := headers.remaining.value];
      }
      if headers.resetAfter.Some? {
        var now := Now(read);
        bucketResetAt := bucketResetAt[bucket := now + headers.resetAfter.value];
      }
    }

    method NoteRateLimited(route: Route, wait: Span, isGlobal: bool, read: Span, over: Span)
      modifies this
      ensures Value() == old(Value()).Limited(route, wait, isGlobal, read, over)
      ensures waits == if wait > 0.0 then old(waits) + [wait] else old(waits)
    {
      var now := Now(read);
      if isGlobal {
        globalUntil := if globalUntil >= now + wait then globalUntil else now + wait;
      } else {
        if route !in bucketOfRoute {
          bucketOfRoute := bucketOfRoute[route := route];
        }
        var bucket := bucketOfRoute[route];
        bucketRemaining := bucketRemaining[bucket := 0];
        bucketResetAt := bucketResetAt[bucket := now + wait];
      }
      Sleep(wait, over);
    }
  }

  // ---- Every run of calls, and what it leaves behind

  datatype Call =
    | Send(route: Route, lags: Lags)
    | Answer(route: Route, headers: Headers, read: Span)
    | Refuse(route: Route, wait: Span, isGlobal: bool, read: Span, over: Span)

  /**
   Each call with the clock reading it acted on. A request asks at one time and leaves at another; `slack` is how late
   the clock was at its second reading and how long its sleeps overshot.
   */
  datatype Entry =
    | Sent(route: Route, asked: real, slack: Span, at: real)
    | Seen(route: Route, headers: Headers, at: real)
    | Cooled(route: Route, wait: Span, isGlobal: bool, at: real)

  function Next(w: World, c: Call): World {
    match c
    case Send(route, lags) => w.Acquired(route, lags)
    case Answer(route, headers, read) => w.Observed(route, headers, read)
    case Refuse(route, wait, isGlobal, read, over) => w.Limited(route, wait, isGlobal, read, over)
  }

  function Record(w: World, c: Call): Entry {
    match c
    case Send(route, lags) =>
      Sent(route, w.time + lags.read0, lags.over0 + lags.read1 + lags.over1, w.Acquired(route, lags).time)
    case Answer(route, headers, read) => Seen(route, headers, w.time + read)
    case Refuse(route, wait, isGlobal, read, _) => Cooled(route, wait, isGlobal, w.time + read)
  }

  function After(start: real, calls: seq<Call>): World {
    if calls == [] then World(EMPTY, start)
    else Next(After(start, calls[..|calls| - 1]), calls[|calls| - 1])
  }

  function Log(start: real, calls: seq<Call>): seq<Entry> {
    if calls == [] then []
    else Log(start, calls[..|calls| - 1]) + [Record(After(start, calls[..|calls| - 1]), calls[|calls| - 1])]
  }

  /** The bucket last named for a route, or the route itself once it was refused unnamed. */
  function KnownBucket(log: seq<Entry>, route: Route): Option<Bucket> {
    if log == [] then None
    else
      var (before, last) := (log[..|log| - 1], log[|log| - 1]);
      if last.Seen? && last.route == route && last.headers.bucket.Some? then last.headers.bucket
      else if last.Cooled? && !last.isGlobal && last.route == route && KnownBucket(before, route).None? then Some(route)
      else KnownBucket(before, route)
  }

  /** The entry cooled this bucket down: a refusal that was not global, for a route of the bucket. */
  predicate Cools(before: seq<Entry>, e: Entry, bucket: Bucket) {
    e.Cooled? && !e.isGlobal && (match KnownBucket(before, e.route) case Some(b) => b case None => e.route) == bucket
  }

  predicate Names(e: Entry, bucket: Bucket) {
    e.Seen? && e.headers.bucket == Some(bucket)
  }

  /** How many requests the bucket was last known to allow; a request through an exhausted one counts as its probe. */
  function KnownLeft(log: seq<Entry>, bucket: Bucket): int {
    if log == [] then 1
    else
      var (before, last) := (log[..|log| - 1], log[|log| - 1]);
      if Names(last, bucket) && last.headers.remaining.Some? then last.headers.remaining.value
      else if Cools(before, last, bucket) then 0
      else if last.Sent? && KnownBucket(before, last.route) == Some(bucket) && KnownLeft(before, bucket) <= 0 then 1
      else KnownLeft(before, bucket)
  }

  function KnownReset(log: seq<Entry>, bucket: Bucket): real {
    if log == [] then 0.0
    else
      var (before, last) := (log[..|log| - 1], log[|log| - 1]);
      if Names(last, bucket) && last.headers.resetAfter.Some? then last.at + last.headers.resetAfter.value
      else if Cools(before, last, bucket) then last.at + last.wait
      else KnownReset(before, bucket)
  }

  /** No request leaves before every earlier global cooldown has ended. */
  ghost predicate AfterCooldowns(before: seq<Entry>, e: Entry) {
    e.Sent? ==>
      forall i | 0 <= i < |before| && before[i].Cooled? && before[i].isGlobal :: e.at >= before[i].at + before[i].wait
  }

  /** No request leaves before the reset of a bucket last known to be exhausted. */
  predicate AfterReset(before: seq<Entry>, e: Entry) {
    e.Sent? && KnownBucket(before, e.route).Some? && KnownLeft(before, KnownBucket(before, e.route).value) <= 0 ==>
      e.at >= KnownReset(before, KnownBucket(before, e.route).value)
  }

  /** Waiting until `t` would be enough: every global cooldown is over then, and the bucket, if exhausted, is reset. */
  ghost predicate Enough(before: seq<Entry>, route: Route, t: real) {
    && t >= 0.0
    && (forall i | 0 <= i < |before| && before[i].Cooled? && before[i].isGlobal :: before[i].at + before[i].wait <= t)
    && (match KnownBucket(before, route)
        case None => true
        case Some(b) => KnownLeft(before, b) > 0 || KnownReset(before, b) <= t)
  }

  predicate Free(before: seq<Entry>, route: Route) {
    match KnownBucket(before, route)
    case None => true
    case Some(b) => KnownLeft(before, b) > 0
  }

  /** A request leaves at once when nothing holds it, and otherwise as soon as waiting was enough, but for the slack. */
  ghost predicate NoLaterThanNeeded(before: seq<Entry>, e: Entry) {
    e.Sent? ==>
      && e.asked <= e.at
      && (forall t: real :: t >= e.asked && Enough(before, e.route, t) ==> e.at <= t + e.slack)
      && (Free(before, e.route) && Enough(before, e.route, e.asked) ==> e.at == e.asked)
  }

  /** Nothing happens during the wait that a refusal asked for. */
  ghost predicate AfterPauses(before: seq<Entry>, e: Entry) {
    forall i | 0 <= i < |before| && before[i].Cooled? :: e.at >= before[i].at + before[i].wait
  }

  ghost predicate PausesAgree(w: World, log: seq<Entry>) {
    forall i | 0 <= i < |log| && log[i].Cooled? :: w.time >= log[i].at + log[i].wait
  }

  ghost predicate GlobalAttained(book: Book, log: seq<Entry>) {
    book.globalUntil == 0.0 ||
    exists i | 0 <= i < |log| :: log[i].Cooled? && log[i].isGlobal && book.globalUntil == log[i].at + log[i].wait
  }

  ghost predicate RoutesAgree(book: Book, log: seq<Entry>) {
    forall route: Route ::
      KnownBucket(log, route) == if route in book.bucketOf then Some(book.bucketOf[route]) else None
  }

  ghost predicate BucketsAgree(book: Book, log: seq<Entry>) {
    forall b: Bucket :: KnownLeft(log, b) == Left(book, b) && KnownReset(log, b) == ResetTime(book, b)
  }

  ghost predicate CooldownsAgree(book: Book, log: seq<Entry>) {
    forall i | 0 <= i < |log| && log[i].Cooled? && log[i].isGlobal :: book.globalUntil >= log[i].at + log[i].wait
  }

  lemma RoutesStep(w: World, log: seq<Entry>, c: Call)
    requires RoutesAgree(w.book, log)
    ensures RoutesAgree(Next(w, c).book, log + [Record(w, c)])
  {
    var longer := log + [Record(w, c)];
    assert longer[..|log|] == log;
    forall route: Route
      ensures KnownBucket(longer, route) ==
              if route in Next(w, c).book.bucketOf then Some(Next(w, c).book.bucketOf[route]) else None
    {
      assert KnownBucket(log, route) == if route in w.book.bucketOf then Some(w.book.bucketOf[route]) else None;
    }
  }

  lemma BucketsStep(w: World, log: seq<Entry>, c: Call)
    requires RoutesAgree(w.book, log) && BucketsAgree(w.book, log)
    ensures BucketsAgree(Next(w, c).book, log + [Record(w, c)])
  {
    var longer := log + [Record(w, c)];
    assert longer[..|log|] == log;
    assert KnownBucket(log, c.route) == if c.route in w.book.bucketOf then Some(w.book.bucketOf[c.route]) else None;
    forall b: Bucket
      ensures KnownLeft(longer, b) == Left(Next(w, c).book, b) && KnownReset(longer, b) == ResetTime(Next(w, c).book, b)
    {
      assert KnownLeft(log, b) == Left(w.book, b) && KnownReset(log, b) == ResetTime(w.book, b);
    }
  }

  lemma CooldownsStep(w: World, log: seq<Entry>, c: Call)
    requires CooldownsAgree(w.book, log)
    ensures CooldownsAgree(Next(w, c).book, log + [Record(w, c)])
    ensures AfterCooldowns(log, Record(w, c))
  {
  }

  lemma GlobalStep(w: World, log: seq<Entry>, c: Call)
    requires GlobalAttained(w.book, log) && PausesAgree(w, log)
    ensures GlobalAttained(Next(w, c).book, log + [Record(w, c)]) && PausesAgree(Next(w, c), log + [Record(w, c)])
    ensures AfterPauses(log, Record(w, c))
  {
    var longer := log + [Record(w, c)];
    if Next(w, c).book.globalUntil == w.book.globalUntil != 0.0 {
      var i :| 0 <= i < |log| && log[i].Cooled? && log[i].isGlobal && w.book.globalUntil == log[i].at + log[i].wait;
      assert longer[i] == log[i];
    } else {
      assert longer[|log|] == Record(w, c);
    }
  }

  lemma PromptStep(w: World, log: seq<Entry>, route: Route, lags: Lags)
    requires RoutesAgree(w.book, log) && BucketsAgree(w.book, log) && GlobalAttained(w.book, log)
    ensures NoLaterThanNeeded(log, Record(w, Send(route, lags)))
  {
    hide KnownBucket, KnownLeft, KnownReset;
    var e := Record(w, Send(route, lags));
    assert KnownBucket(log, route) == if route in w.book.bucketOf then Some(w.book.bucketOf[route]) else None;
    if route in w.book.bucketOf {
      var b := w.book.bucketOf[route];
      assert KnownLeft(log, b) == Left(w.book, b) && KnownReset(log, b) == ResetTime(w.book, b);
    }
    forall t: real | t >= e.asked && Enough(log, route, t) ensures w.book.globalUntil <= t && e.at <= t + e.slack {
      if w.book.globalUntil != 0.0 {
        var i :| 0 <= i < |log| && log[i].Cooled? && log[i].isGlobal && w.book.globalUntil == log[i].at + log[i].wait;
      }
    }
  }

  lemma {:induction false} RunIsPrompt(start: real, calls: seq<Call>)
    ensures var (w, log) := (After(start, calls), Log(start, calls));
      && GlobalAttained(w.book, log) && PausesAgree(w, log)
      && Always(log, NoLaterThanNeeded) && Always(log, AfterPauses)
  {
    if calls != [] {
      var (before, c) := (calls[..|calls| - 1], calls[|calls| - 1]);
      RunIsPrompt(start, before);
      RunAgrees(start, before);
      var (w, log) := (After(start, before), Log(start, before));
      hide Record, Next, NoLaterThanNeeded, AfterPauses, GlobalAttained, PausesAgree, RoutesAgree, BucketsAgree;
      GlobalStep(w, log, c);
      PromptOrOther(w, log, c);
      AlwaysAppend(log, Record(w, c), NoLaterThanNeeded);
      AlwaysAppend(log, Record(w, c), AfterPauses);
    }
  }

  lemma PromptOrOther(w: World, log: seq<Entry>, c: Call)
    requires RoutesAgree(w.book, log) && BucketsAgree(w.book, log) && GlobalAttained(w.book, log)
    ensures NoLaterThanNeeded(log, Record(w, c))
  {
    match c
    case Send(route, lags) =>
      hide NoLaterThanNeeded, RoutesAgree, BucketsAgree, GlobalAttained;
      PromptStep(w, log, route, lags);
    case Answer(_, _, _) =>
    case Refuse(_, _, _, _, _) =>
  }

  lemma {:induction false} RunAgrees(start: real, calls: seq<Call>)
    ensures var (w, log) := (After(start, calls), Log(start, calls));
      && RoutesAgree(w.book, log) && BucketsAgree(w.book, log) && CooldownsAgree(w.book, log)
      && Always(log, AfterCooldowns) && Always(log, AfterReset)
  {
    if calls != [] {
      var (before, c) := (calls[..|calls| - 1], calls[|calls| - 1]);
      RunAgrees(start, before);
      var (w, log) := (After(start, before), Log(start, before));
      RoutesStep(w, log, c);
      BucketsStep(w, log, c);
      CooldownsStep(w, log, c);
      ResetRespected(w, log, c);
      AlwaysAppend(log, Record(w, c), AfterCooldowns);
      AlwaysAppend(log, Record(w, c), AfterReset);
    }
  }

  lemma ResetRespected(w: World, log: seq<Entry>, c: Call)
    requires RoutesAgree(w.book, log) && BucketsAgree(w.book, log)
    ensures AfterReset(log, Record(w, c))
  {
    assert KnownBucket(log, c.route) == if c.route in w.book.bucketOf then Some(w.book.bucketOf[c.route]) else None;
    if c.route in w.book.bucketOf {
      var b := w.book.bucketOf[c.route];
      assert KnownLeft(log, b) == Left(w.book, b) && KnownReset(log, b) == ResetTime(w.book, b);
    }
  }

  /** Over every run of calls, no request leaves while a global cooldown it was told of is running. */
  lemma GlobalCooldownsHold(start: real, calls: seq<Call>, i: nat, j: nat)
    requires var log := Log(start, calls);
      i < j < |log| && log[i].Cooled? && log[i].isGlobal && log[j].Sent?
    ensures var log := Log(start, calls);
      log[j].at >= log[i].at + log[i].wait
  {
    RunAgrees(start, calls);
    var log := Log(start, calls);
    assert AfterCooldowns(log[..j], log[j]);
    assert log[..j][i] == log[i];
  }

  /** Over every run of calls, no request leaves for a bucket last known to be exhausted before its reset. */
  lemma ExhaustedBucketsRest(start: real, calls: seq<Call>)
    ensures Always(Log(start, calls), AfterReset)
  {
    RunAgrees(start, calls);
  }

  /** Over every run of calls, no request waits longer than it has to, and none at all when nothing holds it. */
  lemma RequestsLeaveWhenDue(start: real, calls: seq<Call>)
    ensures Always(Log(start, calls), NoLaterThanNeeded)
  {
    RunIsPrompt(start, calls);
  }

  /** Over every run of calls, nothing is done before the wait of an earlier refusal is over. */
  lemma RefusalsAreWaitedOut(start: real, calls: seq<Call>)
    ensures Always(Log(start, calls), AfterPauses)
  {
    RunIsPrompt(start, calls);
  }

  // ---- One client, asking one request at a time, of a fixed-window server

  datatype Window = Window(end: real, left: int)

  /** Which bucket a route belongs to, how much a window allows, and how long it lasts. */
  datatype Policy = Policy(bucket: Route -> Bucket, capacity: Bucket -> nat, period: Span)

  datatype Server = Server(windows: map<Bucket, Window>)

  /** The window a request falls into: the open one, or a new one. */
  function Current(p: Policy, s: Server, b: Bucket, t: real): Window {
    if b in s.windows && t < s.windows[b].end then s.windows[b] else Window(t + p.period, p.capacity(b))
  }

  function Handle(p: Policy, s: Server, route: Route, t: real): (r: (Server, bool, Headers, real)) {
    var b := p.bucket(route);
    var win := Current(p, s, b, t);
    var left := if win.left > 0 then win.left - 1 else 0;
    (Server(s.windows[b := Window(win.end, left)]), win.left > 0,
     Headers(Some(b), Some(left), Some(win.end - t)), win.end - t)
  }

  /** One request: how the clock moves around it, and whether a refusal would be given up on rather than waited out. */
  datatype Ask = Ask(route: Route, lags: Lags, going: Span, coming: Span, read: Span, givesUp: bool, reread: Span,
                     over: Span)

  datatype Talk = Talk(client: World, server: Server, accepted: bool)

  function Round(p: Policy, w: World, s: Server, a: Ask): Talk {
    var leaves := w.Acquired(a.route, a.lags);
    var t := leaves.time + a.going;
    var (server, accepted, headers, retryAfter) := Handle(p, s, a.route, t);
    var told := World(leaves.book, t + a.coming).Observed(a.route, headers, a.read);
    if accepted || a.givesUp then Talk(told, server, accepted)
    else
      var wait := if retryAfter >= 0.0 then retryAfter else 0.0;
      Talk(told.Limited(a.route, wait, false, a.reread, a.over), server, accepted)
  }

  function Talks(p: Policy, start: real, asks: seq<Ask>): Talk {
    if asks == [] then Talk(World(EMPTY, start), Server(map[]), true)
    else
      var before := Talks(p, start, asks[..|asks| - 1]);
      Round(p, before.client, before.server, asks[|asks| - 1])
  }

  /** What the client holds of each bucket is what the server has, with a reset no earlier than the window's end. */
  ghost predicate InStep(p: Policy, w: World, s: Server) {
    && (forall r | r in w.book.bucketOf :: w.book.bucketOf[r] == p.bucket(r) && p.bucket(r) in s.windows)
    && (forall b | b in s.windows ::
          && b in w.book.remaining && b in w.book.resetAt && s.windows[b].left >= 0
          && w.book.remaining[b] == s.windows[b].left && w.book.resetAt[b] >= s.windows[b].end)
    && w.book.globalUntil == 0.0
  }

  lemma RoundKeepsStep(p: Policy, w: World, s: Server, a: Ask)
    requires InStep(p, w, s) && (forall b :: p.capacity(b) >= 1)
    ensures var talk := Round(p, w, s, a);
      && InStep(p, talk.client, talk.server)
      && (a.route in w.book.bucketOf ==> talk.accepted)
      && talk.client.book.bucketOf.Keys == w.book.bucketOf.Keys + {a.route}
  {
  }

  lemma {:induction false} TalksInStep(p: Policy, start: real, asks: seq<Ask>)
    requires forall b :: p.capacity(b) >= 1
    ensures var talk := Talks(p, start, asks);
      && InStep(p, talk.client, talk.server)
      && forall i | 0 <= i < |asks| :: asks[i].route in talk.client.book.bucketOf
  {
    hide Round;
    if asks != [] {
      var before := Talks(p, start, asks[..|asks| - 1]);
      TalksInStep(p, start, asks[..|asks| - 1]);
      RoundKeepsStep(p, before.client, before.server, asks[|asks| - 1]);
    }
  }

  /** A route asked before is never refused, whatever else was asked between and however the clock moved. */
  lemma KnownRoutesAreNeverRefused(p: Policy, start: real, asks: seq<Ask>, i: nat, j: nat)
    requires (forall b :: p.capacity(b) >= 1) && i < j < |asks| && asks[i].route == asks[j].route
    ensures Talks(p, start, asks[..j + 1]).accepted
  {
    hide Round, InStep;
    TalksInStep(p, start, asks[..j]);
    assert asks[..j + 1][..j] == asks[..j] && asks[..j][i] == asks[i];
    var before := Talks(p, start, asks[..j]);
    RoundKeepsStep(p, before.client, before.server, asks[j]);
  }
}
