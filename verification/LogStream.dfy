/**
 The host log: threads that print at once, each keeping its own partial line. A run is any interleaving of writes,
 and a thread is the identifier it writes under.
 */
module LogStream {
  import opened Basics
  import opened Text

  datatype Partial = Partial(thread: int, text: string)

  /** One stamped line, and the thread it came from. */
  datatype Record = Record(thread: int, stamp: string, line: string)

  datatype State = State(pending: seq<Partial>, records: seq<Record>)

  const EMPTY := State([], [])

  datatype Write = Wrote(thread: int, text: string, stamp: string)

  // ---- Lines

  predicate OneLine(s: string) {
    forall i | 0 <= i < |s| :: s[i] != '\n'
  }

  /** What follows the last newline. */
  function Tail(s: string): (tail: string)
    ensures OneLine(tail)
  {
    if s == "" || s[|s| - 1] == '\n' then "" else Tail(s[..|s| - 1]) + [s[|s| - 1]]
  }

  /** The lines ended by a newline. */
  function Complete(s: string): seq<string> {
    if s == "" then []
    else if s[|s| - 1] == '\n' then Complete(s[..|s| - 1]) + [Tail(s[..|s| - 1])]
    else Complete(s[..|s| - 1])
  }

  /** The parts between newlines, as `str.split` gives them. */
  function Split(s: string): seq<string> {
    Complete(s) + [Tail(s)]
  }

  /** Lines, each with its newline. */
  function Lines(lines: seq<string>): string {
    if lines == [] then "" else Lines(lines[..|lines| - 1]) + (lines[|lines| - 1] + "\n")
  }

  /** Cutting at newlines loses nothing. */
  lemma {:induction false} CutAtNewlines(s: string)
    ensures s == Lines(Complete(s)) + Tail(s)
  {
    if s != "" {
      var before := s[..|s| - 1];
      CutAtNewlines(before);
      assert s == before + [s[|s| - 1]];
      if s[|s| - 1] == '\n' {
        var lines := Complete(before) + [Tail(before)];
        assert lines[..|lines| - 1] == Complete(before);
        assert Lines(lines) == Lines(Complete(before)) + (Tail(before) + "\n");
      }
    }
  }

  lemma {:induction false} CompleteLines(s: string)
    ensures forall i | 0 <= i < |Complete(s)| :: OneLine(Complete(s)[i])
  {
    if s != "" {
      CompleteLines(s[..|s| - 1]);
    }
  }

  /** Partitioning at the last newline and splitting the head finds the same lines. */
  lemma {:induction false} PartitionAgrees(head: string, tail: string)
    requires OneLine(tail)
    ensures Complete(head + "\n" + tail) == Split(head) && Tail(head + "\n" + tail) == tail
    decreases |tail|
  {
    var s := head + "\n" + tail;
    if tail == "" {
      assert s == head + "\n" && s[..|s| - 1] == head;
    } else {
      assert s[..|s| - 1] == head + "\n" + tail[..|tail| - 1];
      PartitionAgrees(head, tail[..|tail| - 1]);
    }
  }

  lemma {:induction false} NoNewline(s: string)
    requires OneLine(s)
    ensures Complete(s) == [] && Tail(s) == s
  {
    if s != "" {
      NoNewline(s[..|s| - 1]);
      assert s == s[..|s| - 1] + [s[|s| - 1]];
    }
  }

  // ---- One write

  function Held(pending: seq<Partial>, thread: int): string {
    if pending == [] then ""
    else if pending[0].thread == thread then pending[0].text
    else Held(pending[1..], thread)
  }

  function Without(pending: seq<Partial>, thread: int): seq<Partial> {
    if pending == [] then []
    else if pending[0].thread == thread then Without(pending[1..], thread)
    else [pending[0]] + Without(pending[1..], thread)
  }

  /** The partial lines after a thread's is replaced by `tail`. */
  function Kept(pending: seq<Partial>, thread: int, tail: string): seq<Partial> {
    if tail == "" then Without(pending, thread) else Without(pending, thread) + [Partial(thread, tail)]
  }

  function Stamped(thread: int, stamp: string, lines: seq<string>): (records: seq<Record>)
    ensures |records| == |lines|
  {
    seq(|lines|, i requires 0 <= i < |lines| => Record(thread, stamp, lines[i]))
  }

  function Apply(s: State, w: Write): State {
    if w.text == "" then s
    else
      var buffered := Held(s.pending, w.thread) + w.text;
      State(Kept(s.pending, w.thread, Tail(buffered)),
            s.records + Stamped(w.thread, w.stamp, Complete(buffered)))
  }

  function Run(writes: seq<Write>): State {
    if writes == [] then EMPTY else Apply(Run(writes[..|writes| - 1]), writes[|writes| - 1])
  }

  // ---- What each thread wrote, and what came out

  function Written(writes: seq<Write>, thread: int): string {
    if writes == [] then ""
    else
      var last := writes[|writes| - 1];
      Written(writes[..|writes| - 1], thread) + if last.thread == thread then last.text else ""
  }

  /** The lines of one thread, in order. */
  function LinesOf(records: seq<Record>, thread: int): seq<string> {
    if records == [] then []
    else
      var (before, last) := (records[..|records| - 1], records[|records| - 1]);
      if last.thread == thread then LinesOf(before, thread) + [last.line] else LinesOf(before, thread)
  }

  lemma {:induction false} LinesOfConcat(a: seq<Record>, b: seq<Record>, thread: int)
    ensures LinesOf(a + b, thread) == LinesOf(a, thread) + LinesOf(b, thread)
    decreases |b|
  {
    if b == [] {
      assert a + b == a;
    } else {
      assert (a + b)[..|a + b| - 1] == a + b[..|b| - 1];
      LinesOfConcat(a, b[..|b| - 1], thread);
    }
  }

  lemma {:induction false} LinesOfStamped(thread: int, stamp: string, lines: seq<string>, other: int)
    ensures LinesOf(Stamped(thread, stamp, lines), other) == if other == thread then lines else []
    decreases |lines|
  {
    if lines != [] {
      var before := lines[..|lines| - 1];
      LinesOfStamped(thread, stamp, before, other);
      assert Stamped(thread, stamp, lines)[..|lines| - 1] == Stamped(thread, stamp, before);
      assert lines == before + [lines[|lines| - 1]];
    }
  }

  lemma {:induction false} LinesConcat(a: seq<string>, b: seq<string>)
    ensures Lines(a + b) == Lines(a) + Lines(b)
    decreases |b|
  {
    if b == [] {
      assert a + b == a;
    } else {
      var last := b[|b| - 1] + "\n";
      assert (a + b)[..|a + b| - 1] == a + b[..|b| - 1];
      LinesConcat(a, b[..|b| - 1]);
      assert Lines(a) + (Lines(b[..|b| - 1]) + last) == Lines(a) + Lines(b[..|b| - 1]) + last;
    }
  }

  lemma {:induction false} HeldWithout(pending: seq<Partial>, thread: int, other: int)
    ensures Held(Without(pending, thread), other) == if other == thread then "" else Held(pending, other)
  {
    if pending != [] {
      HeldWithout(pending[1..], thread, other);
    }
  }

  lemma {:induction false} HeldAppend(pending: seq<Partial>, p: Partial, other: int)
    requires Held(pending, p.thread) == "" && NoBlanks(pending)
    ensures Held(pending + [p], other) == if other == p.thread then p.text else Held(pending, other)
  {
    if pending == [] {
      assert pending + [p] == [p];
    } else {
      assert (pending + [p])[1..] == pending[1..] + [p];
      HeldAppend(pending[1..], p, other);
    }
  }

  /** A partial line is never empty. */
  ghost predicate NoBlanks(pending: seq<Partial>) {
    forall i | 0 <= i < |pending| :: pending[i].text != ""
  }

  lemma {:induction false} WithoutKeeps(pending: seq<Partial>, thread: int)
    ensures forall i | 0 <= i < |Without(pending, thread)| ::
              Without(pending, thread)[i] in pending && Without(pending, thread)[i].thread != thread
  {
    if pending != [] {
      WithoutKeeps(pending[1..], thread);
    }
  }

  /** One thread's output and pending text add up to what it wrote. */
  predicate Conserved(s: State, thread: int, text: string) {
    Lines(LinesOf(s.records, thread)) + Held(s.pending, thread) == text
  }

  lemma HeldKept(pending: seq<Partial>, thread: int, tail: string, other: int)
    requires NoBlanks(pending)
    ensures Held(Kept(pending, thread, tail), other) == if other == thread then tail else Held(pending, other)
  {
    HeldWithout(pending, thread, other);
    HeldWithout(pending, thread, thread);
    WithoutKeeps(pending, thread);
    if tail != "" {
      HeldAppend(Without(pending, thread), Partial(thread, tail), other);
    }
  }

  lemma LinesOfMore(records: seq<Record>, thread: int, stamp: string, lines: seq<string>, other: int)
    ensures LinesOf(records + Stamped(thread, stamp, lines), other) ==
            if other == thread then LinesOf(records, other) + lines else LinesOf(records, other)
  {
    hide LinesOf, Stamped;
    LinesOfConcat(records, Stamped(thread, stamp, lines), other);
    LinesOfStamped(thread, stamp, lines, other);
    assert LinesOf(records, other) + [] == LinesOf(records, other);
  }

  lemma Regroup(done: string, held: string, text: string, lines: string, tail: string)
    requires held + text == lines + tail
    ensures done + held + text == done + lines + tail
  {
    assert done + held + text == done + (held + text);
    assert done + lines + tail == done + (lines + tail);
  }

  lemma ApplyConserves(s: State, w: Write, thread: int, text: string)
    requires NoBlanks(s.pending) && Conserved(s, thread, text)
    ensures Conserved(Apply(s, w), thread, text + if w.thread == thread then w.text else "")
  {
    hide Tail, Complete, Lines, LinesOf, Held, Kept, Stamped, NoBlanks;
    assert text + "" == text;
    if w.text != "" {
      var buffered := Held(s.pending, w.thread) + w.text;
      CutAtNewlines(buffered);
      HeldKept(s.pending, w.thread, Tail(buffered), thread);
      LinesOfMore(s.records, w.thread, w.stamp, Complete(buffered), thread);
      LinesConcat(LinesOf(s.records, thread), Complete(buffered));
      Regroup(Lines(LinesOf(s.records, thread)), Held(s.pending, w.thread), w.text,
              Lines(Complete(buffered)), Tail(buffered));
    }
  }

  /** Partial lines belong to different threads, are not empty and hold no newline; records are single lines. */
  ghost predicate Tidy(s: State) {
    && OneLiners(s.pending) && Distinct(s.pending)
    && forall i | 0 <= i < |s.records| :: OneLine(s.records[i].line)
  }

  ghost predicate Distinct(pending: seq<Partial>) {
    forall i, j | 0 <= i < j < |pending| :: pending[i].thread != pending[j].thread
  }

  ghost predicate OneLiners(pending: seq<Partial>) {
    forall i | 0 <= i < |pending| :: pending[i].text != "" && OneLine(pending[i].text)
  }

  lemma ApplyTidy(s: State, w: Write)
    requires Tidy(s)
    ensures Tidy(Apply(s, w))
  {
    hide Tail, Complete, Held, Distinct, OneLiners, OneLine, Kept;
    var buffered := Held(s.pending, w.thread) + w.text;
    CompleteLines(buffered);
    KeptDistinct(s.pending, w.thread, Tail(buffered));
    KeptOneLiners(s.pending, w.thread, Tail(buffered));
  }

  lemma KeptOneLiners(pending: seq<Partial>, thread: int, tail: string)
    requires OneLiners(pending) && OneLine(tail)
    ensures OneLiners(Kept(pending, thread, tail))
  {
    hide OneLine;
    WithoutKeeps(pending, thread);
  }

  lemma KeptDistinct(pending: seq<Partial>, thread: int, tail: string)
    requires Distinct(pending)
    ensures Distinct(Kept(pending, thread, tail))
  {
    WithoutKeeps(pending, thread);
    WithoutDistinct(pending, thread);
  }

  lemma {:induction false} WithoutDistinct(pending: seq<Partial>, thread: int)
    requires Distinct(pending)
    ensures Distinct(Without(pending, thread))
  {
    if pending != [] {
      WithoutDistinct(pending[1..], thread);
      WithoutKeeps(pending[1..], thread);
      var rest := Without(pending, thread);
      forall i, j | 0 <= i < j < |rest| ensures rest[i].thread != rest[j].thread {
        if pending[0].thread != thread {
          assert rest[j] == Without(pending[1..], thread)[j - 1];
          var k :| 0 <= k < |pending[1..]| && pending[1..][k] == rest[j];
          assert pending[k + 1] == rest[j];
          assert i > 0 ==> rest[i] == Without(pending[1..], thread)[i - 1];
        }
      }
    }
  }

  lemma {:induction false} RunTidy(writes: seq<Write>)
    ensures Tidy(Run(writes))
  {
    hide Apply, Tidy;
    if writes != [] {
      RunTidy(writes[..|writes| - 1]);
      ApplyTidy(Run(writes[..|writes| - 1]), writes[|writes| - 1]);
    } else {
      EmptyTidy();
    }
  }

  lemma EmptyTidy()
    ensures Tidy(EMPTY)
  {
  }

  /** However the writers interleave, a thread's lines and its pending text are exactly what that thread wrote. */
  lemma {:induction false} EveryThreadIsConserved(writes: seq<Write>, thread: int)
    ensures Conserved(Run(writes), thread, Written(writes, thread))
  {
    hide Apply, Conserved, Tidy;
    if writes == [] {
      EmptyConserved(thread);
    } else {
      var before := writes[..|writes| - 1];
      EveryThreadIsConserved(before, thread);
      RunTidy(before);
      TidyHasNoBlanks(Run(before));
      ApplyConserves(Run(before), writes[|writes| - 1], thread, Written(before, thread));
    }
  }

  lemma EmptyConserved(thread: int)
    ensures Conserved(EMPTY, thread, "")
  {
  }

  lemma TidyHasNoBlanks(s: State)
    requires Tidy(s)
    ensures NoBlanks(s.pending)
  {
  }

  lemma {:induction false} LinesOfAreLines(records: seq<Record>, thread: int)
    requires forall i | 0 <= i < |records| :: OneLine(records[i].line)
    ensures forall i | 0 <= i < |LinesOf(records, thread)| :: OneLine(LinesOf(records, thread)[i])
  {
    hide OneLine;
    if records != [] {
      LinesOfAreLines(records[..|records| - 1], thread);
    }
  }

  /** Lines and a tail can be read back from their text in one way only. */
  lemma {:induction false} ReadBack(lines: seq<string>, tail: string)
    requires OneLine(tail) && forall i | 0 <= i < |lines| :: OneLine(lines[i])
    ensures Complete(Lines(lines) + tail) == lines && Tail(Lines(lines) + tail) == tail
    decreases |lines|
  {
    hide OneLine;
    if lines == [] {
      assert "" + tail == tail;
      NoNewline(tail);
    } else {
      var (before, last) := (lines[..|lines| - 1], lines[|lines| - 1]);
      ReadBack(before, last);
      PartitionAgrees(Lines(before) + last, tail);
      assert Lines(before) + (last + "\n") + tail == Lines(before) + last + "\n" + tail;
      assert lines == before + [last];
    }
  }

  lemma {:induction false} HeldIsLine(pending: seq<Partial>, thread: int)
    requires OneLiners(pending)
    ensures OneLine(Held(pending, thread))
  {
    if pending != [] {
      HeldIsLine(pending[1..], thread);
    }
  }

  /** So other threads leave no trace: the lines and pending text are what writing its text alone would give. */
  lemma ThreadAlone(writes: seq<Write>, thread: int)
    ensures LinesOf(Run(writes).records, thread) == Complete(Written(writes, thread))
    ensures Held(Run(writes).pending, thread) == Tail(Written(writes, thread))
  {
    hide OneLine, Run, Written, LinesOf, Lines, Held, Complete, Tail;
    var s := Run(writes);
    RunTidy(writes);
    EveryThreadIsConserved(writes, thread);
    LinesOfAreLines(s.records, thread);
    HeldIsLine(s.pending, thread);
    ReadBack(LinesOf(s.records, thread), Held(s.pending, thread));
  }

  // ---- An identifier used again

  lemma {:induction false} CompleteConcat(a: string, b: string)
    ensures Complete(a + b) == Complete(a) + Complete(Tail(a) + b)
    ensures Tail(a + b) == Tail(Tail(a) + b)
    decreases |b|
  {
    if b == "" {
      NoNewline(Tail(a));
      assert a + b == a && Tail(a) + b == Tail(a);
    } else {
      var (before, last) := (b[..|b| - 1], b[|b| - 1]);
      CompleteConcat(a, before);
      assert (a + b)[..|a + b| - 1] == a + before;
      assert (Tail(a) + b)[..|Tail(a) + b| - 1] == Tail(a) + before;
    }
  }

  /** Text before a line's text joins its first line and no other. */
  lemma {:induction false} TextInFront(front: string, s: string)
    requires OneLine(front)
    ensures |Complete(front + s)| == |Complete(s)|
    ensures Complete(s) != [] ==> Complete(front + s)[0] == front + Complete(s)[0]
    ensures Tail(front + s) == if Complete(s) == [] then front + Tail(s) else Tail(s)
    decreases |s|
  {
    if s == "" {
      assert front + s == front;
      NoNewline(front);
    } else {
      TextInFront(front, s[..|s| - 1]);
      assert (front + s)[..|front + s| - 1] == front + s[..|s| - 1];
      var (tail, last) := (Tail(s[..|s| - 1]), [s[|s| - 1]]);
      assert front + (tail + last) == front + tail + last;
    }
  }

  lemma {:induction false} WrittenConcat(first: seq<Write>, second: seq<Write>, thread: int)
    ensures Written(first + second, thread) == Written(first, thread) + Written(second, thread)
    decreases |second|
  {
    if second == [] {
      assert first + second == first;
    } else {
      assert (first + second)[..|first + second| - 1] == first + second[..|second| - 1];
      WrittenConcat(first, second[..|second| - 1], thread);
    }
  }

  /** The writes after an identifier changes hands: the partial line left behind heads the new owner's first line. */
  lemma IdentifierUsedAgain(first: seq<Write>, second: seq<Write>, thread: int)
    ensures var (before, after) := (Written(first, thread), Written(second, thread));
      LinesOf(Run(first + second).records, thread) == Complete(before) + Complete(Tail(before) + after)
  {
    hide Run, Written, LinesOf, Complete, Tail;
    ThreadAlone(first + second, thread);
    WrittenConcat(first, second, thread);
    CompleteConcat(Written(first, thread), Written(second, thread));
  }

  /** So both owners' lines are their own exactly when the first left no partial line, or the second ended none. */
  lemma OwnLinesIff(first: seq<Write>, second: seq<Write>, thread: int)
    ensures var (before, after) := (Written(first, thread), Written(second, thread));
      LinesOf(Run(first + second).records, thread) == Complete(before) + Complete(after) <==>
      Tail(before) == "" || Complete(after) == []
  {
    hide Run, Written, LinesOf, Complete, Tail;
    var (before, after) := (Written(first, thread), Written(second, thread));
    IdentifierUsedAgain(first, second, thread);
    TextInFront(Tail(before), after);
    var (own, met) := (Complete(after), Complete(Tail(before) + after));
    SameEnds(Complete(before), own, met);
    if Tail(before) == "" {
      assert Tail(before) + after == after;
    } else if own != [] {
      assert |met[0]| > |own[0]|;
    }
  }

  /** A partial line left under an identifier, and a line written under it later: they come out as one. */
  lemma LeftoverHeadsTheNextLine(thread: int, stamp: string)
    ensures var (first, second) := ([Wrote(thread, "a", stamp)], [Wrote(thread, "b\n", stamp)]);
      LinesOf(Run(first + second).records, thread) == ["ab"]
  {
    hide Run, LinesOf;
    var (first, second) := ([Wrote(thread, "a", stamp)], [Wrote(thread, "b\n", stamp)]);
    IdentifierUsedAgain(first, second, thread);
    assert first[..0] == [] && second[..0] == [];
    assert Written(first, thread) == "" + "a" == "a" && Written(second, thread) == "" + "b\n" == "b\n";
    NoNewline("a");
    NoNewline("ab");
    assert ("ab" + "\n")[..2] == "ab" && "a" + "b\n" == "ab" + "\n";
  }

  lemma SameEnds(a: seq<string>, b: seq<string>, c: seq<string>)
    ensures a + b == a + c <==> b == c
  {
    assert (a + b)[|a|..] == b && (a + c)[|a|..] == c;
  }

  // ---- Draining

  /** At exit the partial lines are stamped one by one and written, in order, for as long as the stream accepts them. */
  function Drained(s: State, stamps: nat -> string, accepted: nat): State
    requires accepted <= |s.pending|
  {
    State([], s.records + seq(accepted, i requires 0 <= i < accepted =>
                                Record(s.pending[i].thread, stamps(i), s.pending[i].text)))
  }

  lemma {:induction false} LinesOfPartials(pending: seq<Partial>, stamps: nat -> string, n: nat, thread: int)
    requires n <= |pending| && OneLiners(pending) && Distinct(pending)
    ensures LinesOf(Drained(State(pending, []), stamps, n).records, thread) ==
            if Held(pending[..n], thread) == "" then [] else [Held(pending[..n], thread)]
  {
    hide OneLine;
    var records := Drained(State(pending, []), stamps, n).records;
    if n > 0 {
      LinesOfPartials(pending, stamps, n - 1, thread);
      assert records[..n - 1] == Drained(State(pending, []), stamps, n - 1).records;
      assert pending[..n] == pending[..n - 1] + [pending[n - 1]];
      NotHeld(pending[..n - 1], pending[n - 1].thread);
      HeldAppend(pending[..n - 1], pending[n - 1], thread);
    }
  }

  lemma {:induction false} NotHeld(pending: seq<Partial>, thread: int)
    requires forall i | 0 <= i < |pending| :: pending[i].thread != thread
    ensures Held(pending, thread) == ""
  {
    if pending != [] {
      NotHeld(pending[1..], thread);
    }
  }

  /** After the writers stop and an open stream is drained, each thread's lines are all the parts of its text. */
  lemma DrainEmitsAll(writes: seq<Write>, stamps: nat -> string, thread: int)
    ensures var s := Run(writes);
      var text := Written(writes, thread);
      LinesOf(Drained(s, stamps, |s.pending|).records, thread) ==
      if Tail(text) == "" then Complete(text) else Split(text)
  {
    hide OneLine, Run, Written;
    var s := Run(writes);
    ThreadAlone(writes, thread);
    RunTidy(writes);
    LinesOfPartials(s.pending, stamps, |s.pending|, thread);
    assert s.pending[..|s.pending|] == s.pending;
    var rest := Drained(State(s.pending, []), stamps, |s.pending|).records;
    LinesOfConcat(s.records, rest, thread);
    assert Drained(s, stamps, |s.pending|).records == s.records + rest;
    assert LinesOf(s.records, thread) + [] == LinesOf(s.records, thread);
  }

  // ---- The stream object

  function Rendered(records: seq<Record>): string {
    if records == [] then ""
    else
      var last := records[|records| - 1];
      Rendered(records[..|records| - 1]) + (last.stamp + " " + last.line + "\n")
  }

  lemma RenderedMore(records: seq<Record>, r: Record)
    ensures Rendered(records + [r]) == Rendered(records) + (r.stamp + " " + r.line + "\n")
  {
    assert (records + [r])[..|records|] == records;
  }

  function Texts(records: seq<Record>): (texts: seq<string>)
    ensures |texts| == |records|
  {
    seq(|records|, i requires 0 <= i < |records| => records[i].stamp + " " + records[i].line)
  }

  lemma OneLineStamped(stamp: string, line: string)
    requires OneLine(stamp) && OneLine(line)
    ensures OneLine(stamp + " " + line)
  {
  }

  lemma EmptyIsOneLine()
    ensures OneLine("")
  {
  }

  /** With stamps that hold no newline, the stream's lines are the records, one for one. */
  lemma StreamLinesAreRecords(records: seq<Record>)
    requires forall i | 0 <= i < |records| :: OneLine(records[i].stamp) && OneLine(records[i].line)
    ensures Complete(Rendered(records)) == Texts(records) && Tail(Rendered(records)) == ""
  {
    hide OneLine, Rendered, Lines, Complete, Tail;
    RenderedIsLines(records);
    forall i | 0 <= i < |records| ensures OneLine(Texts(records)[i]) {
      OneLineStamped(records[i].stamp, records[i].line);
    }
    EmptyIsOneLine();
    ReadBack(Texts(records), "");
    assert Lines(Texts(records)) + "" == Lines(Texts(records));
  }

  lemma {:induction false} RenderedIsLines(records: seq<Record>)
    ensures Rendered(records) == Lines(Texts(records))
  {
    if records != [] {
      RenderedIsLines(records[..|records| - 1]);
      assert Texts(records)[..|records| - 1] == Texts(records[..|records| - 1]);
    }
  }

  class TimestampedStream {
    /** Each thread's partial line, in the order of the dictionary that holds them. */
    var pending: seq<Partial>
    /** What the wrapped stream has been given. */
    var output: string
    ghost var records: seq<Record>

    ghost predicate Valid()
      reads this
    {
      output == Rendered(records)
    }

    ghost function Value(): State
      reads this
    {
      State(pending, records)
    }

    constructor ()
      ensures Valid() && Value() == EMPTY
    {
      pending, output, records := [], "", [];
    }

    method Put(thread: int, stamp: string, line: string)
      requires Valid()
      modifies this`output, this`records
      ensures Valid() && records == old(records) + [Record(thread, stamp, line)]
    {
      RenderedMore(records, Record(thread, stamp, line));
      output := output + (stamp + " " + line + "\n");
      records := records + [Record(thread, stamp, line)];
    }

    method PutAll(thread: int, stamp: string, lines: seq<string>)
      requires Valid()
      modifies this`output, this`records
      ensures Valid() && records == old(records) + Stamped(thread, stamp, lines)
    {
      for i := 0 to |lines|
        invariant Valid() && records == old(records) + Stamped(thread, stamp, lines[..i])
      {
        Put(thread, stamp, lines[i]);
      }
      assert lines[..|lines|] == lines;
    }

    method Write(thread: int, text: string, stamp: string) returns (n: nat)
      requires Valid()
      modifies this
      ensures Valid() && Value() == Apply(old(Value()), Wrote(thread, text, stamp)) && n == |text|
    {
      hide Held, Without, Split, Complete, Tail, Stamped, OneLine, OccursAt, RFind, Rendered;
      if text == "" {
        return 0;
      }
      var buffered := Held(pending, thread) + text;
      pending := Without(pending, thread);
      var cut := RFind(buffered, "\n");
      CutInRange(buffered);
      Partitioned(buffered);
      var head, tail := if cut >= 0 then buffered[..cut] else "", buffered[cut + 1..];
      if tail != "" {
        pending := pending + [Partial(thread, tail)];
      }
      if cut >= 0 {
        PutAll(thread, stamp, Split(head));
      } else {
        NothingStamped(thread, stamp);
      }
      n := |text|;
    }

    method Drain(stamps: nat -> string, accepts: nat)
      requires Valid()
      modifies this
      ensures Valid() && Value() == Drained(old(Value()), stamps, Min(accepts, |old(pending)|))
    {
      var partials := pending;
      pending := [];
      for i := 0 to |partials|
        invariant Valid() && pending == [] && i <= accepts
        invariant State([], records) == Drained(old(Value()), stamps, i)
      {
        if i == accepts {
          return;
        }
        Put(partials[i].thread, stamps(i), partials[i].text);
      }
    }
  }

  lemma NothingStamped(thread: int, stamp: string)
    ensures Stamped(thread, stamp, []) == []
  {
  }

  lemma CutInRange(s: string)
    ensures RFind(s, "\n") + 1 <= |s|
  {
  }

  lemma Partitioned(s: string)
    ensures var cut := RFind(s, "\n");
      && Tail(s) == s[cut + 1..]
      && Complete(s) == if cut >= 0 then Split(s[..cut]) else []
  {
    var cut := RFind(s, "\n");
    forall i | cut + 1 <= i < |s| ensures s[i] != '\n' {
      assert s[i..i + 1] == [s[i]];
      assert !OccursAt(s, "\n", i);
    }
    if cut >= 0 {
      assert s == s[..cut] + "\n" + s[cut + 1..];
      PartitionAgrees(s[..cut], s[cut + 1..]);
    } else {
      assert s[0..] == s;
      NoNewline(s);
    }
  }
}
