/** Copy-truncate rotation of the host log: the live file and its numbered generations. */
module LogRotation {
  import opened Basics

  type Files = map<nat, string>

  /** The content of generation `i`, if that file exists. */
  function At(files: Files, i: nat): Option<string> {
    if i in files then Some(files[i]) else None
  }

  function Remove(files: Files, i: nat): (rest: Files)
    ensures forall j: nat :: At(rest, j) == if j == i then None else At(files, j)
  {
    map j | j in files && j != i :: files[j]
  }

  /** Generation `i` after everything up to `keep` has moved one place up and `first` has become generation 1. */
  function Shifted(files: Files, keep: nat, first: Option<string>, i: nat): Option<string> {
    if i == 0 || i > keep then At(files, i)
    else if i == 1 then first
    else At(files, i - 1)
  }

  ghost predicate Shifts(files: Files, moved: Files, keep: nat, first: Option<string>) {
    forall i: nat {:trigger At(moved, i)} :: At(moved, i) == Shifted(files, keep, first, i)
  }

  /** Where the descending loop stands: generations above `index` have moved up, and `index` is free. */
  ghost predicate Moved(files: Files, now: Files, keep: nat, index: nat) {
    forall i: nat {:trigger At(now, i)} ::
      At(now, i) == if i == index then None else if index < i <= keep then At(files, i - 1) else At(files, i)
  }

  function MoveUp(files: Files, index: nat): Files {
    if index in files then Remove(files[index + 1 := files[index]], index) else files
  }

  lemma MoveOne(files: Files, now: Files, keep: nat, index: nat)
    requires 1 <= index < keep && Moved(files, now, keep, index + 1)
    ensures Moved(files, MoveUp(now, index), keep, index)
  {
    var next := MoveUp(now, index);
    assert At(now, index) == At(files, index);
    forall i: nat {:trigger At(next, i)}
      ensures At(next, i) == if i == index then None else if index < i <= keep then At(files, i - 1) else At(files, i)
    {
      assert At(now, i) == if i == index + 1 then None
                           else if index + 1 < i <= keep then At(files, i - 1) else At(files, i);
      if index in now {
        assert At(now[index + 1 := now[index]], i) == if i == index + 1 then Some(now[index]) else At(now, i);
      }
    }
  }

  lemma MovedShifts(files: Files, now: Files, keep: nat, first: Option<string>)
    requires keep >= 1 && Moved(files, now, keep, 1)
    ensures var next := if first.Some? then now[1 := first.value] else now;
      Shifts(files, next, keep, first)
  {
    var next := if first.Some? then now[1 := first.value] else now;
    forall i: nat {:trigger At(next, i)} ensures At(next, i) == Shifted(files, keep, first, i) {
      assert At(now, i) == if i == 1 then None else if 1 < i <= keep then At(files, i - 1) else At(files, i);
    }
  }

  /** The generations from the oldest kept to the newest, as one text. */
  function Kept(files: Files, keep: nat): string {
    if keep == 0 then "" else TextAt(files, keep) + Kept(files, keep - 1)
  }

  function TextAt(files: Files, i: nat): string {
    match At(files, i)
    case Some(text) => text
    case None => ""
  }

  /**
   How the file system lets a rotation end: the copy cannot be opened, or breaks off after so many characters, or the
   log cannot be truncated after it, or all goes well.
   */
  datatype Outcome = NotOpened | BrokenOff(at: nat) | NotTruncated | Rotated

  /** What is then in generation 1, which the copy opens for writing before it copies. */
  function Copied(outcome: Outcome, live: string): Option<string> {
    match outcome
    case NotOpened => None
    case BrokenOff(at) => Some(live[..Min(at, |live|)])
    case _ => Some(live)
  }

  class HostLog {
    var live: string
    var older: Files

    constructor ()
      ensures live == "" && older == map[]
    {
      live, older := "", map[];
    }

    method Rotate(maxBytes: int, generations: int, force: bool, outcome: Outcome) returns (rotated: bool)
      modifies this
      ensures var over := force || |old(live)| > maxBytes;
        && rotated == (over && outcome.Rotated?)
        && live == (if rotated then "" else old(live))
        && (over ==> Shifts(old(older), older, Max(1, generations), Copied(outcome, old(live))))
        && (!over ==> older == old(older))
    {
      if !(force || |live| > maxBytes) {
        return false;
      }
      var keep := Max(1, generations);
      older := Remove(older, keep);
      for index := keep downto 1
        invariant Moved(old(older), older, keep, index)
        invariant live == old(live)
      {
        MoveOne(old(older), older, keep, index);
        if index in older {
          older := Remove(older[index + 1 := older[index]], index);
        }
      }
      MovedShifts(old(older), older, keep, Copied(outcome, live));
      match outcome {
        case NotOpened => rotated := false;
        case BrokenOff(at) =>
          older := older[1 := live[..Min(at, |live|)]];
          rotated := false;
        case NotTruncated =>
          older := older[1 := live];
          rotated := false;
        case Rotated =>
          older := older[1 := live];
          live := "";
          rotated := true;
      }
    }
  }

  // ---- What a rotation keeps, and what a run of them leaves

  lemma Regroup(a: string, b: string, c: string, d: string, first: string)
    requires b + c == d + first
    ensures a + (b + c) == a + d + first
  {
    assert a + (d + first) == a + d + first;
  }

  function Text(file: Option<string>): string {
    match file
    case Some(text) => text
    case None => ""
  }

  lemma {:induction false} KeptMoves(files: Files, moved: Files, keep: nat, first: Option<string>, k: nat)
    requires 1 <= k <= keep && Shifts(files, moved, keep, first)
    ensures TextAt(files, k) + Kept(moved, k) == Kept(files, k) + Text(first)
  {
    if k == 1 {
      assert At(moved, 1) == first && TextAt(moved, 1) == Text(first);
      assert Kept(moved, 1) == Text(first) + Kept(moved, 0);
      assert Kept(files, 1) == TextAt(files, 1) + Kept(files, 0);
      assert Text(first) + "" == Text(first) && TextAt(files, 1) + "" == TextAt(files, 1);
    } else {
      KeptMoves(files, moved, keep, first, k - 1);
      assert TextAt(moved, k) == TextAt(files, k - 1);
      Regroup(TextAt(files, k), TextAt(files, k - 1), Kept(moved, k - 1), Kept(files, k - 1), Text(first));
    }
  }

  /** From any files, gaps included, a rotation loses the oldest kept generation and nothing else. */
  lemma OnlyTheOldestIsLost(files: Files, moved: Files, keep: nat, live: string)
    requires keep >= 1 && Shifts(files, moved, keep, Some(live))
    ensures TextAt(files, keep) + Kept(moved, keep) == Kept(files, keep) + live
    ensures forall i: nat | i > keep :: At(moved, i) == At(files, i)
  {
    KeptMoves(files, moved, keep, Some(live), keep);
  }

  /** A rotation that fails loses the oldest as well, and leaves what it copied in two places. */
  lemma FailedRotationDuplicates(files: Files, moved: Files, keep: nat, live: string, outcome: Outcome)
    requires keep >= 1 && Shifts(files, moved, keep, Copied(outcome, live))
    ensures TextAt(files, keep) + (Kept(moved, keep) + live) == Kept(files, keep) + Text(Copied(outcome, live)) + live
  {
    hide Copied, Kept;
    KeptMoves(files, moved, keep, Copied(outcome, live), keep);
    assert TextAt(files, keep) + (Kept(moved, keep) + live) == TextAt(files, keep) + Kept(moved, keep) + live;
  }

  /** After some rotations: what each of them put into generation 1, newest first, and then what was there before. */
  ghost predicate Pushed(files: Files, now: Files, keep: nat, firsts: seq<Option<string>>) {
    forall i: nat {:trigger At(now, i)} ::
      At(now, i) == if i == 0 || i > keep then At(files, i)
                    else if i <= |firsts| then firsts[|firsts| - i]
                    else At(files, i - |firsts|)
  }

  lemma NonePushed(files: Files, keep: nat)
    ensures Pushed(files, files, keep, [])
  {
  }

  lemma PushOneMore(files: Files, now: Files, next: Files, keep: nat, firsts: seq<Option<string>>,
                    first: Option<string>)
    requires keep >= 1 && Pushed(files, now, keep, firsts) && Shifts(now, next, keep, first)
    ensures Pushed(files, next, keep, firsts + [first])
  {
    var n := |firsts|;
    forall i: nat {:trigger At(next, i)}
      ensures At(next, i) == if i == 0 || i > keep then At(files, i)
                             else if i <= n + 1 then (firsts + [first])[n + 1 - i]
                             else At(files, i - (n + 1))
    {
      assert At(next, i) == Shifted(now, keep, first, i);
      if 2 <= i <= keep {
        assert At(now, i - 1) == if i - 1 <= n then firsts[n - (i - 1)] else At(files, i - 1 - n);
      }
    }
  }

  /** Any number of contents, each rotated out from a clean start: the last `keep` are there, newest first. */
  method RotateEach(contents: seq<string>, generations: int) returns (live: string, older: Files)
    ensures var keep := Max(1, generations);
      forall i: nat :: At(older, i) ==
        if 1 <= i <= keep && i <= |contents| then Some(contents[|contents| - i]) else None
    ensures live == ""
  {
    var log := new HostLog();
    var keep := Max(1, generations);
    for n := 0 to |contents|
      invariant fresh(log) && log.live == ""
      invariant forall i: nat :: At(log.older, i) == if 1 <= i <= keep && i <= n then Some(contents[n - i]) else None
    {
      log.live := contents[n];
      var rotated := log.Rotate(0, generations, true, Rotated);
    }
    live, older := log.live, log.older;
  }

  function AllCopied(outcomes: seq<Outcome>, live: string): (firsts: seq<Option<string>>)
    ensures |firsts| == |outcomes|
  {
    seq(|outcomes|, i requires 0 <= i < |outcomes| => Copied(outcomes[i], live))
  }

  lemma AllCopiedMore(outcomes: seq<Outcome>, live: string, n: nat)
    requires n < |outcomes|
    ensures AllCopied(outcomes[..n + 1], live) == AllCopied(outcomes[..n], live) + [Copied(outcomes[n], live)]
  {
    hide Copied;
    assert outcomes[..n + 1][..n] == outcomes[..n] && outcomes[..n + 1][n] == outcomes[n];
  }

  /**
   Rotations that fail over and over, as on a full disk: the live log stays, and each failure puts no more than the part
   it copied, or nothing, in place of a generation. So as many failures as generations leave none of the old ones.
   */
  method FailEach(log: HostLog, outcomes: seq<Outcome>, generations: int)
    requires Rotated !in outcomes
    modifies log
    ensures log.live == old(log.live)
    ensures Pushed(old(log.older), log.older, Max(1, generations), AllCopied(outcomes, old(log.live)))
  {
    hide Shifts, Pushed, Copied, AllCopied;
    var keep := Max(1, generations);
    NonePushed(log.older, keep);
    assert outcomes[..0] == [] && AllCopied([], log.live) == [];
    for n := 0 to |outcomes|
      invariant log.live == old(log.live)
      invariant Pushed(old(log.older), log.older, keep, AllCopied(outcomes[..n], old(log.live)))
    {
      ghost var before := log.older;
      assert outcomes[n] in outcomes;
      var rotated := log.Rotate(0, generations, true, outcomes[n]);
      PushOneMore(old(log.older), before, log.older, keep, AllCopied(outcomes[..n], old(log.live)),
                  Copied(outcomes[n], old(log.live)));
      AllCopiedMore(outcomes, old(log.live), n);
    }
    assert outcomes[..|outcomes|] == outcomes;
  }

  // ---- A log written and checked over and over

  /** All that has been put into generations so far, and the live log after it. */
  datatype Written = Written(gone: string, live: string)

  /** One text appended, and the size check after it. */
  function Appended(w: Written, text: string, outcome: Outcome, maxBytes: int): Written {
    var live := w.live + text;
    if |live| <= maxBytes then Written(w.gone, live)
    else Written(w.gone + Text(Copied(outcome, live)), if outcome.Rotated? then "" else live)
  }

  function AppendedAll(texts: seq<string>, outcomes: seq<Outcome>, maxBytes: int): Written
    requires |outcomes| == |texts|
  {
    if texts == [] then Written("", "")
    else
      var n := |texts| - 1;
      Appended(AppendedAll(texts[..n], outcomes[..n], maxBytes), texts[n], outcomes[n], maxBytes)
  }

  function Concat(texts: seq<string>): string {
    if texts == [] then "" else Concat(texts[..|texts| - 1]) + texts[|texts| - 1]
  }

  /** The copy was all or nothing, and was followed by the truncation. */
  predicate Clean(outcome: Outcome) {
    outcome.NotOpened? || outcome.Rotated?
  }

  /** Without a copy that breaks off, or a truncation that fails after it, this is what was written. */
  lemma {:induction false} CleanAppendsAreTheTexts(texts: seq<string>, outcomes: seq<Outcome>, maxBytes: int)
    requires |outcomes| == |texts| && forall o | o in outcomes :: Clean(o)
    ensures var w := AppendedAll(texts, outcomes, maxBytes);
      w.gone + w.live == Concat(texts)
  {
    if texts != [] {
      var n := |texts| - 1;
      CleanAppendsAreTheTexts(texts[..n], outcomes[..n], maxBytes);
      var w := AppendedAll(texts[..n], outcomes[..n], maxBytes);
      assert outcomes[n] in outcomes;
      assert w.gone + (w.live + texts[n]) == w.gone + w.live + texts[n];
      assert w.gone + "" == w.gone && w.gone + (w.live + texts[n]) + "" == w.gone + (w.live + texts[n]);
    }
  }

  /** How much of the live log an append leaves in two places. */
  function Doubled(w: Written, text: string, outcome: Outcome, maxBytes: int): nat {
    if |w.live + text| <= maxBytes || Clean(outcome) then 0 else |Text(Copied(outcome, w.live + text))|
  }

  function DoubledAll(texts: seq<string>, outcomes: seq<Outcome>, maxBytes: int): nat
    requires |outcomes| == |texts|
  {
    if texts == [] then 0
    else
      var n := |texts| - 1;
      DoubledAll(texts[..n], outcomes[..n], maxBytes) +
      Doubled(AppendedAll(texts[..n], outcomes[..n], maxBytes), texts[n], outcomes[n], maxBytes)
  }

  /** In general it is longer by what was left in two places, and it is what was written exactly if nothing was. */
  lemma {:induction false} AppendsAreTheTextsIff(texts: seq<string>, outcomes: seq<Outcome>, maxBytes: int)
    requires |outcomes| == |texts|
    ensures var w := AppendedAll(texts, outcomes, maxBytes);
      && |w.gone| + |w.live| == |Concat(texts)| + DoubledAll(texts, outcomes, maxBytes)
      && (w.gone + w.live == Concat(texts) <==> DoubledAll(texts, outcomes, maxBytes) == 0)
  {
    if texts != [] {
      var n := |texts| - 1;
      AppendsAreTheTextsIff(texts[..n], outcomes[..n], maxBytes);
      var w := AppendedAll(texts[..n], outcomes[..n], maxBytes);
      AppendedOne(w, Concat(texts[..n]), texts[n], outcomes[n], maxBytes);
    }
  }

  lemma AppendedOne(w: Written, all: string, text: string, outcome: Outcome, maxBytes: int)
    requires |w.gone + w.live| >= |all|
    ensures var next := Appended(w, text, outcome, maxBytes);
      && |next.gone| + |next.live| == |w.gone| + |w.live| + |text| + Doubled(w, text, outcome, maxBytes)
      && (w.gone + w.live == all && Doubled(w, text, outcome, maxBytes) == 0 ==>
            next.gone + next.live == all + text)
  {
    var live := w.live + text;
    assert w.gone + live == w.gone + w.live + text;
    if |live| > maxBytes {
      match outcome
      case NotOpened => assert w.gone + "" == w.gone;
      case BrokenOff(_) =>
        if Doubled(w, text, outcome, maxBytes) == 0 {
          assert w.gone + Text(Copied(outcome, live)) == w.gone;
        }
      case NotTruncated =>
        if Doubled(w, text, outcome, maxBytes) == 0 {
          assert w.gone + Text(Copied(outcome, live)) == w.gone;
        }
      case Rotated => assert w.gone + live + "" == w.gone + live;
    }
  }

  /** The same of the log; `lost` is what the rotation dropped. */
  method AppendOne(log: HostLog, ghost w: Written, text: string, outcome: Outcome, maxBytes: int, generations: int)
    returns (ghost lost: string)
    requires w.live == log.live
    modifies log
    ensures var keep := Max(1, generations);
      var next := Appended(w, text, outcome, maxBytes);
      && log.live == next.live
      && forall before | w.gone == before + Kept(old(log.older), keep) ::
           next.gone == before + lost + Kept(log.older, keep)
  {
    hide Kept, Shifts, Copied;
    var keep := Max(1, generations);
    log.live := log.live + text;
    ghost var (files, live) := (log.older, log.live);
    var rotated := log.Rotate(maxBytes, generations, false, outcome);
    lost := "";
    if |live| > maxBytes {
      lost := TextAt(files, keep);
      KeptMoves(files, log.older, keep, Copied(outcome, live), keep);
      forall before | w.gone == before + Kept(files, keep)
        ensures w.gone + Text(Copied(outcome, live)) == before + lost + Kept(log.older, keep)
      {
        Reassociate(before, Kept(files, keep), Text(Copied(outcome, live)), lost, Kept(log.older, keep));
      }
    } else {
      forall before | w.gone == before + Kept(files, keep)
        ensures w.gone == before + lost + Kept(log.older, keep)
      {
        assert before + "" == before;
      }
    }
  }

  lemma Reassociate(a: string, b: string, c: string, d: string, e: string)
    requires b + c == d + e
    ensures a + b + c == a + d + e
  {
    assert a + (b + c) == a + b + c && a + (d + e) == a + d + e;
  }

  /**
   Any texts appended, with a size check after each and the file system as it likes: what has been put into generations
   ends with those still on disk, and the live log is within its limit unless the last rotation failed.
   */
  method AppendAll(texts: seq<string>, outcomes: seq<Outcome>, maxBytes: int, generations: int)
    returns (live: string, older: Files)
    requires |outcomes| == |texts|
    ensures var w := AppendedAll(texts, outcomes, maxBytes);
      && live == w.live
      && exists lost :: w.gone == lost + Kept(older, Max(1, generations))
    ensures texts != [] && outcomes[|texts| - 1].Rotated? && maxBytes >= 0 ==> |live| <= maxBytes
  {
    hide Kept, Copied;
    var log := new HostLog();
    var keep := Max(1, generations);
    ghost var lost := "";
    NothingKept(keep);
    assert texts[..0] == [] && outcomes[..0] == [];
    for n := 0 to |texts|
      invariant fresh(log)
      invariant n > 0 && outcomes[n - 1].Rotated? && maxBytes >= 0 ==> |log.live| <= maxBytes
      invariant var w := AppendedAll(texts[..n], outcomes[..n], maxBytes);
        log.live == w.live && w.gone == lost + Kept(log.older, keep)
    {
      assert texts[..n + 1][..n] == texts[..n] && outcomes[..n + 1][..n] == outcomes[..n];
      var dropped := AppendOne(log, AppendedAll(texts[..n], outcomes[..n], maxBytes), texts[n], outcomes[n], maxBytes,
                               generations);
      lost := lost + dropped;
    }
    assert texts[..|texts|] == texts && outcomes[..|texts|] == outcomes;
    live, older := log.live, log.older;
  }

  lemma {:induction false} NothingKept(keep: nat)
    ensures Kept(map[], keep) == ""
  {
    if keep > 0 {
      NothingKept(keep - 1);
    }
  }

  /** A copy that breaks off: what is on disk is not the end of anything that was written. */
  method BrokenCopyIsNoSuffix() returns (live: string, older: Files)
    ensures Kept(older, 1) == "a" && live == "ab"
    ensures !exists lost :: Concat(["ab"]) == lost + (Kept(older, 1) + live)
  {
    var log := new HostLog();
    log.live := "ab";
    var rotated := log.Rotate(1, 1, false, BrokenOff(1));
    live, older := log.live, log.older;
    assert "ab"[..1] == "a" && Copied(BrokenOff(1), "ab") == Some("a");
    assert At(older, 1) == Shifted(map[], 1, Some("a"), 1);
    assert Kept(older, 1) == "a" + Kept(older, 0) == "a";
    assert ["ab"][..0] == [] && Concat(["ab"]) == "" + "ab" == "ab";
    forall lost ensures "ab" != lost + ("a" + "ab") {
      assert |lost + ("a" + "ab")| >= 3;
    }
  }
}
