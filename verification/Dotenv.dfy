/** Rewriting a dotenv file, against the reader of the same file. */
module Dotenv {
  import opened Basics
  import opened Text

  /** A `KEY=value` entry. */
  datatype Pair = Pair(key: string, value: string)

  // ---- Lines of a text

  /** The characters `str.splitlines` breaks at; a carriage return takes a following newline along. */
  predicate IsBreak(c: char) {
    '\n' <= c <= '\r' || '\U{1C}' <= c <= '\U{1E}' || c == '\U{85}' || c == '\U{2028}' || c == '\U{2029}'
  }

  predicate OneLine(s: string) {
    forall i | 0 <= i < |s| :: !IsBreak(s[i])
  }

  function FirstBreak(s: string): (n: nat)
    ensures n <= |s| && OneLine(s[..n]) && (n < |s| ==> IsBreak(s[n]))
  {
    if s == "" || IsBreak(s[0]) then 0 else FirstBreak(s[1..]) + 1
  }

  function SplitLines(s: string): (lines: seq<string>)
    ensures forall i | 0 <= i < |lines| :: OneLine(lines[i])
    decreases |s|
  {
    if s == "" then []
    else
      var n := FirstBreak(s);
      if n == |s| then [s]
      else
        var skip := if s[n] == '\r' && n + 1 < |s| && s[n + 1] == '\n' then 2 else 1;
        [s[..n]] + SplitLines(s[n + skip..])
  }

  /** The lines joined by newlines, with one more at the end. */
  function JoinLines(lines: seq<string>): string {
    if |lines| <= 1 then (if lines == [] then "" else lines[0]) + "\n"
    else lines[0] + "\n" + JoinLines(lines[1..])
  }

  lemma {:induction false} FirstBreakIs(line: string, rest: string)
    requires OneLine(line)
    ensures FirstBreak(line + "\n" + rest) == |line|
  {
    var s := line + "\n" + rest;
    if line != "" {
      assert s[1..] == line[1..] + "\n" + rest;
      FirstBreakIs(line[1..], rest);
    }
  }

  lemma SplitFirst(line: string, rest: string)
    requires OneLine(line)
    ensures SplitLines(line + "\n" + rest) == [line] + SplitLines(rest)
  {
    var s := line + "\n" + rest;
    FirstBreakIs(line, rest);
    assert s[..|line|] == line && s[|line|] == '\n' && s[|line| + 1..] == rest;
  }

  /** What was written is read back line by line; nothing is written as one empty line. */
  lemma {:induction false} SplitJoined(lines: seq<string>)
    requires forall i | 0 <= i < |lines| :: OneLine(lines[i])
    ensures SplitLines(JoinLines(lines)) == if lines == [] then [""] else lines
  {
    hide OneLine, SplitLines;
    NoLines();
    if |lines| <= 1 {
      var line := if lines == [] then "" else lines[0];
      EmptyLine();
      SplitFirst(line, "");
      assert line + "\n" + "" == line + "\n";
    } else {
      SplitJoined(lines[1..]);
      SplitFirst(lines[0], JoinLines(lines[1..]));
      assert lines == [lines[0]] + lines[1..];
    }
  }

  lemma NoLines()
    ensures SplitLines("") == []
  {
  }

  lemma EmptyLine()
    ensures OneLine("")
  {
  }

  // ---- Entries

  /** The entry of a line: none if it is blank, a comment, or has no equals sign. */
  function Entry(line: string): Option<Pair> {
    var stripped := Strip(line);
    var eq := Find(stripped, '=');
    if stripped == "" || stripped[0] == '#' || eq == |stripped| then None
    else Some(Pair(Strip(stripped[..eq]), stripped[eq + 1..]))
  }

  /** What the reader makes of the lines: the last entry of a key counts. */
  function ReadLines(lines: seq<string>): map<string, string> {
    if lines == [] then map[]
    else
      match Entry(lines[|lines| - 1])
      case None => ReadLines(lines[..|lines| - 1])
      case Some(e) => ReadLines(lines[..|lines| - 1])[e.key := e.value]
  }

  method ReadDotenv(text: string) returns (values: map<string, string>)
    ensures values == ReadLines(SplitLines(text))
  {
    hide Entry, SplitLines;
    values := map[];
    var lines := SplitLines(text);
    for i := 0 to |lines|
      invariant values == ReadLines(lines[..i])
    {
      assert lines[..i + 1][..i] == lines[..i];
      var entry := Entry(lines[i]);
      if entry.Some? {
        values := values[entry.value.key := entry.value.value];
      }
    }
    assert lines[..|lines|] == lines;
  }

  // ---- Updates

  /** Updates come as a dictionary: one pair a key, in order. */
  ghost predicate DistinctKeys(updates: seq<Pair>) {
    forall i, j | 0 <= i < j < |updates| :: updates[i].key != updates[j].key
  }

  function Lookup(updates: seq<Pair>, key: string): Option<string> {
    if updates == [] then None
    else if updates[0].key == key then Some(updates[0].value)
    else Lookup(updates[1..], key)
  }

  function Written(p: Pair): string {
    p.key + "=" + p.value
  }

  /** A key that an entry can carry: stripped, no equals sign, not the start of a comment. */
  predicate EntryKey(key: string) {
    Strip(key) == key && Find(key, '=') == |key| && (key == "" || key[0] != '#')
  }

  predicate GoodKey(key: string) {
    EntryKey(key) && OneLine(key)
  }

  /** A value an entry gives back: on one line and without trailing whitespace. */
  predicate GoodValue(value: string) {
    RStrip(value) == value && OneLine(value)
  }

  ghost predicate GoodUpdates(updates: seq<Pair>) {
    DistinctKeys(updates) && forall i | 0 <= i < |updates| :: GoodKey(updates[i].key) && GoodValue(updates[i].value)
  }

  /** All that updates of a list of lines need: keys that entries can carry. */
  ghost predicate EntryKeys(updates: seq<Pair>) {
    DistinctKeys(updates) && forall i | 0 <= i < |updates| :: EntryKey(updates[i].key)
  }

  /** All that updates of a text need beside that: keys and values on one line each. */
  ghost predicate OneLiners(updates: seq<Pair>) {
    forall i | 0 <= i < |updates| :: OneLine(updates[i].key) && OneLine(updates[i].value)
  }

  /** What an update leaves to be read: its value without trailing whitespace. */
  function Stored(updates: seq<Pair>, key: string): Option<string> {
    match Lookup(updates, key)
    case None => None
    case Some(value) => Some(RStrip(value))
  }

  function Replaced(line: string, updates: seq<Pair>): string {
    match Entry(line)
    case None => line
    case Some(e) =>
      match Lookup(updates, e.key)
      case None => line
      case Some(value) => Written(Pair(e.key, value))
  }

  function ReplacedAll(lines: seq<string>, updates: seq<Pair>): (out: seq<string>)
    ensures |out| == |lines|
  {
    seq(|lines|, i requires 0 <= i < |lines| => Replaced(lines[i], updates))
  }

  predicate Mentions(lines: seq<string>, key: string) {
    exists i | 0 <= i < |lines| :: Entry(lines[i]).Some? && Entry(lines[i]).value.key == key
  }

  /** The updates whose key no line mentions, as new lines. */
  function Appended(lines: seq<string>, updates: seq<Pair>): seq<string> {
    if updates == [] then []
    else if Mentions(lines, updates[0].key) then Appended(lines, updates[1..])
    else [Written(updates[0])] + Appended(lines, updates[1..])
  }

  function Upserted(lines: seq<string>, updates: seq<Pair>): seq<string> {
    ReplacedAll(lines, updates) + Appended(lines, updates)
  }

  /** A line whose key is updated is replaced where it stands; every other line stays where it is. */
  lemma LinesStayInPlace(lines: seq<string>, updates: seq<Pair>, i: nat)
    requires i < |lines|
    ensures var out := Upserted(lines, updates);
      && |out| >= |lines|
      && ((Entry(lines[i]).None? || forall j | 0 <= j < |updates| :: updates[j].key != Entry(lines[i]).value.key) ==>
            out[i] == lines[i])
      && forall j | 0 <= j < |updates| && Entry(lines[i]).Some? && DistinctKeys(updates) ::
           updates[j].key == Entry(lines[i]).value.key ==> out[i] == updates[j].key + "=" + updates[j].value
  {
    hide Entry;
    if Entry(lines[i]).Some? {
      LookupIs(updates, Entry(lines[i]).value.key);
    }
  }

  lemma {:induction false} LookupIs(updates: seq<Pair>, key: string)
    ensures (forall j | 0 <= j < |updates| :: updates[j].key != key) ==> Lookup(updates, key).None?
    ensures forall j | 0 <= j < |updates| && DistinctKeys(updates) ::
              updates[j].key == key ==> Lookup(updates, key) == Some(updates[j].value)
  {
    if updates != [] {
      LookupIs(updates[1..], key);
      assert forall j | 0 < j < |updates| :: updates[j] == updates[1..][j - 1];
    }
  }

  /** After them come the updates of keys that no line has, each written once, in their order. */
  lemma NewKeysFollow(lines: seq<string>, first: seq<Pair>, p: Pair, rest: seq<Pair>)
    ensures Upserted(lines, first + [p] + rest)[|lines|..] ==
            Appended(lines, first) + (if Mentions(lines, p.key) then [] else [p.key + "=" + p.value]) +
            Appended(lines, rest)
    ensures Appended(lines, []) == []
  {
    hide Mentions, Entry, ReplacedAll;
    AppendedFirst(lines, p, rest);
    var updates := first + [p] + rest;
    hide Appended;
    AppendedSplit(lines, first, [p] + rest);
    assert updates == first + ([p] + rest);
    assert (ReplacedAll(lines, updates) + Appended(lines, updates))[|lines|..] == Appended(lines, updates);
  }

  lemma AppendedFirst(lines: seq<string>, p: Pair, rest: seq<Pair>)
    ensures Appended(lines, [p] + rest) ==
            (if Mentions(lines, p.key) then [] else [p.key + "=" + p.value]) + Appended(lines, rest)
    ensures Appended(lines, []) == []
  {
    hide Mentions;
    assert ([p] + rest)[1..] == rest;
  }

  lemma {:induction false} AppendedSplit(lines: seq<string>, a: seq<Pair>, b: seq<Pair>)
    ensures Appended(lines, a + b) == Appended(lines, a) + Appended(lines, b)
  {
    hide Mentions;
    if a == [] {
      assert a + b == b;
    } else {
      assert (a + b)[1..] == a[1..] + b;
      AppendedSplit(lines, a[1..], b);
    }
  }

  method UpsertDotenv(text: string, updates: seq<Pair>) returns (written: string)
    ensures written == JoinLines(Upserted(SplitLines(text), updates))
  {
    hide Entry, SplitLines, Lookup, JoinLines;
    var lines := SplitLines(text);
    var seen: set<string> := {};
    var out: seq<string> := [];
    for i := 0 to |lines|
      invariant out == ReplacedAll(lines[..i], updates)
      invariant forall k :: k in seen <==> Mentions(lines[..i], k) && Lookup(updates, k).Some?
    {
      assert lines[..i + 1][..i] == lines[..i];
      var entry := Entry(lines[i]);
      MentionsOneMore(lines[..i], lines[i]);
      assert lines[..i] + [lines[i]] == lines[..i + 1];
      if entry.Some? && Lookup(updates, entry.value.key).Some? {
        out := out + [Written(Pair(entry.value.key, Lookup(updates, entry.value.key).value))];
        seen := seen + {entry.value.key};
      } else {
        out := out + [lines[i]];
      }
    }
    assert lines[..|lines|] == lines;
    assert updates[0..] == updates;
    for j := 0 to |updates|
      invariant out + Appended(lines, updates[j..]) == Upserted(lines, updates)
    {
      assert updates[j..][1..] == updates[j + 1..];
      LookupAt(updates, j);
      if updates[j].key !in seen {
        ghost var rest := Appended(lines, updates[j + 1..]);
        assert out + ([Written(updates[j])] + rest) == out + [Written(updates[j])] + rest;
        out := out + [Written(updates[j])];
      }
    }
    assert updates[|updates|..] == [];
    assert out + [] == out;
    written := JoinLines(out);
  }

  lemma MentionsOneMore(lines: seq<string>, line: string)
    ensures forall k :: Mentions(lines + [line], k) <==>
              Mentions(lines, k) || (Entry(line).Some? && Entry(line).value.key == k)
  {
    hide Entry;
    var more := lines + [line];
    forall k
      ensures Mentions(more, k) <==> Mentions(lines, k) || (Entry(line).Some? && Entry(line).value.key == k)
    {
      assert more[|lines|] == line;
      if Mentions(lines, k) {
        var i :| 0 <= i < |lines| && Entry(lines[i]).Some? && Entry(lines[i]).value.key == k;
        assert more[i] == lines[i];
      }
    }
  }

  lemma {:induction false} LookupAt(updates: seq<Pair>, j: nat)
    requires j < |updates|
    ensures Lookup(updates, updates[j].key).Some?
  {
    if j > 0 {
      LookupAt(updates[1..], j - 1);
    }
  }

  // ---- What is written is read back

  lemma {:induction false} RStripConcat(a: string, v: string)
    requires a != "" && !IsSpace(a[|a| - 1])
    ensures RStrip(a + v) == a + RStrip(v)
    decreases |v|
  {
    hide IsSpace;
    if v == "" {
      assert a + v == a;
    } else if IsSpace(v[|v| - 1]) {
      assert (a + v)[..|a + v| - 1] == a + v[..|v| - 1];
      RStripConcat(a, v[..|v| - 1]);
    }
  }

  /** An update with a good key reads back with its value's trailing whitespace gone. */
  lemma EntryOfWritten(p: Pair)
    requires EntryKey(p.key)
    ensures Entry(Written(p)) == Some(Pair(p.key, RStrip(p.value)))
  {
    hide IsSpace, Find;
    var head := p.key + "=";
    var s := Written(p);
    EqualsIsVisible();
    assert s == head + p.value;
    if p.key != "" {
      StrippedEnds(p.key);
    }
    assert LStrip(s) == s;
    RStripConcat(head, p.value);
    FindIn(p.key, RStrip(p.value), '=');
    assert Strip(s) == p.key + "=" + RStrip(p.value);
    assert Strip(s)[..|p.key|] == p.key && Strip(s)[|p.key| + 1..] == RStrip(p.value);
  }

  lemma EqualsIsVisible()
    ensures !IsSpace('=')
  {
  }

  function Get(values: map<string, string>, key: string): Option<string> {
    if key in values then Some(values[key]) else None
  }

  lemma {:induction false} LookupEntryKey(updates: seq<Pair>, key: string)
    requires EntryKeys(updates) && Lookup(updates, key).Some?
    ensures EntryKey(key)
  {
    hide EntryKey;
    if updates[0].key != key {
      LookupEntryKey(updates[1..], key);
    }
  }

  lemma ReplacedEntry(line: string, updates: seq<Pair>)
    requires EntryKeys(updates)
    ensures Entry(Replaced(line, updates)) ==
      match Entry(line)
      case None => None
      case Some(e) =>
        Some(Pair(e.key, if Stored(updates, e.key).Some? then Stored(updates, e.key).value else e.value))
    ensures Replaced(Replaced(line, updates), updates) == Replaced(line, updates)
  {
    hide Entry, Written, Lookup, EntryKey, EntryKeys;
    if Entry(line).Some? && Lookup(updates, Entry(line).value.key).Some? {
      var key := Entry(line).value.key;
      LookupEntryKey(updates, key);
      EntryOfWritten(Pair(key, Lookup(updates, key).value));
    }
  }

  lemma {:induction false} ReadReplaced(lines: seq<string>, updates: seq<Pair>, key: string)
    requires EntryKeys(updates)
    ensures Get(ReadLines(ReplacedAll(lines, updates)), key) ==
      if Get(ReadLines(lines), key).Some? && Stored(updates, key).Some? then Stored(updates, key)
      else Get(ReadLines(lines), key)
  {
    hide Entry, Stored, Replaced, EntryKeys;
    if lines != [] {
      var before := lines[..|lines| - 1];
      ReadReplaced(before, updates, key);
      ReplacedEntry(lines[|lines| - 1], updates);
      assert ReplacedAll(lines, updates)[..|lines| - 1] == ReplacedAll(before, updates);
    }
  }

  lemma {:induction false} MentionedIsRead(lines: seq<string>, key: string)
    ensures Mentions(lines, key) <==> Get(ReadLines(lines), key).Some?
  {
    hide Entry, Mentions;
    if lines == [] {
      NothingMentioned(key);
    } else {
      var (before, last) := (lines[..|lines| - 1], lines[|lines| - 1]);
      MentionedIsRead(before, key);
      MentionsOneMore(before, last);
      assert lines == before + [last];
    }
  }

  lemma NothingMentioned(key: string)
    ensures !Mentions([], key)
  {
  }

  lemma {:induction false} ReadAppended(out: seq<string>, lines: seq<string>, updates: seq<Pair>, key: string)
    requires EntryKeys(updates)
    ensures Get(ReadLines(out + Appended(lines, updates)), key) ==
      if Stored(updates, key).Some? && !Mentions(lines, key) then Stored(updates, key) else Get(ReadLines(out), key)
    decreases |updates|
  {
    hide Entry, Written, Mentions, EntryKey;
    if updates == [] {
      assert out + [] == out;
    } else {
      var first := updates[0];
      var rest := Appended(lines, updates[1..]);
      NotAgain(updates);
      if Mentions(lines, first.key) {
        ReadAppended(out, lines, updates[1..], key);
      } else {
        var more := out + [Written(first)];
        assert out + ([Written(first)] + rest) == more + rest;
        ReadAppended(more, lines, updates[1..], key);
        EntryOfWritten(first);
        assert more[..|more| - 1] == out;
      }
    }
  }

  lemma NotAgain(updates: seq<Pair>)
    requires updates != [] && DistinctKeys(updates)
    ensures Lookup(updates[1..], updates[0].key).None?
  {
    NotThere(updates[1..], updates[0].key);
  }

  lemma {:induction false} NotThere(updates: seq<Pair>, key: string)
    requires forall i | 0 <= i < |updates| :: updates[i].key != key
    ensures Lookup(updates, key).None?
  {
    if updates != [] {
      NotThere(updates[1..], key);
    }
  }

  /** Reading the rewritten lines gives the old values overridden by the updates, stripped at their ends. */
  lemma ReadAfterUpsert(lines: seq<string>, updates: seq<Pair>, key: string)
    requires EntryKeys(updates)
    ensures Get(ReadLines(Upserted(lines, updates)), key) ==
            if Stored(updates, key).Some? then Stored(updates, key) else Get(ReadLines(lines), key)
  {
    hide Entry, Written, Mentions, EntryKey, Stored, ReadLines;
    ReadAppended(ReplacedAll(lines, updates), lines, updates, key);
    ReadReplaced(lines, updates, key);
    MentionedIsRead(lines, key);
  }

  /** The lines an upsert has no business with: blanks, comments, and entries of other keys. */
  function Untouched(lines: seq<string>, updates: seq<Pair>): seq<string> {
    if lines == [] then []
    else
      var (before, last) := (lines[..|lines| - 1], lines[|lines| - 1]);
      if Entry(last).Some? && Lookup(updates, Entry(last).value.key).Some? then Untouched(before, updates)
      else Untouched(before, updates) + [last]
  }

  lemma {:induction false} UntouchedReplaced(lines: seq<string>, updates: seq<Pair>)
    requires EntryKeys(updates)
    ensures Untouched(ReplacedAll(lines, updates), updates) == Untouched(lines, updates)
  {
    hide Entry, Lookup, Written, EntryKeys, Stored;
    if lines != [] {
      var before := lines[..|lines| - 1];
      UntouchedReplaced(before, updates);
      ReplacedEntry(lines[|lines| - 1], updates);
      assert ReplacedAll(lines, updates)[..|lines| - 1] == ReplacedAll(before, updates);
    }
  }

  lemma {:induction false} UntouchedAppended(out: seq<string>, lines: seq<string>, some: seq<Pair>, updates: seq<Pair>)
    requires EntryKeys(updates) && forall i | 0 <= i < |some| :: some[i] in updates
    ensures Untouched(out + Appended(lines, some), updates) == Untouched(out, updates)
    decreases |some|
  {
    hide Entry, Written, Mentions, EntryKey, Lookup;
    if some == [] {
      assert out + [] == out;
    } else if Mentions(lines, some[0].key) {
      UntouchedAppended(out, lines, some[1..], updates);
    } else {
      var more := out + [Written(some[0])];
      assert out + ([Written(some[0])] + Appended(lines, some[1..])) == more + Appended(lines, some[1..]);
      UntouchedAppended(more, lines, some[1..], updates);
      var j :| 0 <= j < |updates| && updates[j] == some[0];
      LookupAt(updates, j);
      EntryOfWritten(some[0]);
      assert more[..|more| - 1] == out;
    }
  }

  /** All other lines are kept, in order. */
  lemma OtherLinesAreKept(lines: seq<string>, updates: seq<Pair>)
    requires EntryKeys(updates)
    ensures Untouched(Upserted(lines, updates), updates) == Untouched(lines, updates)
  {
    hide Untouched;
    UntouchedReplaced(lines, updates);
    UntouchedAppended(ReplacedAll(lines, updates), lines, updates, updates);
  }

  lemma {:induction false} AppendedStays(lines: seq<string>, some: seq<Pair>, updates: seq<Pair>)
    requires EntryKeys(updates) && forall i | 0 <= i < |some| :: some[i] in updates
    ensures forall i | 0 <= i < |Appended(lines, some)| ::
              Replaced(Appended(lines, some)[i], updates) == Appended(lines, some)[i]
  {
    hide Entry, Written, Mentions, EntryKey, Replaced;
    if some != [] {
      AppendedStays(lines, some[1..], updates);
      var j :| 0 <= j < |updates| && updates[j] == some[0];
      WrittenStays(updates, j);
    }
  }

  lemma WrittenStays(updates: seq<Pair>, j: nat)
    requires EntryKeys(updates) && j < |updates|
    ensures Replaced(Written(updates[j]), updates) == Written(updates[j])
  {
    hide Entry, Lookup, EntryKey, Written;
    EntryOfWritten(updates[j]);
    LookupOwn(updates, j);
  }

  lemma WrittenOneLine(p: Pair)
    requires OneLine(p.key) && OneLine(p.value)
    ensures OneLine(Written(p))
  {
    hide IsBreak;
    EqualsIsNoBreak();
  }

  lemma {:induction false} AppendedOneLine(lines: seq<string>, updates: seq<Pair>)
    requires OneLiners(updates)
    ensures forall i | 0 <= i < |Appended(lines, updates)| :: OneLine(Appended(lines, updates)[i])
  {
    hide Written, Mentions, OneLine;
    if updates != [] {
      AppendedOneLine(lines, updates[1..]);
      WrittenOneLine(updates[0]);
    }
  }

  lemma {:induction false} LookupOwn(updates: seq<Pair>, j: nat)
    requires DistinctKeys(updates) && j < |updates|
    ensures Lookup(updates, updates[j].key) == Some(updates[j].value)
  {
    if j > 0 {
      assert updates[0].key != updates[j].key;
      LookupOwn(updates[1..], j - 1);
    }
  }

  lemma {:induction false} LookupOneLine(updates: seq<Pair>, key: string)
    requires OneLiners(updates) && Lookup(updates, key).Some?
    ensures OneLine(key) && OneLine(Lookup(updates, key).value)
  {
    hide OneLine;
    if updates[0].key != key {
      LookupOneLine(updates[1..], key);
    }
  }

  lemma ReplacedOneLine(line: string, updates: seq<Pair>)
    requires OneLiners(updates) && OneLine(line)
    ensures OneLine(Replaced(line, updates))
  {
    hide Entry, Lookup, OneLiners, OneLine, Written;
    if Entry(line).Some? && Lookup(updates, Entry(line).value.key).Some? {
      var key := Entry(line).value.key;
      LookupOneLine(updates, key);
      WrittenOneLine(Pair(key, Lookup(updates, key).value));
    }
  }

  lemma EqualsIsNoBreak()
    ensures !IsBreak('=')
  {
  }

  /** A line for every update, once it has been made. */
  lemma AllMentioned(lines: seq<string>, updates: seq<Pair>, j: nat)
    requires EntryKeys(updates) && j < |updates|
    ensures Mentions(Upserted(lines, updates), updates[j].key)
  {
    hide Entry, Mentions, EntryKey, ReadLines, Upserted, Lookup;
    LookupOwn(updates, j);
    ReadAfterUpsert(lines, updates, updates[j].key);
    MentionedIsRead(Upserted(lines, updates), updates[j].key);
  }

  lemma {:induction false} NothingToAppend(lines: seq<string>, updates: seq<Pair>)
    requires forall j | 0 <= j < |updates| :: Mentions(lines, updates[j].key)
    ensures Appended(lines, updates) == []
  {
    hide Mentions;
    if updates != [] {
      NothingToAppend(lines, updates[1..]);
    }
  }

  /** A second identical upsert changes nothing. */
  lemma UpsertTwice(lines: seq<string>, updates: seq<Pair>)
    requires EntryKeys(updates)
    ensures Upserted(Upserted(lines, updates), updates) == Upserted(lines, updates)
  {
    hide Entry, Written, Mentions, EntryKey, Replaced, EntryKeys, OneLine;
    var once := Upserted(lines, updates);
    forall j | 0 <= j < |updates| ensures Mentions(once, updates[j].key) {
      AllMentioned(lines, updates, j);
    }
    NothingToAppend(once, updates);
    AppendedStays(lines, updates, updates);
    forall i | 0 <= i < |once| ensures Replaced(once[i], updates) == once[i] {
      if i < |lines| {
        ReplacedEntry(lines[i], updates);
      } else {
        assert once[i] == Appended(lines, updates)[i - |lines|];
      }
    }
    assert ReplacedAll(once, updates) == once;
  }

  lemma UpsertedOneLine(lines: seq<string>, updates: seq<Pair>)
    requires OneLiners(updates) && forall i | 0 <= i < |lines| :: OneLine(lines[i])
    ensures forall i | 0 <= i < |Upserted(lines, updates)| :: OneLine(Upserted(lines, updates)[i])
  {
    hide Entry, Written, Mentions, Replaced, OneLiners, OneLine;
    AppendedOneLine(lines, updates);
    forall i | 0 <= i < |lines| ensures OneLine(Replaced(lines[i], updates)) {
      ReplacedOneLine(lines[i], updates);
    }
  }

  // ---- The same, of texts

  function UpsertText(text: string, updates: seq<Pair>): string {
    JoinLines(Upserted(SplitLines(text), updates))
  }

  lemma UpsertedText(text: string, updates: seq<Pair>)
    requires EntryKeys(updates) && OneLiners(updates)
    ensures var lines := Upserted(SplitLines(text), updates);
      SplitLines(UpsertText(text, updates)) == if lines == [] then [""] else lines
  {
    hide SplitLines, Upserted, OneLiners, OneLine, JoinLines;
    UpsertedOneLine(SplitLines(text), updates);
    SplitJoined(Upserted(SplitLines(text), updates));
  }

  /** Reading a file after upserting it: the old values overridden by the updates, stripped at their ends. */
  lemma TextReadAfterUpsert(text: string, updates: seq<Pair>, key: string)
    requires EntryKeys(updates) && OneLiners(updates)
    ensures Get(ReadLines(SplitLines(UpsertText(text, updates))), key) ==
            if Stored(updates, key).Some? then Stored(updates, key) else Get(ReadLines(SplitLines(text)), key)
  {
    hide SplitLines, Upserted, EntryKeys, OneLiners, UpsertText, Stored;
    UpsertedText(text, updates);
    ReadAfterUpsert(SplitLines(text), updates, key);
    BlankReads();
  }

  lemma BlankReads()
    ensures ReadLines([""]) == map[] == ReadLines([])
  {
    assert Entry("") == None;
    assert [""][..0] == [];
  }

  /** A second identical upsert leaves the text unchanged. */
  lemma TextUpsertTwice(text: string, updates: seq<Pair>)
    requires EntryKeys(updates) && OneLiners(updates)
    ensures UpsertText(UpsertText(text, updates), updates) == UpsertText(text, updates)
  {
    hide SplitLines, EntryKeys, OneLiners, Entry, Lookup;
    var lines := SplitLines(text);
    var once := Upserted(lines, updates);
    UpsertedText(text, updates);
    UpsertTwice(lines, updates);
    if once == [] {
      UpsertTwice([], updates);
      assert lines == [] && Appended([], updates) == [];
      NoUpdates(updates);
      assert Upserted([""], updates) == [""];
    }
  }

  lemma NoUpdates(updates: seq<Pair>)
    requires Appended([], updates) == []
    ensures updates == [] && Replaced("", updates) == ""
  {
    assert Entry("") == None;
  }

  // ---- Which updates come back from the file

  lemma SliceOneLine(s: string, i: nat, j: nat)
    requires OneLine(s) && i <= j <= |s|
    ensures OneLine(s[i..j])
  {
  }

  lemma StripOneLine(s: string)
    requires OneLine(s)
    ensures OneLine(Strip(s))
  {
    hide OneLine, IsSpace, Blank, LStrip, RStrip;
    SliceOneLine(s, |s| - |LStrip(s)|, |s|);
    SliceOneLine(LStrip(s), 0, |Strip(s)|);
  }

  lemma {:induction false} FindNone(s: string, c: char)
    requires forall i | 0 <= i < |s| :: s[i] != c
    ensures Find(s, c) == |s|
  {
    if s != "" {
      FindNone(s[1..], c);
    }
  }

  /** What stripping leaves before the equals sign is a good key. */
  lemma KeyIsGood(stripped: string, eq: nat)
    requires Strip(stripped) == stripped && OneLine(stripped) && stripped != "" && stripped[0] != '#'
    requires eq < |stripped| && eq == Find(stripped, '=')
    ensures GoodKey(Strip(stripped[..eq]))
  {
    hide OneLine, IsSpace, Find, Strip;
    var part := stripped[..eq];
    var key := Strip(part);
    StrippedEnds(stripped);
    SliceOneLine(stripped, 0, eq);
    StripOneLine(part);
    StripTwice(part);
    if part != "" {
      assert part[0] == stripped[0];
    }
    StripEnd(part);
    FindNone(key, '=');
  }

  lemma StripEnd(s: string)
    requires s != "" ==> !IsSpace(s[0])
    ensures |Strip(s)| <= |s| && Strip(s) == s[..|Strip(s)|]
  {
    hide IsSpace;
    assert LStrip(s) == s;
  }

  lemma ValueIsGood(stripped: string, eq: nat)
    requires Strip(stripped) == stripped && OneLine(stripped) && eq < |stripped|
    ensures GoodValue(stripped[eq + 1..])
  {
    hide OneLine, IsSpace, Strip, RStrip;
    StrippedEnds(stripped);
    SliceOneLine(stripped, eq + 1, |stripped|);
    var value := stripped[eq + 1..];
    assert value == stripped[eq + 1..|stripped|];
    assert value != "" ==> value[|value| - 1] == stripped[|stripped| - 1];
    VisibleEndStays(value);
  }

  lemma EntryIsGood(line: string)
    requires OneLine(line) && Entry(line).Some?
    ensures GoodKey(Entry(line).value.key) && GoodValue(Entry(line).value.value)
  {
    hide OneLine, Strip, RStrip, Find, GoodKey, GoodValue;
    StripTwice(line);
    StripOneLine(line);
    KeyIsGood(Strip(line), Find(Strip(line), '='));
    ValueIsGood(Strip(line), Find(Strip(line), '='));
  }

  /** Whatever a file holds, its reader only ever gives good keys and good values. */
  lemma {:induction false} ReadIsGood(lines: seq<string>, key: string)
    requires (forall i | 0 <= i < |lines| :: OneLine(lines[i])) && Get(ReadLines(lines), key).Some?
    ensures GoodKey(key) && GoodValue(Get(ReadLines(lines), key).value)
  {
    hide OneLine, Entry, GoodKey, GoodValue;
    var last := lines[|lines| - 1];
    if Entry(last).Some? && Entry(last).value.key == key {
      EntryIsGood(last);
    } else {
      ReadIsGood(lines[..|lines| - 1], key);
    }
  }

  /**
   For every text and every dictionary of updates: all of them come back from the file as they were given exactly when
   every key is good and every value is on one line and without trailing whitespace.
   */
  lemma UpdatesReadBackIff(text: string, updates: seq<Pair>)
    requires DistinctKeys(updates)
    ensures GoodUpdates(updates) <==>
      forall i | 0 <= i < |updates| ::
        Get(ReadLines(SplitLines(UpsertText(text, updates))), updates[i].key) == Some(updates[i].value)
  {
    hide OneLine, Entry, EntryKey, UpsertText, ReadLines;
    var lines := SplitLines(UpsertText(text, updates));
    if GoodUpdates(updates) {
      forall i | 0 <= i < |updates| ensures Get(ReadLines(lines), updates[i].key) == Some(updates[i].value) {
        TextReadAfterUpsert(text, updates, updates[i].key);
        LookupOwn(updates, i);
      }
    } else {
      hide GoodKey, GoodValue;
      var i :| 0 <= i < |updates| && !(GoodKey(updates[i].key) && GoodValue(updates[i].value));
      if Get(ReadLines(lines), updates[i].key) == Some(updates[i].value) {
        ReadIsGood(lines, updates[i].key);
      }
    }
  }

  /** For one update under a good key: its value comes back from the file exactly when it is good. */
  lemma ValueReadsBackIff(text: string, p: Pair)
    requires GoodKey(p.key)
    ensures Get(ReadLines(SplitLines(UpsertText(text, [p]))), p.key) == Some(p.value) <==> GoodValue(p.value)
  {
    hide GoodKey, GoodValue, UpsertText, ReadLines;
    UpdatesReadBackIff(text, [p]);
    assert [p][0] == p;
  }

  lemma ShortEntry(key: char, value: char)
    requires !IsSpace(key) && key != '=' && key != '#' && !IsSpace(value)
    ensures Entry([key, '=', value]) == Some(Pair([key], [value]))
  {
    hide IsSpace, Strip, Entry, RStrip;
    var p := Pair([key], [value]);
    VisibleEndsStay(p.key);
    VisibleEndStays(p.value);
    FindNone(p.key, '=');
    EntryOfWritten(p);
    assert Written(p) == [key, '=', value];
  }

  lemma UpsertIntoNothing(p: Pair)
    ensures UpsertText("", [p]) == Written(p) + "\n"
  {
    hide Entry;
    assert SplitLines("") == [];
    assert !Mentions([], p.key);
    assert [p][1..] == [];
    assert Appended([], [p]) == [Written(p)] + Appended([], []);
    assert ReplacedAll([], [p]) == [];
    assert Upserted([], [p]) == [Written(p)];
  }

  lemma ReadTwo(first: string, second: string, p: Pair, q: Pair)
    requires Entry(first) == Some(p) && Entry(second) == Some(q)
    ensures ReadLines([first, second]) == map[][p.key := p.value][q.key := q.value]
  {
    hide Entry;
    assert [first, second][..1] == [first] && [first][..0] == [];
    assert ReadLines([first]) == map[][p.key := p.value];
  }

  /** A value with a line break inside: only its first line comes back, and the rest becomes an entry of its own. */
  lemma InnerBreakInjects()
    ensures var lines := SplitLines(UpsertText("", [Pair("K", "a\nO=b")]));
      && lines == ["K=a", "O=b"]
      && Get(ReadLines(lines), "K") == Some("a") && Get(ReadLines(lines), "O") == Some("b")
  {
    hide UpsertText, SplitLines, Entry, ReadLines;
    UpsertIntoNothing(Pair("K", "a\nO=b"));
    assert Written(Pair("K", "a\nO=b")) + "\n" == "K=a" + "\n" + "O=b\n";
    SplitFirst("K=a", "O=b\n");
    SplitFirst("O=b", "");
    assert "K=a" + "\n" + "O=b\n" == "K=a\nO=b\n" && "O=b" + "\n" + "" == "O=b\n";
    NoLines();
    ShortEntry('K', 'a');
    ShortEntry('O', 'b');
    ReadTwo("K=a", "O=b", Pair("K", "a"), Pair("O", "b"));
  }
}
