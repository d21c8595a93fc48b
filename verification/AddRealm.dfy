/** Adding a channel to the list in a dotenv file: read the file, merge the name, write the file back. */
module AddRealm {
  import opened Basics
  import opened Text
  import C = ChannelCsv
  import D = Dotenv

  const CHANNELS := "DISCORD_OS_CHANNELS"

  function InFile(text: string, key: string): Option<string> {
    D.Get(D.ReadLines(D.SplitLines(text)), key)
  }

  /** The list merged into: the file's, or the environment's if that is missing or empty. */
  function Current(text: string, env: string): string {
    match InFile(text, CHANNELS)
    case Some(list) => if list != "" then list else env
    case None => env
  }

  function Merged(text: string, env: string, name: string, id: string, json: C.Json): seq<C.Pair> {
    C.MergedPairs(Current(text, env), name, id, json)
  }

  /** The file afterwards. */
  function Added(text: string, env: string, name: string, id: string, json: C.Json): string {
    D.UpsertText(text, [D.Pair(CHANNELS, C.Render(Merged(text, env, name, id, json)))])
  }

  /** The list that file holds. */
  function ListIn(text: string): string {
    match InFile(text, CHANNELS)
    case Some(list) => list
    case None => ""
  }

  method AddRealm(text: string, env: string, name: string, id: string, json: C.Json) returns (written: string)
    ensures written == Added(text, env, name, id, json)
  {
    hide D.ReadLines, D.SplitLines, D.Upserted, D.JoinLines, C.MergedPairs, C.Render;
    var values := D.ReadDotenv(text);
    var list := if CHANNELS in values && values[CHANNELS] != "" then values[CHANNELS] else env;
    var merged := C.MergeNamedCsv(list, name, id, json);
    written := D.UpsertDotenv(text, [D.Pair(CHANNELS, merged)]);
  }

  // ---- Names and ids on one line

  ghost predicate AllOneLine(pairs: seq<C.Pair>) {
    forall p | p in pairs :: D.OneLine(p.name) && D.OneLine(p.id)
  }

  lemma LowerOneLine(s: string)
    ensures D.OneLine(Lower(s)) <==> D.OneLine(s)
  {
    forall i | 0 <= i < |s| ensures D.IsBreak(Lower(s)[i]) <==> D.IsBreak(s[i]) {
      assert Lower(s)[i] == LowerChar(s[i]);
    }
  }

  lemma {:induction false} SplitOneLine(s: string, c: char)
    requires D.OneLine(s)
    ensures forall i | 0 <= i < |C.SplitOn(s, c)| :: D.OneLine(C.SplitOn(s, c)[i])
    decreases |s|
  {
    hide D.OneLine;
    var k := Find(s, c);
    if k < |s| {
      D.SliceOneLine(s, 0, k);
      D.SliceOneLine(s, k + 1, |s|);
      assert s[k + 1..|s|] == s[k + 1..];
      SplitOneLine(s[k + 1..], c);
    }
  }

  lemma ItemOneLine(item: string)
    requires D.OneLine(item) && C.Item(item).Some?
    ensures D.OneLine(C.Item(item).value.name) && D.OneLine(C.Item(item).value.id)
  {
    hide D.OneLine, Strip, Lower;
    var k := Find(item, ':');
    D.SliceOneLine(item, 0, k);
    D.SliceOneLine(item, k + 1, |item|);
    assert item[0..k] == item[..k] && item[k + 1..|item|] == item[k + 1..];
    D.StripOneLine(item[..k]);
    D.StripOneLine(item[k + 1..]);
    LowerOneLine(Strip(item[..k]));
  }

  lemma {:induction false} FromItemsOneLine(items: seq<string>)
    requires forall i | 0 <= i < |items| :: D.OneLine(items[i])
    ensures AllOneLine(C.FromItems(items))
  {
    hide D.OneLine, C.Item;
    if items != [] {
      var last := items[|items| - 1];
      FromItemsOneLine(items[..|items| - 1]);
      if C.Item(last).Some? {
        ItemOneLine(last);
        var p := C.Item(last).value;
        C.PutHas(C.FromItems(items[..|items| - 1]), p.name, p.id);
      }
    }
  }

  /** A plain list on one line holds names and ids on one line. */
  lemma PlainOneLine(raw: string, json: C.Json)
    requires D.OneLine(raw) && !StartsWith(Strip(raw), "{")
    ensures AllOneLine(C.Mapping(raw, json))
  {
    hide D.OneLine, Strip, StartsWith, C.SplitOn, C.FromItems;
    D.StripOneLine(raw);
    SplitOneLine(Strip(raw), ',');
    FromItemsOneLine(C.SplitOn(Strip(raw), ','));
  }

  lemma JoinOneLine(a: string, b: string)
    ensures D.OneLine(a + b) <==> D.OneLine(a) && D.OneLine(b)
  {
    if D.OneLine(a + b) {
      assert forall i | 0 <= i < |a| :: a[i] == (a + b)[i];
      assert forall i | 0 <= i < |b| :: b[i] == (a + b)[|a| + i];
    }
  }

  lemma PrintedOneLine(p: C.Pair)
    ensures D.OneLine(C.Printed(p)) <==> D.OneLine(p.name) && D.OneLine(p.id)
  {
    hide D.OneLine;
    JoinOneLine(p.name + ":", p.id);
    JoinOneLine(p.name, ":");
    SeparatorsBreakNothing();
  }

  lemma SeparatorsBreakNothing()
    ensures D.OneLine(":") && D.OneLine(",") && D.OneLine("")
  {
  }

  /** A list is printed on one line exactly when all of its names and ids are on one. */
  lemma {:induction false} RenderOneLineIff(pairs: seq<C.Pair>)
    ensures D.OneLine(C.Render(pairs)) <==> AllOneLine(pairs)
  {
    hide D.OneLine, C.Render, C.Printed;
    SeparatorsBreakNothing();
    if pairs == [] {
      NothingPrinted();
    } else if |pairs| == 1 {
      C.RenderOne(pairs);
      PrintedOneLine(pairs[0]);
    } else {
      C.RenderMore(pairs);
      PrintedOneLine(pairs[0]);
      RenderOneLineIff(pairs[1..]);
      JoinOneLine(C.Printed(pairs[0]) + [','], C.Render(pairs[1..]));
      JoinOneLine(C.Printed(pairs[0]), [',']);
      assert pairs == [pairs[0]] + pairs[1..];
    }
  }

  lemma NothingPrinted()
    ensures C.Render([]) == ""
  {
  }

  /** The update is printed on one line, or an empty name or id keeps it out. */
  predicate FitsALine(name: string, id: string) {
    (D.OneLine(Strip(name)) && D.OneLine(Strip(id))) || Strip(name) == "" || Strip(id) == ""
  }

  lemma MergedOneLineIff(raw: string, name: string, id: string, json: C.Json)
    requires D.OneLine(raw) && !StartsWith(Strip(raw), "{")
    ensures AllOneLine(C.MergedPairs(raw, name, id, json)) <==> FitsALine(name, id)
  {
    hide D.OneLine, Strip, Lower, StartsWith, C.Mapping, C.Put, C.NonEmpty;
    PlainOneLine(raw, json);
    LowerOneLine(Strip(name));
    C.LowerEmpty(Strip(name));
    var p := C.Pair(Lower(Strip(name)), Strip(id));
    var all := C.Put(C.Mapping(raw, json), p.name, p.id);
    C.PutHas(C.Mapping(raw, json), p.name, p.id);
    C.NonEmptyFrom(all);
    if p.name != "" && p.id != "" {
      C.NonEmptyHas(all, p);
    }
    forall q | q in C.NonEmpty(all) && q != p ensures D.OneLine(q.name) && D.OneLine(q.id) {
      var i :| 0 <= i < |C.NonEmpty(all)| && C.NonEmpty(all)[i] == q;
    }
    if FitsALine(name, id) && p in C.NonEmpty(all) {
      var i :| 0 <= i < |C.NonEmpty(all)| && C.NonEmpty(all)[i] == p;
    }
  }

  // ---- What is printed ends visibly

  ghost predicate Trimmed(pairs: seq<C.Pair>) {
    forall p | p in pairs :: Strip(p.id) == p.id && p.id != ""
  }

  lemma MergedTrimmed(raw: string, name: string, id: string, json: C.Json)
    requires !StartsWith(Strip(raw), "{")
    ensures Trimmed(C.MergedPairs(raw, name, id, json))
  {
    hide Strip, Lower, StartsWith, C.Mapping, C.Put, C.NonEmpty;
    C.PlainMapping(raw, json);
    StripTwice(id);
    var mapping := C.Mapping(raw, json);
    var all := C.Put(mapping, Lower(Strip(name)), Strip(id));
    C.PutHas(mapping, Lower(Strip(name)), Strip(id));
    C.NonEmptyFrom(all);
    forall q | q in C.NonEmpty(all) ensures Strip(q.id) == q.id && q.id != "" {
      var i :| 0 <= i < |C.NonEmpty(all)| && C.NonEmpty(all)[i] == q;
      if q in mapping {
        var j :| 0 <= j < |mapping| && mapping[j] == q;
        assert C.Printable(mapping[j]);
      }
    }
  }

  lemma {:induction false} RenderTrimmed(pairs: seq<C.Pair>)
    requires Trimmed(pairs)
    ensures pairs != [] ==> C.Render(pairs) != "" && !IsSpace(C.Render(pairs)[|C.Render(pairs)| - 1])
    ensures RStrip(C.Render(pairs)) == C.Render(pairs)
  {
    hide IsSpace, Strip, RStrip, C.Render;
    if pairs == [] {
      NothingPrinted();
    } else if |pairs| == 1 {
      C.RenderOne(pairs);
      StrippedEnds(pairs[0].id);
    } else {
      C.RenderMore(pairs);
      RenderTrimmed(pairs[1..]);
    }
    VisibleEndStays(C.Render(pairs));
  }

  // ---- The file reads back

  /** No JSON text in the file stands for the very pairs just printed. */
  ghost predicate NoJsonOf(pairs: seq<C.Pair>, list: string, json: C.Json) {
    pairs != [] ==> C.NonEmpty(json(Strip(list))) != pairs
  }

  predicate IsCapital(c: char) {
    'A' <= c <= 'Z' || c == '_'
  }

  lemma CapitalIsPlain(c: char)
    requires IsCapital(c)
    ensures !IsSpace(c) && !D.IsBreak(c) && c != '=' && c != '#'
  {
  }

  lemma CapitalsAreGood(key: string)
    requires forall i | 0 <= i < |key| :: IsCapital(key[i])
    ensures D.GoodKey(key)
  {
    hide IsSpace, Strip, IsCapital, D.IsBreak;
    forall i | 0 <= i < |key| ensures !IsSpace(key[i]) && !D.IsBreak(key[i]) && key[i] != '=' && key[i] != '#' {
      CapitalIsPlain(key[i]);
    }
    VisibleEndsStay(key);
    D.FindNone(key, '=');
  }

  lemma ChannelsIsGood()
    ensures D.GoodKey(CHANNELS)
  {
    hide D.GoodKey;
    CapitalsAreGood(CHANNELS);
  }

  lemma ListIsGood(text: string)
    ensures D.OneLine(ListIn(text))
  {
    hide D.OneLine, D.ReadLines, D.SplitLines;
    SeparatorsBreakNothing();
    if InFile(text, CHANNELS).Some? {
      D.ReadIsGood(D.SplitLines(text), CHANNELS);
    }
  }

  /** What the file gives back is what was printed, as long as that is on one line. */
  lemma PrintedIsInFile(text: string, pairs: seq<C.Pair>)
    requires Trimmed(pairs) && AllOneLine(pairs)
    ensures ListIn(D.UpsertText(text, [D.Pair(CHANNELS, C.Render(pairs))])) == C.Render(pairs)
  {
    hide D.OneLine, D.UpsertText, D.ReadLines, D.SplitLines, D.GoodKey, C.Render, RStrip, AllOneLine, Trimmed;
    RenderTrimmed(pairs);
    RenderOneLineIff(pairs);
    ChannelsIsGood();
    D.ValueReadsBackIff(text, D.Pair(CHANNELS, C.Render(pairs)));
  }

  lemma NonEmptyOneLine(pairs: seq<C.Pair>)
    requires AllOneLine(pairs)
    ensures AllOneLine(C.NonEmpty(pairs))
  {
    hide D.OneLine;
    C.NonEmptyFrom(pairs);
  }

  /** A list on one line never stands for pairs that are not. */
  lemma OtherwiseNotThere(list: string, pairs: seq<C.Pair>, json: C.Json)
    requires D.OneLine(list) && !AllOneLine(pairs) && NoJsonOf(pairs, list, json)
    ensures C.Realms(list, json) != pairs
  {
    hide D.OneLine, Strip, StartsWith, C.NonEmpty;
    if Strip(list) != "" {
      if StartsWith(Strip(list), "{") {
      } else {
        PlainOneLine(list, json);
        NonEmptyOneLine(C.Mapping(list, json));
      }
    }
  }

  /**
   For every file, name and id, and a list that is plain: the file's list stands for the old pairs with that one set
   exactly when nothing in name and id is taken for a separator or breaks the line, or one of them is blank, and the
   first name printed does not start with a brace.
   */
  lemma AddReadsBackIff(text: string, env: string, name: string, id: string, json: C.Json)
    requires D.OneLine(env) && !StartsWith(Strip(Current(text, env)), "{")
    requires NoJsonOf(Merged(text, env, name, id, json), ListIn(Added(text, env, name, id, json)), json)
    ensures var pairs := Merged(text, env, name, id, json);
      C.Realms(ListIn(Added(text, env, name, id, json)), json) == pairs <==>
      C.Survives(name, id) && FitsALine(name, id) && !C.LooksLikeJson(pairs)
  {
    hide D.OneLine, Strip, StartsWith, C.Realms, C.Render, C.MergedPairs, C.Survives, C.LooksLikeJson, C.NonEmpty;
    hide D.UpsertText, AllOneLine, FitsALine, Trimmed, ListIn;
    var raw := Current(text, env);
    CurrentOneLine(text, env);
    var pairs := C.MergedPairs(raw, name, id, json);
    MergedTrimmed(raw, name, id, json);
    MergedOneLineIff(raw, name, id, json);
    if AllOneLine(pairs) {
      PrintedIsInFile(text, pairs);
      C.MergeSurvivesIff(raw, name, id, json);
    } else {
      ListIsGood(Added(text, env, name, id, json));
      OtherwiseNotThere(ListIn(Added(text, env, name, id, json)), pairs, json);
    }
  }

  lemma CurrentOneLine(text: string, env: string)
    requires D.OneLine(env)
    ensures D.OneLine(Current(text, env))
  {
    hide D.OneLine;
    ListIsGood(text);
  }

  /** The list one name was set in: its own id for that name, and what the old list had for every other. */
  predicate SetsOneName(before: string, after: string, name: string, id: string, json: C.Json, other: string) {
    C.Value(C.Realms(after, json), other) ==
    if other == Lower(Strip(name)) then (if other == "" || Strip(id) == "" then None else Some(Strip(id)))
    else C.Value(C.Realms(before, json), other)
  }

  lemma AddedSetsOneName(text: string, env: string, name: string, id: string, json: C.Json, other: string)
    requires D.OneLine(env) && !StartsWith(Strip(Current(text, env)), "{")
    requires C.Survives(name, id) && FitsALine(name, id) && !C.LooksLikeJson(Merged(text, env, name, id, json))
    ensures SetsOneName(Current(text, env), ListIn(Added(text, env, name, id, json)), name, id, json, other)
  {
    hide D.OneLine, Strip, Lower, StartsWith, C.Render, C.MergedPairs, C.Survives, C.LooksLikeJson;
    hide D.UpsertText, AllOneLine, FitsALine, Trimmed, ListIn, C.NonEmpty, C.Mapping;
    var raw := Current(text, env);
    CurrentOneLine(text, env);
    MergedTrimmed(raw, name, id, json);
    MergedOneLineIff(raw, name, id, json);
    PrintedIsInFile(text, C.MergedPairs(raw, name, id, json));
    C.MergeSetsOneName(raw, name, id, json, other);
    if Strip(raw) == "" {
      NothingInBlank(raw, json);
    }
  }

  lemma NothingInBlank(raw: string, json: C.Json)
    requires Strip(raw) == ""
    ensures C.NonEmpty(C.Mapping(raw, json)) == []
  {
    hide Strip;
    C.SplitWhole("", ',');
    assert [""][..0] == [];
  }

  /** Every other channel of the file's list survives an add, whatever the environment holds. */
  lemma OtherChannelsSurvive(text: string, list: string, env: string, name: string, id: string, json: C.Json,
                             other: string)
    requires InFile(text, CHANNELS) == Some(list) && list != "" && D.OneLine(env) && !StartsWith(Strip(list), "{")
    requires C.Survives(name, id) && FitsALine(name, id) && !C.LooksLikeJson(C.MergedPairs(list, name, id, json))
    ensures SetsOneName(list, ListIn(Added(text, env, name, id, json)), name, id, json, other)
  {
    hide D.OneLine, Strip, StartsWith, C.MergedPairs, C.Survives, C.LooksLikeJson;
    hide FitsALine, SetsOneName, Added, InFile;
    AddedSetsOneName(text, env, name, id, json, other);
  }

  /** Without a list in the file, it starts from the environment's. */
  lemma EnvironmentIsTheStart(text: string, env: string, name: string, id: string, json: C.Json, other: string)
    requires InFile(text, CHANNELS) in {None, Some("")} && D.OneLine(env) && !StartsWith(Strip(env), "{")
    requires C.Survives(name, id) && FitsALine(name, id) && !C.LooksLikeJson(C.MergedPairs(env, name, id, json))
    ensures SetsOneName(env, ListIn(Added(text, env, name, id, json)), name, id, json, other)
  {
    hide D.OneLine, Strip, StartsWith, C.MergedPairs, C.Survives, C.LooksLikeJson;
    hide FitsALine, SetsOneName, Added, InFile;
    AddedSetsOneName(text, env, name, id, json, other);
  }

  /** As long as it fits a line, the settings under every other key are what they were. */
  lemma OtherSettingsAreKept(text: string, env: string, name: string, id: string, json: C.Json, key: string)
    requires D.OneLine(env) && !StartsWith(Strip(Current(text, env)), "{") && FitsALine(name, id) && key != CHANNELS
    ensures InFile(Added(text, env, name, id, json), key) == InFile(text, key)
  {
    hide D.OneLine, Strip, StartsWith, C.Render, C.MergedPairs, D.UpsertText, AllOneLine, FitsALine, D.ReadLines;
    hide D.SplitLines, D.EntryKey;
    CurrentOneLine(text, env);
    MergedOneLineIff(Current(text, env), name, id, json);
    RenderOneLineIff(Merged(text, env, name, id, json));
    ChannelsIsGood();
    var updates := [D.Pair(CHANNELS, C.Render(Merged(text, env, name, id, json)))];
    D.TextReadAfterUpsert(text, updates, key);
    assert updates[1..] == [] && D.Lookup([], key).None?;
    assert D.Lookup(updates, key).None?;
  }

  lemma BrokenIdIsPrinted(json: C.Json)
    ensures Current("", "") == "" && Merged("", "", "a", "5\nO=b", json) == [C.Pair("a", "5\nO=b")]
  {
    hide C.Mapping, Strip, Lower;
    assert D.SplitLines("") == [] && D.ReadLines([]) == map[];
    C.NothingMapped(json);
    VisibleEndsStay("a");
    VisibleEndsStay("5\nO=b");
    LowerSame("a");
    C.OneThere(C.Pair("a", "5\nO=b"));
  }

  /** A line break inside an id: the list loses the rest of it, which becomes a setting of its own. */
  lemma BrokenIdInjects(json: C.Json)
    ensures var written := Added("", "", "a", "5\nO=b", json);
      ListIn(written) == "a:5" && InFile(written, "O") == Some("b")
  {
    hide C.MergedPairs, D.UpsertText, D.SplitLines, D.Entry, D.ReadLines, Merged, D.GoodKey, D.OneLine;
    BrokenIdIsPrinted(json);
    var (p, q) := (D.Pair(CHANNELS, "a:5"), D.Pair("O", "b"));
    D.UpsertIntoNothing(D.Pair(CHANNELS, "a:5\nO=b"));
    assert C.Render([C.Pair("a", "5\nO=b")]) == "a:5\nO=b";
    var written := Added("", "", "a", "5\nO=b", json);
    assert written == D.UpsertText("", [D.Pair(CHANNELS, "a:5\nO=b")]);
    assert written == D.Written(p) + "\n" + "O=b\n";
    WrittenListIsOneLine();
    D.SplitFirst(D.Written(p), "O=b\n");
    D.SplitFirst("O=b", "");
    assert "O=b" + "\n" + "" == "O=b\n";
    D.NoLines();
    ListEntry();
    D.ShortEntry('O', 'b');
    D.ReadTwo(D.Written(p), "O=b", p, q);
    assert D.SplitLines(written) == [D.Written(p), "O=b"];
    assert |CHANNELS| != |"O"|;
  }

  lemma WrittenListIsOneLine()
    ensures D.OneLine(D.Written(D.Pair(CHANNELS, "a:5"))) && D.OneLine("O=b")
  {
    hide D.OneLine, D.GoodKey;
    ChannelsIsOneLine();
    JoinOneLine(CHANNELS + "=", "a:5");
    JoinOneLine(CHANNELS, "=");
    ShortOneLines();
  }

  lemma ChannelsIsOneLine()
    ensures D.OneLine(CHANNELS)
  {
    hide D.OneLine;
    ChannelsIsGood();
  }

  lemma ShortOneLines()
    ensures D.OneLine("=") && D.OneLine("a:5") && D.OneLine("O=b")
  {
  }

  lemma ListEntry()
    ensures D.Entry(D.Written(D.Pair(CHANNELS, "a:5"))) == Some(D.Pair(CHANNELS, "a:5"))
  {
    hide D.OneLine, D.Entry, RStrip;
    ChannelsIsGood();
    VisibleEndStays("a:5");
    D.EntryOfWritten(D.Pair(CHANNELS, "a:5"));
  }
}
