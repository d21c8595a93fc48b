/** The channel list kept in one setting: merging a name into it, against the parser that reads it back. */
module ChannelCsv {
  import opened Basics
  import opened Text

  datatype Pair = Pair(name: string, id: string)

  /** The entries of a JSON object, already normalised; none when the text is not one. */
  type Json = string -> seq<Pair>

  function SplitOn(s: string, c: char): (parts: seq<string>)
    ensures |parts| >= 1
    decreases |s|
  {
    var k := Find(s, c);
    if k == |s| then [s] else [s[..k]] + SplitOn(s[k + 1..], c)
  }

  function Item(item: string): Option<Pair> {
    var k := Find(item, ':');
    if k == |item| then None else Some(Pair(Lower(Strip(item[..k])), Strip(item[k + 1..])))
  }

  /** Setting a key of a dictionary: in place if it is there, else at the end. */
  function Put(pairs: seq<Pair>, name: string, id: string): seq<Pair> {
    if pairs == [] then [Pair(name, id)]
    else if pairs[0].name == name then [Pair(name, id)] + pairs[1..]
    else [pairs[0]] + Put(pairs[1..], name, id)
  }

  function FromItems(items: seq<string>): seq<Pair> {
    if items == [] then []
    else
      var before := FromItems(items[..|items| - 1]);
      match Item(items[|items| - 1])
      case None => before
      case Some(p) => Put(before, p.name, p.id)
  }

  function Mapping(raw: string, json: Json): seq<Pair> {
    var text := Strip(raw);
    if StartsWith(text, "{") then json(text) else FromItems(SplitOn(text, ','))
  }

  function NonEmpty(pairs: seq<Pair>): seq<Pair> {
    if pairs == [] then []
    else if pairs[0].name == "" || pairs[0].id == "" then NonEmpty(pairs[1..])
    else [pairs[0]] + NonEmpty(pairs[1..])
  }

  function Render(pairs: seq<Pair>): string {
    if pairs == [] then ""
    else if |pairs| == 1 then pairs[0].name + ":" + pairs[0].id
    else pairs[0].name + ":" + pairs[0].id + "," + Render(pairs[1..])
  }

  /** The pairs that a merge prints. */
  function MergedPairs(raw: string, name: string, value: string, json: Json): seq<Pair> {
    NonEmpty(Put(Mapping(raw, json), Lower(Strip(name)), Strip(value)))
  }

  /** The realms a text stands for. */
  function Realms(raw: string, json: Json): seq<Pair> {
    if Strip(raw) == "" then [] else NonEmpty(Mapping(raw, json))
  }

  method ReadPairs(text: string) returns (mapping: seq<Pair>)
    ensures mapping == FromItems(SplitOn(text, ','))
  {
    hide Strip, Lower, SplitOn;
    mapping := [];
    var items := SplitOn(text, ',');
    for i := 0 to |items|
      invariant mapping == FromItems(items[..i])
    {
      assert items[..i + 1][..i] == items[..i];
      var colon := Find(items[i], ':');
      if colon == |items[i]| {
        continue;
      }
      mapping := Put(mapping, Lower(Strip(items[i][..colon])), Strip(items[i][colon + 1..]));
    }
    assert items[..|items|] == items;
  }

  method MergeNamedCsv(raw: string, name: string, value: string, json: Json) returns (merged: string)
    ensures merged == Render(MergedPairs(raw, name, value, json))
  {
    var mapping: seq<Pair>;
    var text := Strip(raw);
    if StartsWith(text, "{") {
      mapping := json(text);
    } else {
      mapping := ReadPairs(text);
    }
    mapping := Put(mapping, Lower(Strip(name)), Strip(value));
    merged := Render(NonEmpty(mapping));
  }

  method ParseChannelRealms(raw: string, json: Json) returns (found: seq<Pair>)
    ensures found == Realms(raw, json)
  {
    hide FromItems, SplitOn, Strip, StartsWith;
    var text := Strip(raw);
    found := [];
    if text == "" {
      return;
    }
    var mapping: seq<Pair>;
    if StartsWith(text, "{") {
      mapping := json(text);
    } else {
      mapping := ReadPairs(text);
    }
    found := KeepNonEmpty(mapping);
  }

  method KeepNonEmpty(mapping: seq<Pair>) returns (found: seq<Pair>)
    ensures found == NonEmpty(mapping)
  {
    found := [];
    assert mapping[0..] == mapping;
    for i := 0 to |mapping|
      invariant found + NonEmpty(mapping[i..]) == NonEmpty(mapping)
    {
      assert mapping[i..][1..] == mapping[i + 1..];
      if mapping[i].name == "" || mapping[i].id == "" {
        continue;
      }
      assert found + ([mapping[i]] + NonEmpty(mapping[i + 1..])) == found + [mapping[i]] + NonEmpty(mapping[i + 1..]);
      found := found + [mapping[i]];
    }
    assert mapping[|mapping|..] == [];
    assert found + [] == found;
  }

  // ---- Pairs that survive printing

  predicate Without(s: string, c: char) {
    forall i | 0 <= i < |s| :: s[i] != c
  }

  /** A pair as the parser makes it, free of the separators. */
  predicate Printable(p: Pair) {
    && Lower(Strip(p.name)) == p.name && Strip(p.id) == p.id
    && Without(p.name, ',') && Without(p.name, ':') && Without(p.id, ',')
  }

  ghost predicate AllPrintable(pairs: seq<Pair>) {
    forall i | 0 <= i < |pairs| :: Printable(pairs[i])
  }

  ghost predicate DistinctNames(pairs: seq<Pair>) {
    forall i, j | 0 <= i < j < |pairs| :: pairs[i].name != pairs[j].name
  }

  lemma {:induction false} FindWithout(s: string, c: char)
    requires Without(s, c)
    ensures Find(s, c) == |s|
  {
    if s != "" {
      FindWithout(s[1..], c);
    }
  }

  /** Normalising a name twice is normalising it once. */
  lemma NormaliseTwice(s: string)
    ensures Lower(Strip(Lower(Strip(s)))) == Lower(Strip(s))
  {
    hide IsSpace, Strip;
    var x := Strip(s);
    StripTwice(s);
    if x != "" {
      StrippedEnds(x);
      LowerVisible(x[0]);
      LowerVisible(x[|x| - 1]);
    }
    VisibleEndsStay(Lower(x));
    assert Lower(Lower(x)) == Lower(x);
  }

  lemma LowerWithout(s: string, c: char)
    requires Without(s, c) && !('a' <= c <= 'z')
    ensures Without(Lower(s), c)
  {
  }

  lemma StripWithout(s: string, c: char)
    requires Without(s, c)
    ensures Without(Strip(s), c)
  {
    hide IsSpace, Blank, LStrip, RStrip;
    SliceWithout(s, c, |s| - |LStrip(s)|, |s|);
    SliceWithout(LStrip(s), c, 0, |Strip(s)|);
  }

  lemma SliceWithout(s: string, c: char, i: nat, j: nat)
    requires Without(s, c) && i <= j <= |s|
    ensures Without(s[i..j], c)
  {
  }

  lemma {:induction false} SplitWithout(s: string, c: char)
    ensures forall i | 0 <= i < |SplitOn(s, c)| :: Without(SplitOn(s, c)[i], c)
    decreases |s|
  {
    var k := Find(s, c);
    if k < |s| {
      SplitWithout(s[k + 1..], c);
    }
  }

  lemma ItemPrintable(item: string)
    requires Without(item, ',') && Item(item).Some?
    ensures Printable(Item(item).value)
  {
    hide Strip, Lower;
    var k := Find(item, ':');
    var (name, id) := (item[..k], item[k + 1..]);
    StripWithout(name, ',');
    StripWithout(name, ':');
    StripWithout(id, ',');
    LowerWithout(Strip(name), ',');
    LowerWithout(Strip(name), ':');
    NormaliseTwice(name);
    StripTwice(id);
  }

  lemma {:induction false} PutKeeps(pairs: seq<Pair>, name: string, id: string)
    requires AllPrintable(pairs) && DistinctNames(pairs) && Printable(Pair(name, id))
    ensures AllPrintable(Put(pairs, name, id)) && DistinctNames(Put(pairs, name, id))
    ensures forall i | 0 <= i < |Put(pairs, name, id)| ::
              Put(pairs, name, id)[i].name == name ||
              exists j | 0 <= j < |pairs| :: pairs[j].name == Put(pairs, name, id)[i].name
  {
    hide Printable;
    if pairs != [] && pairs[0].name != name {
      PutKeeps(pairs[1..], name, id);
      var rest := Put(pairs[1..], name, id);
      forall i | 0 <= i < |rest|
        ensures exists j | 0 <= j < |pairs| :: rest[i].name == name || pairs[j].name == rest[i].name
      {
        if rest[i].name != name {
          var j :| 0 <= j < |pairs[1..]| && pairs[1..][j].name == rest[i].name;
          assert pairs[j + 1].name == rest[i].name;
        }
      }
      forall i | 0 <= i < |rest| ensures rest[i].name != pairs[0].name {
        if rest[i].name != name {
          var j :| 0 <= j < |pairs[1..]| && pairs[1..][j].name == rest[i].name;
          assert pairs[0].name != pairs[j + 1].name;
        }
      }
    }
  }

  lemma {:induction false} FromItemsKeeps(items: seq<string>)
    requires forall i | 0 <= i < |items| :: Without(items[i], ',')
    ensures AllPrintable(FromItems(items)) && DistinctNames(FromItems(items))
  {
    hide Without, Item, Printable;
    if items != [] {
      FromItemsKeeps(items[..|items| - 1]);
      var last := items[|items| - 1];
      if Item(last).Some? {
        ItemPrintable(last);
        PutKeeps(FromItems(items[..|items| - 1]), Item(last).value.name, Item(last).value.id);
      }
    }
  }

  lemma {:induction false} NonEmptyFrom(pairs: seq<Pair>)
    ensures forall i | 0 <= i < |NonEmpty(pairs)| ::
              NonEmpty(pairs)[i] in pairs && NonEmpty(pairs)[i].name != "" && NonEmpty(pairs)[i].id != ""
  {
    if pairs != [] {
      NonEmptyFrom(pairs[1..]);
    }
  }

  lemma {:induction false} NonEmptyDistinct(pairs: seq<Pair>)
    requires DistinctNames(pairs)
    ensures DistinctNames(NonEmpty(pairs))
  {
    if pairs != [] {
      NonEmptyDistinct(pairs[1..]);
      NonEmptyFrom(pairs[1..]);
      var rest := NonEmpty(pairs[1..]);
      forall i | 0 <= i < |rest| ensures rest[i].name != pairs[0].name {
        var j :| 0 <= j < |pairs[1..]| && pairs[1..][j] == rest[i];
        assert pairs[j + 1] == rest[i];
      }
    }
  }

  lemma NonEmptyKeeps(pairs: seq<Pair>)
    requires AllPrintable(pairs) && DistinctNames(pairs)
    ensures AllPrintable(NonEmpty(pairs)) && DistinctNames(NonEmpty(pairs)) && AllThere(NonEmpty(pairs))
  {
    hide Printable, NonEmpty;
    NonEmptyFrom(pairs);
    NonEmptyDistinct(pairs);
  }

  // ---- Printing and reading back

  lemma {:induction false} SplitFirst(first: string, rest: string, c: char)
    requires Without(first, c)
    ensures SplitOn(first + [c] + rest, c) == [first] + SplitOn(rest, c)
  {
    FindWithout(first, c);
    FindIn(first, rest, c);
    var s := first + [c] + rest;
    assert s[..|first|] == first && s[|first| + 1..] == rest;
  }

  function Printed(p: Pair): string {
    p.name + ":" + p.id
  }

  lemma PrintedItem(p: Pair)
    requires Printable(p)
    ensures Without(Printed(p), ',') && Item(Printed(p)) == Some(p)
  {
    hide Strip, Lower;
    FindWithout(p.name, ':');
    FindIn(p.name, p.id, ':');
    assert Printed(p)[..|p.name|] == p.name && Printed(p)[|p.name| + 1..] == p.id;
  }

  function PrintedAll(pairs: seq<Pair>): (items: seq<string>)
    ensures |items| == |pairs|
  {
    seq(|pairs|, i requires 0 <= i < |pairs| => Printed(pairs[i]))
  }

  lemma {:induction false} SplitRendered(pairs: seq<Pair>)
    requires AllPrintable(pairs) && pairs != []
    ensures SplitOn(Render(pairs), ',') == PrintedAll(pairs)
  {
    hide Printable, Printed, Item, SplitOn;
    PrintedItem(pairs[0]);
    if |pairs| == 1 {
      RenderOne(pairs);
      SplitWhole(Printed(pairs[0]), ',');
    } else {
      SplitRendered(pairs[1..]);
      RenderMore(pairs);
      SplitFirst(Printed(pairs[0]), Render(pairs[1..]), ',');
      assert PrintedAll(pairs) == [Printed(pairs[0])] + PrintedAll(pairs[1..]);
    }
  }

  lemma RenderOne(pairs: seq<Pair>)
    requires |pairs| == 1
    ensures Render(pairs) == Printed(pairs[0])
  {
  }

  lemma RenderMore(pairs: seq<Pair>)
    requires |pairs| > 1
    ensures Render(pairs) == Printed(pairs[0]) + [','] + Render(pairs[1..])
  {
  }

  lemma SplitWhole(s: string, c: char)
    requires Without(s, c)
    ensures SplitOn(s, c) == [s]
  {
    FindWithout(s, c);
  }

  lemma {:induction false} PutNew(pairs: seq<Pair>, name: string, id: string)
    requires forall i | 0 <= i < |pairs| :: pairs[i].name != name
    ensures Put(pairs, name, id) == pairs + [Pair(name, id)]
  {
    if pairs != [] {
      PutNew(pairs[1..], name, id);
    }
  }

  lemma {:induction false} FromPrinted(pairs: seq<Pair>)
    requires AllPrintable(pairs) && DistinctNames(pairs)
    ensures FromItems(PrintedAll(pairs)) == pairs
  {
    hide Printable, Printed, Item;
    if pairs != [] {
      var (before, last) := (pairs[..|pairs| - 1], pairs[|pairs| - 1]);
      FromPrinted(before);
      assert PrintedAll(pairs)[..|pairs| - 1] == PrintedAll(before);
      PrintedItem(last);
      PutNew(before, last.name, last.id);
      assert pairs == before + [last];
    }
  }

  /** Names and ids that are there: each pair, and so the whole text, starts and ends visibly. */
  ghost predicate AllThere(pairs: seq<Pair>) {
    forall i | 0 <= i < |pairs| :: pairs[i].name != "" && pairs[i].id != ""
  }

  predicate VisibleEnds(s: string) {
    s != "" && !IsSpace(s[0]) && !IsSpace(s[|s| - 1])
  }

  lemma PrintedEnds(p: Pair)
    requires Printable(p) && p.name != "" && p.id != ""
    ensures VisibleEnds(Printed(p)) && Printed(p)[0] == p.name[0]
  {
    hide IsSpace, Strip;
    NormalisedStart(p.name);
    StrippedEnds(p.id);
  }

  lemma NormalisedStart(name: string)
    requires Lower(Strip(name)) == name && name != ""
    ensures !IsSpace(name[0])
  {
    hide IsSpace, Strip;
    StripTwice(name);
    StrippedEnds(Strip(name));
    LowerVisible(Strip(name)[0]);
  }

  lemma {:induction false} RenderEnds(pairs: seq<Pair>)
    requires pairs != [] && AllPrintable(pairs) && AllThere(pairs)
    ensures VisibleEnds(Render(pairs)) && Render(pairs)[0] == pairs[0].name[0]
  {
    hide Printable, Render, Printed, VisibleEnds;
    PrintedEnds(pairs[0]);
    if |pairs| == 1 {
      RenderOne(pairs);
      EndsAreThere(Printed(pairs[0]));
    } else {
      RestFine(pairs);
      RenderMore(pairs);
      RenderEnds(pairs[1..]);
      JoinedEnds(Printed(pairs[0]), Render(pairs[1..]));
    }
  }

  lemma RestFine(pairs: seq<Pair>)
    requires pairs != [] && AllPrintable(pairs) && AllThere(pairs)
    ensures AllPrintable(pairs[1..]) && AllThere(pairs[1..])
  {
    hide Printable;
  }

  lemma EndsAreThere(s: string)
    requires VisibleEnds(s)
    ensures s != ""
  {
  }

  lemma JoinedEnds(a: string, b: string)
    requires VisibleEnds(a) && VisibleEnds(b)
    ensures VisibleEnds(a + [','] + b) && (a + [','] + b)[0] == a[0]
  {
    hide IsSpace;
  }

  lemma {:induction false} AllThereStays(pairs: seq<Pair>)
    requires AllThere(pairs)
    ensures NonEmpty(pairs) == pairs
  {
    if pairs != [] {
      AllThereStays(pairs[1..]);
    }
  }

  predicate LooksLikeJson(pairs: seq<Pair>) {
    pairs != [] && pairs[0].name != "" && pairs[0].name[0] == '{'
  }

  /** Printed pairs are read back as they were, unless the first name makes the text look like JSON. */
  lemma ReadBack(pairs: seq<Pair>, json: Json)
    requires AllPrintable(pairs) && DistinctNames(pairs) && AllThere(pairs)
    ensures Realms(Render(pairs), json) == if LooksLikeJson(pairs) then NonEmpty(json(Render(pairs))) else pairs
  {
    hide Printable, IsSpace, Strip, SplitOn, FromItems, Printed;
    if pairs == [] {
      VisibleEndsStay("");
    } else {
      RenderEnds(pairs);
      EndsAreThere(Render(pairs));
      VisibleEndsStay(Render(pairs));
      SplitRendered(pairs);
      FromPrinted(pairs);
      AllThereStays(pairs);
      assert StartsWith(Render(pairs), "{") <==> Render(pairs)[0] == '{' by {
        assert Render(pairs)[..1] == [Render(pairs)[0]];
      }
    }
  }

  /** No JSON object is read as the list that was printed as its text. */
  ghost predicate NotItsOwnJson(pairs: seq<Pair>, json: Json) {
    pairs != [] ==> NonEmpty(json(Strip(Render(pairs)))) != pairs
  }

  lemma RealmsPrintable(text: string, json: Json)
    requires !StartsWith(Strip(text), "{")
    ensures AllPrintable(Realms(text, json))
  {
    hide Strip, SplitOn, FromItems, Without, Printable, StartsWith;
    SplitWithout(Strip(text), ',');
    FromItemsKeeps(SplitOn(Strip(text), ','));
    NonEmptyKeeps(FromItems(SplitOn(Strip(text), ',')));
  }

  /** Printed pairs are read back exactly when each is free of the separators and the text does not look like JSON. */
  lemma ReadBackIff(pairs: seq<Pair>, json: Json)
    requires DistinctNames(pairs) && AllThere(pairs) && NotItsOwnJson(pairs, json)
    ensures Realms(Render(pairs), json) == pairs <==> AllPrintable(pairs) && !LooksLikeJson(pairs)
  {
    hide Printable, Strip, Render, Realms;
    if AllPrintable(pairs) {
      ReadBack(pairs, json);
      PrintedJson(pairs, json);
    } else if !StartsWith(Strip(Render(pairs)), "{") {
      RealmsPrintable(Render(pairs), json);
    } else {
      JsonRealms(pairs, json);
    }
  }

  lemma PrintedJson(pairs: seq<Pair>, json: Json)
    requires AllPrintable(pairs) && AllThere(pairs)
    ensures pairs != [] ==> Strip(Render(pairs)) == Render(pairs)
  {
    hide Printable, IsSpace, Strip, Render;
    if pairs != [] {
      RenderEnds(pairs);
      VisibleEndsStay(Render(pairs));
    }
  }

  lemma JsonRealms(pairs: seq<Pair>, json: Json)
    requires NotItsOwnJson(pairs, json) && StartsWith(Strip(Render(pairs)), "{") && pairs != []
    ensures Realms(Render(pairs), json) != pairs
  {
    hide Strip, Render;
  }

  // ---- Merging

  /** Nothing in the name or the value is taken for a separator. */
  predicate Plain(name: string, value: string) {
    Without(name, ',') && Without(name, ':') && Without(value, ',')
  }

  /** The update is printed as it was meant: it is plain, or an empty name or value keeps it out. */
  predicate Survives(name: string, value: string) {
    Plain(name, value) || Strip(name) == "" || Strip(value) == ""
  }

  lemma LowerKeepsOut(s: string, c: char)
    requires Without(Lower(s), c) && !('A' <= c <= 'Z') && !('a' <= c <= 'z')
    ensures Without(s, c)
  {
    forall i | 0 <= i < |s| ensures s[i] != c {
      assert Lower(s)[i] == LowerChar(s[i]);
    }
  }

  lemma StripSplit(s: string) returns (head: string, tail: string)
    ensures Blank(head) && Blank(tail) && s == head + (Strip(s) + tail)
  {
    hide IsSpace, Blank, LStrip, RStrip;
    var x := LStrip(s);
    head, tail := s[..|s| - |x|], x[|RStrip(x)|..];
    assert x == RStrip(x) + tail;
    assert s == head + x;
  }

  lemma BlankWithout(s: string, c: char)
    requires Blank(s) && !IsSpace(c)
    ensures Without(s, c)
  {
    hide IsSpace;
  }

  lemma WithoutConcat(a: string, b: string, c: char)
    requires Without(a, c) && Without(b, c)
    ensures Without(a + b, c)
  {
  }

  lemma StripKeepsOut(s: string, c: char)
    requires Without(Strip(s), c) && !IsSpace(c)
    ensures Without(s, c)
  {
    hide IsSpace, Blank, Strip, Without;
    var head, tail := StripSplit(s);
    BlankWithout(head, c);
    BlankWithout(tail, c);
    WithoutConcat(Strip(s), tail, c);
    WithoutConcat(head, Strip(s) + tail, c);
  }

  /** Stripping and lower case neither bring in nor take out a separator. */
  lemma PrintableIffPlain(name: string, value: string)
    ensures Printable(Pair(Lower(Strip(name)), Strip(value))) <==> Plain(name, value)
  {
    if Plain(name, value) {
      NewPairPrintable(name, value);
    }
    if Printable(Pair(Lower(Strip(name)), Strip(value))) {
      hide Strip, Lower;
      SeparatorsAreVisible();
      LowerKeepsOut(Strip(name), ',');
      LowerKeepsOut(Strip(name), ':');
      StripKeepsOut(name, ',');
      StripKeepsOut(name, ':');
      StripKeepsOut(value, ',');
    }
  }

  lemma SeparatorsAreVisible()
    ensures !IsSpace(',') && !IsSpace(':')
  {
  }

  lemma NewPairPrintable(name: string, value: string)
    requires Plain(name, value)
    ensures Printable(Pair(Lower(Strip(name)), Strip(value)))
  {
    hide Strip, Lower, Without;
    StripWithout(name, ',');
    StripWithout(name, ':');
    StripWithout(value, ',');
    LowerWithout(Strip(name), ',');
    LowerWithout(Strip(name), ':');
    NormaliseTwice(name);
    StripTwice(value);
  }

  lemma {:induction false} PutHas(pairs: seq<Pair>, name: string, id: string)
    ensures Pair(name, id) in Put(pairs, name, id)
    ensures forall p | p in Put(pairs, name, id) :: p in pairs || p == Pair(name, id)
  {
    if pairs != [] && pairs[0].name != name {
      PutHas(pairs[1..], name, id);
      assert pairs == [pairs[0]] + pairs[1..];
    }
  }

  lemma {:induction false} PutDistinct(pairs: seq<Pair>, name: string, id: string)
    requires DistinctNames(pairs)
    ensures DistinctNames(Put(pairs, name, id))
  {
    if pairs != [] && pairs[0].name != name {
      PutDistinct(pairs[1..], name, id);
      PutHas(pairs[1..], name, id);
      var rest := Put(pairs[1..], name, id);
      forall i | 0 <= i < |rest| ensures rest[i].name != pairs[0].name {
        if rest[i] in pairs[1..] {
          var j :| 0 <= j < |pairs[1..]| && pairs[1..][j] == rest[i];
          assert pairs[j + 1] == rest[i];
        }
      }
    }
  }

  lemma {:induction false} NonEmptyHas(pairs: seq<Pair>, p: Pair)
    requires p in pairs && p.name != "" && p.id != ""
    ensures p in NonEmpty(pairs)
  {
    if pairs[0] != p {
      assert pairs == [pairs[0]] + pairs[1..];
      NonEmptyHas(pairs[1..], p);
    }
  }

  /** A plain list is a dictionary of pairs free of separators. */
  lemma PlainMapping(raw: string, json: Json)
    requires !StartsWith(Strip(raw), "{")
    ensures AllPrintable(Mapping(raw, json)) && DistinctNames(Mapping(raw, json))
  {
    hide Strip, SplitOn, FromItems, Without, Printable, StartsWith;
    SplitWithout(Strip(raw), ',');
    FromItemsKeeps(SplitOn(Strip(raw), ','));
  }

  lemma MergedIsDictionary(raw: string, name: string, value: string, json: Json)
    requires !StartsWith(Strip(raw), "{")
    ensures var pairs := MergedPairs(raw, name, value, json); DistinctNames(pairs) && AllThere(pairs)
  {
    hide Strip, Lower, Mapping, StartsWith;
    PlainMapping(raw, json);
    var all := Put(Mapping(raw, json), Lower(Strip(name)), Strip(value));
    PutDistinct(Mapping(raw, json), Lower(Strip(name)), Strip(value));
    NonEmptyDistinct(all);
    NonEmptyFrom(all);
  }

  /** All that is printed is free of separators exactly when the update survives. */
  lemma MergedPrintableIff(raw: string, name: string, value: string, json: Json)
    requires !StartsWith(Strip(raw), "{")
    ensures AllPrintable(MergedPairs(raw, name, value, json)) <==> Survives(name, value)
  {
    hide Strip, Lower, Mapping, StartsWith, Printable, Plain, NonEmpty, Put;
    PlainMapping(raw, json);
    PrintableIffPlain(name, value);
    var p := Pair(Lower(Strip(name)), Strip(value));
    assert (p.name == "" || p.id == "") <==> (Strip(name) == "" || Strip(value) == "") by {
      LowerEmpty(Strip(name));
    }
    var all := Put(Mapping(raw, json), p.name, p.id);
    PutHas(Mapping(raw, json), p.name, p.id);
    NonEmptyFrom(all);
    var pairs := NonEmpty(all);
    if Survives(name, value) {
      forall i | 0 <= i < |pairs| ensures Printable(pairs[i]) {
        if pairs[i] in Mapping(raw, json) {
          var j :| 0 <= j < |Mapping(raw, json)| && Mapping(raw, json)[j] == pairs[i];
        }
      }
    } else {
      NonEmptyHas(all, p);
      var i :| 0 <= i < |pairs| && pairs[i] == p;
    }
  }

  lemma LowerEmpty(s: string)
    ensures Lower(s) == "" <==> s == ""
  {
  }

  /**
   For every plain list, name and value: what a merge prints is read back exactly when nothing in the name or the
   value is taken for a separator, or one of them is blank, and the first name printed does not start with a brace.
   */
  lemma MergeSurvivesIff(raw: string, name: string, value: string, json: Json)
    requires !StartsWith(Strip(raw), "{") && NotItsOwnJson(MergedPairs(raw, name, value, json), json)
    ensures var pairs := MergedPairs(raw, name, value, json);
      Realms(Render(pairs), json) == pairs <==> Survives(name, value) && !LooksLikeJson(pairs)
  {
    hide MergedPairs, StartsWith, Strip, Survives, AllPrintable, DistinctNames, AllThere, Realms, NotItsOwnJson;
    MergedIsDictionary(raw, name, value, json);
    MergedPrintableIff(raw, name, value, json);
    ReadBackIff(MergedPairs(raw, name, value, json), json);
  }

  /** A merge that survives, parsed: the old pairs with that one set, or whatever JSON makes of a text with a brace. */
  lemma MergeThenParse(raw: string, name: string, value: string, json: Json)
    requires !StartsWith(Strip(raw), "{") && Survives(name, value)
    ensures var pairs := MergedPairs(raw, name, value, json);
      Realms(Render(pairs), json) == if LooksLikeJson(pairs) then NonEmpty(json(Render(pairs))) else pairs
  {
    hide MergedPairs, StartsWith, Strip, Survives, AllPrintable, DistinctNames, AllThere, Realms, Render, LooksLikeJson;
    MergedIsDictionary(raw, name, value, json);
    MergedPrintableIff(raw, name, value, json);
    ReadBack(MergedPairs(raw, name, value, json), json);
  }

  lemma NothingMapped(json: Json)
    ensures Mapping("", json) == []
  {
    hide Strip;
    VisibleEndsStay("");
    SplitWhole("", ',');
    assert [""][..0] == [];
  }

  lemma CommaIsPrinted(json: Json)
    ensures MergedPairs("", "a,b", "5", json) == [Pair("a,b", "5")]
  {
    hide Mapping, Strip, Lower;
    NothingMapped(json);
    VisibleEndsStay("a,b");
    VisibleEndsStay("5");
    LowerSame("a,b");
    OneThere(Pair("a,b", "5"));
  }

  lemma OneThere(p: Pair)
    requires p.name != "" && p.id != ""
    ensures NonEmpty([p]) == [p]
  {
    assert [p][1..] == [];
  }

  lemma CommaIsRead()
    ensures FromItems(SplitOn("a,b:5", ',')) == [Pair("b", "5")]
  {
    hide Strip, Lower, SplitOn, Find, Item, FromItems;
    SplitFirst("a", "b:5", ',');
    SplitWhole("b:5", ',');
    assert "a" + [','] + "b:5" == "a,b:5" && Printed(Pair("b", "5")) == "b:5";
    VisibleEndsStay("b");
    VisibleEndsStay("5");
    LowerSame("b");
    FromOne("a", Pair("b", "5"));
  }

  lemma FromOne(junk: string, p: Pair)
    requires Without(junk, ':') && Printable(p)
    ensures FromItems([junk] + [Printed(p)]) == [p]
  {
    hide Strip, Lower, Printed;
    FindWithout(junk, ':');
    PrintedItem(p);
    var items := [junk] + [Printed(p)];
    assert items[..1] == [junk] && [junk][..0] == [];
    assert FromItems([junk]) == [];
  }

  /** A comma in the name: the part before it is lost, and the rest gets the id. */
  lemma CommaInNameIsLost(json: Json)
    ensures Realms(Render(MergedPairs("", "a,b", "5", json)), json) == [Pair("b", "5")]
  {
    hide MergedPairs, Strip, FromItems, SplitOn;
    CommaIsPrinted(json);
    CommaIsRead();
    assert Render([Pair("a,b", "5")]) == "a,b:5";
    VisibleEndsStay("a,b:5");
    OneThere(Pair("b", "5"));
  }

  function Value(pairs: seq<Pair>, name: string): Option<string> {
    if pairs == [] then None else if pairs[0].name == name then Some(pairs[0].id) else Value(pairs[1..], name)
  }

  lemma {:induction false} ValuePut(pairs: seq<Pair>, name: string, id: string, other: string)
    ensures Value(Put(pairs, name, id), other) == if other == name then Some(id) else Value(pairs, other)
  {
    if pairs != [] && pairs[0].name != name {
      ValuePut(pairs[1..], name, id, other);
    }
  }

  lemma {:induction false} ValueNonEmpty(pairs: seq<Pair>, name: string)
    requires DistinctNames(pairs)
    ensures Value(NonEmpty(pairs), name) ==
            if name == "" || Value(pairs, name) == Some("") then None else Value(pairs, name)
  {
    if pairs != [] {
      ValueNonEmpty(pairs[1..], name);
      if pairs[0].name == name {
        NoValue(pairs[1..], name);
      }
    }
  }

  lemma {:induction false} NoValue(pairs: seq<Pair>, name: string)
    requires forall i | 0 <= i < |pairs| :: pairs[i].name != name
    ensures Value(pairs, name).None?
  {
    if pairs != [] {
      NoValue(pairs[1..], name);
    }
  }

  function NamesOf(pairs: seq<Pair>): seq<string> {
    if pairs == [] then [] else [pairs[0].name] + NamesOf(pairs[1..])
  }

  /** A name that is set keeps its place; a new one comes last. */
  lemma {:induction false} SettingKeepsPlaces(pairs: seq<Pair>, name: string, id: string)
    ensures NamesOf(Put(pairs, name, id)) == NamesOf(pairs) + if name in NamesOf(pairs) then [] else [name]
  {
    if pairs == [] {
      NameOne(Pair(name, id), []);
    } else if pairs[0].name == name {
      NameOne(Pair(name, id), pairs[1..]);
    } else {
      SettingKeepsPlaces(pairs[1..], name, id);
      NameOne(pairs[0], Put(pairs[1..], name, id));
    }
  }

  lemma NameOne(p: Pair, rest: seq<Pair>)
    ensures NamesOf([p] + rest) == [p.name] + NamesOf(rest)
  {
    assert ([p] + rest)[1..] == rest;
  }

  /** The id that the last item naming it gives a name. */
  function LastFor(items: seq<string>, name: string): Option<string> {
    if items == [] then None
    else
      var last := items[|items| - 1];
      var colon := Find(last, ':');
      if colon < |last| && Lower(Strip(last[..colon])) == name then Some(Strip(last[colon + 1..]))
      else LastFor(items[..|items| - 1], name)
  }

  /** A plain list gives each name the id after the colon of the last item that names it. */
  lemma {:induction false} LastItemCounts(items: seq<string>, name: string)
    ensures Value(FromItems(items), name) == LastFor(items, name)
  {
    hide Strip, Lower;
    if items != [] {
      var last := items[|items| - 1];
      LastItemCounts(items[..|items| - 1], name);
      if Item(last).Some? {
        ValuePut(FromItems(items[..|items| - 1]), Item(last).value.name, Item(last).value.id, name);
      }
    }
  }

  /** When it is read back, one name is set, or removed by an empty value, and every other name keeps its id. */
  lemma MergeSetsOneName(raw: string, name: string, value: string, json: Json, other: string)
    requires !StartsWith(Strip(raw), "{")
    requires Survives(name, value) && !LooksLikeJson(MergedPairs(raw, name, value, json))
    ensures var after := Realms(Render(MergedPairs(raw, name, value, json)), json);
      var key := Lower(Strip(name));
      Value(after, other) ==
      if other == key then (if key == "" || Strip(value) == "" then None else Some(Strip(value)))
      else Value(NonEmpty(Mapping(raw, json)), other)
  {
    hide Strip, Lower, Mapping, StartsWith, Survives, Realms, Render, AllPrintable, LooksLikeJson;
    MergedIsDictionary(raw, name, value, json);
    MergedPrintableIff(raw, name, value, json);
    ReadBack(MergedPairs(raw, name, value, json), json);
    var p := Pair(Lower(Strip(name)), Strip(value));
    var pairs := Mapping(raw, json);
    PlainMapping(raw, json);
    PutDistinct(pairs, p.name, p.id);
    ValueNonEmpty(pairs, other);
    ValueNonEmpty(Put(pairs, p.name, p.id), other);
    ValuePut(pairs, p.name, p.id, other);
  }
}
