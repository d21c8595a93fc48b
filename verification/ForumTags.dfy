/** Status tags of a forum post: finding them among the forum's tags, and keeping one of them on the post. */
module ForumTags {
  import opened Text

  const MAX_APPLIED_TAGS := 5

  datatype Tag = Tag(id: string, name: string)

  // ---- Names and statuses

  predicate IsAlnum(c: char) {
    'a' <= c <= 'z' || 'A' <= c <= 'Z' || '0' <= c <= '9'
  }

  predicate IsSeparator(c: char) {
    c == ' ' || c == '_' || c == '-' || c == '/'
  }

  /** A tag name so far: letters and digits, a hyphen for each run of separators between them. */
  function Scan(raw: string): string {
    if raw == "" then "" else Scanned(Scan(raw[..|raw| - 1]), raw[|raw| - 1])
  }

  function Scanned(out: string, c: char): string {
    if IsAlnum(c) then out + [c]
    else if IsSeparator(c) && out != "" && out[|out| - 1] != '-' then out + ['-']
    else out
  }

  function DropHyphen(s: string): string {
    if s != "" && s[|s| - 1] == '-' then s[..|s| - 1] else s
  }

  function Slugged(raw: string): string {
    DropHyphen(Scan(raw))
  }

  function NormalName(name: string): string {
    Slugged(Lower(Strip(name)))
  }

  /** A separator joins what stands on its two sides with one hyphen, or with none where a side is empty. */
  lemma SeparatorJoins(a: string, c: char, b: string)
    requires IsSeparator(c)
    ensures var (x, y) := (Slugged(a), Slugged(b));
      Slugged(a + [c] + b) == if x == "" then y else if y == "" then x else x + "-" + y
  {
    ScanAcross(a, c, b);
    ScanEnds(a);
    ScanEnds(b);
    hide Scan, Scanned, IsSeparator, DropHyphen;
    DropAfterSeparator(Scan(a), c, Scan(b));
  }

  lemma DropAfterSeparator(x: string, c: char, y: string)
    requires IsSeparator(c) && (DropHyphen(x) == "" ==> x == "") && (DropHyphen(y) == "" ==> y == "")
    ensures var (u, v) := (DropHyphen(x), DropHyphen(y));
      DropHyphen(Scanned(x, c) + y) == if u == "" then v else if v == "" then u else u + "-" + v
  {
    SeparatorIsNoLetter(c);
    hide IsSeparator, IsAlnum;
    if x == "" {
      assert "" + y == y;
    } else {
      var z := DropHyphen(x) + "-";
      assert Scanned(x, c) == z;
      if y == "" {
        assert z + y == z && z[..|z| - 1] == DropHyphen(x);
      } else {
        assert (z + y)[|z + y| - 1] == y[|y| - 1];
        assert y == y[..|y| - 1] + [y[|y| - 1]];
        assert (z + y)[..|z + y| - 1] == z + y[..|y| - 1];
      }
    }
  }

  lemma ScanMore(raw: string, c: char)
    ensures Scan(raw + [c]) == Scanned(Scan(raw), c)
  {
    assert (raw + [c])[..|raw|] == raw;
  }

  lemma {:induction false} ScanAcross(a: string, c: char, b: string)
    requires IsSeparator(c)
    ensures Scan(a + [c] + b) == Scanned(Scan(a), c) + Scan(b)
    decreases |b|
  {
    hide Scanned, IsSeparator, IsAlnum;
    if b == "" {
      ScanMore(a, c);
      assert a + [c] + b == a + [c];
    } else {
      var (before, last) := (b[..|b| - 1], b[|b| - 1]);
      ScanAcross(a, c, before);
      ScanMore(a + [c] + before, last);
      ScanMore(before, last);
      assert a + [c] + b == a + [c] + before + [last] && b == before + [last];
      hide Scan;
      ScannedAfter(Scan(a), c, Scan(before), last);
    }
  }

  lemma ScannedAfter(x: string, c: char, y: string, d: char)
    requires IsSeparator(c)
    ensures Scanned(Scanned(x, c) + y, d) == Scanned(x, c) + Scanned(y, d)
  {
    hide IsSeparator;
    SeparatorIsNoLetter(c);
    var z := Scanned(x, c);
    assert z == "" || z[|z| - 1] == '-';
    if y == "" {
      assert z + y == z;
    } else {
      assert (z + y)[|z + y| - 1] == y[|y| - 1];
    }
  }

  lemma SeparatorIsNoLetter(c: char)
    requires IsSeparator(c)
    ensures !IsAlnum(c)
  {
  }

  lemma {:induction false} ScanEnds(s: string)
    ensures DropHyphen(Scan(s)) == "" <==> Scan(s) == ""
  {
    if s != "" {
      ScanEnds(s[..|s| - 1]);
    }
  }

  /** Anything but letters, digits and separators is as if it were not there. */
  lemma {:induction false} OthersVanish(a: string, c: char, b: string)
    requires !IsAlnum(c) && !IsSeparator(c)
    ensures Scan(a + [c] + b) == Scan(a + b)
    decreases |b|
  {
    var (s, t) := (a + [c] + b, a + b);
    if b == "" {
      assert s[..|s| - 1] == a && t == a;
    } else {
      assert s[..|s| - 1] == a + [c] + b[..|b| - 1] && t[..|t| - 1] == a + b[..|b| - 1];
      OthersVanish(a, c, b[..|b| - 1]);
    }
  }

  /** A word of letters and digits stays. */
  lemma {:induction false} WordsStay(s: string)
    requires forall i | 0 <= i < |s| :: IsAlnum(s[i])
    ensures Scan(s) == s && Slugged(s) == s
  {
    if s != "" {
      WordsStay(s[..|s| - 1]);
      assert s == s[..|s| - 1] + [s[|s| - 1]];
    }
  }

  /** Starts with no hyphen and holds no two in a row. */
  predicate Hyphenated(s: string) {
    && (s != "" ==> s[0] != '-')
    && (forall i | 0 <= i < |s| :: s[i] == '-' || (IsAlnum(s[i]) && !('A' <= s[i] <= 'Z')))
    && (forall i | 0 < i < |s| :: s[i] == '-' ==> s[i - 1] != '-')
  }

  predicate Slug(s: string) {
    Hyphenated(s) && (s != "" ==> s[|s| - 1] != '-')
  }

  method NormalizeTagName(name: string) returns (key: string)
    ensures key == NormalName(name) && Slug(key)
  {
    hide Strip, Lower;
    var raw := Lower(Strip(name));
    var out := "";
    var afterSeparator := false;
    assert raw[..0] == "";
    for i := 0 to |raw|
      invariant out == Scan(raw[..i])
      invariant afterSeparator <==> out != "" && out[|out| - 1] == '-'
    {
      assert raw[..i + 1][..i] == raw[..i];
      ScanIsHyphenated(raw[..i]);
      if IsAlnum(raw[i]) {
        out := out + [raw[i]];
        afterSeparator := false;
        assert raw[i] != '-';
      } else if IsSeparator(raw[i]) {
        if !afterSeparator && out != "" {
          out := out + ['-'];
          afterSeparator := true;
        }
      }
    }
    assert raw[..|raw|] == raw;
    LowerHasNoCapitals(Strip(name));
    ScanIsHyphenated(raw);
    key := DropHyphen(out);
  }

  lemma LowerHasNoCapitals(s: string)
    ensures forall i | 0 <= i < |s| :: !('A' <= Lower(s)[i] <= 'Z')
  {
  }

  lemma {:induction false} ScanIsHyphenated(raw: string)
    ensures (forall i | 0 <= i < |raw| :: !('A' <= raw[i] <= 'Z')) ==> Hyphenated(Scan(raw))
  {
    if raw != "" {
      ScanIsHyphenated(raw[..|raw| - 1]);
    }
  }

  lemma {:induction false} ScanStays(s: string)
    requires Hyphenated(s)
    ensures Scan(s) == s
  {
    if s != "" {
      var (before, last) := (s[..|s| - 1], s[|s| - 1]);
      assert s == before + [last];
      ScanMore(before, last);
      hide Scan, IsAlnum;
      ScanStays(before);
      assert last == '-' ==> before != "" && before[|before| - 1] != '-';
      HyphenIsNoLetter();
    }
  }

  lemma HyphenIsNoLetter()
    ensures !IsAlnum('-')
  {
  }

  /** Normalising a name twice is normalising it once. */
  lemma NormalNameTwice(name: string)
    ensures Slug(NormalName(name)) && NormalName(NormalName(name)) == NormalName(name)
  {
    hide Strip;
    var raw := Lower(Strip(name));
    LowerHasNoCapitals(Strip(name));
    ScanIsHyphenated(raw);
    var key := NormalName(name);
    LowerSame(key);
    SlugEnds(key);
    VisibleEndsStay(key);
    ScanStays(key);
  }

  lemma SlugEnds(s: string)
    requires Slug(s)
    ensures s != "" ==> !IsSpace(s[0]) && !IsSpace(s[|s| - 1])
  {
  }

  /** The status a normalised name is an alias of, or "". */
  function Alias(key: string): string {
    if key in {"pending", "queued", "queue", "open", "new", "todo"} then "pending"
    else if key in {"running", "working", "inprogress", "in-progress", "in_progress", "progress", "live", "active"} then
      "running"
    else if key in {"completed", "complete", "done", "success"} then "completed"
    else if key in {"failed", "fail", "error", "need", "blocked"} then "failed"
    else if key in {"cancelled", "canceled", "cancel", "stopped"} then "cancelled"
    else ""
  }

  /** Every alias, by name. */
  lemma AliasesByName(key: string)
    ensures Alias(key) == "pending" <==> key in {"pending", "queued", "queue", "open", "new", "todo"}
    ensures Alias(key) == "running" <==>
      key in {"running", "working", "inprogress", "in-progress", "in_progress", "progress", "live", "active"}
    ensures Alias(key) == "completed" <==> key in {"completed", "complete", "done", "success"}
    ensures Alias(key) == "failed" <==> key in {"failed", "fail", "error", "need", "blocked"}
    ensures Alias(key) == "cancelled" <==> key in {"cancelled", "canceled", "cancel", "stopped"}
    ensures Alias(key) in {"", "pending", "running", "completed", "failed", "cancelled"}
  {
  }

  /** A name already normal stands for its alias; as a status it stands for itself if it is one. */
  lemma NormalNamesMean(key: string)
    requires Slug(key)
    ensures Alias(key) != "" ==> StatusOfName(key) == Alias(key)
    ensures StatusValue(key) == if IsStatus(key) then key else Alias(key)
  {
    hide Strip, Alias, IsSpace;
    NormalIsItself(key);
    SlugEnds(key);
    VisibleEndsStay(key);
    LowerSame(key);
    AliasOfProgress();
  }

  lemma AliasOfProgress()
    ensures Alias("progress") == "running"
  {
  }

  lemma NormalIsItself(key: string)
    requires Slug(key)
    ensures NormalName(key) == key
  {
    hide Strip, IsSpace;
    SlugEnds(key);
    VisibleEndsStay(key);
    LowerSame(key);
    ScanStays(key);
  }

  function WithoutHyphens(s: string): string {
    if s == "" then "" else if s[0] == '-' then WithoutHyphens(s[1..]) else [s[0]] + WithoutHyphens(s[1..])
  }

  /** The status a tag's name stands for, or "": its alias, or that of the name run together. */
  function StatusOfName(name: string): string {
    var key := NormalName(name);
    if Alias(key) != "" then Alias(key) else Alias(WithoutHyphens(key))
  }

  lemma {:induction false} HyphensGo(a: string, b: string)
    ensures WithoutHyphens(a + b) == WithoutHyphens(a) + WithoutHyphens(b)
  {
    if a == "" {
      assert a + b == b;
    } else {
      assert (a + b)[1..] == a[1..] + b;
      HyphensGo(a[1..], b);
    }
  }

  lemma {:induction false} NoHyphensStay(s: string)
    requires forall i | 0 <= i < |s| :: s[i] != '-'
    ensures WithoutHyphens(s) == s
  {
    if s != "" {
      NoHyphensStay(s[1..]);
      assert s == [s[0]] + s[1..];
    }
  }

  predicate IsWord(s: string) {
    s != "" && forall i | 0 <= i < |s| :: IsAlnum(s[i]) && !('A' <= s[i] <= 'Z')
  }

  /** Two words that are no alias with a hyphen between them stand for what they stand for run together. */
  lemma WordsRunTogether(a: string, b: string)
    requires IsWord(a) && IsWord(b)
    ensures StatusOfName(a + "-" + b) == if Alias(a + "-" + b) != "" then Alias(a + "-" + b) else Alias(a + b)
  {
    HyphenIsNoLetter();
    var key := a + "-" + b;
    assert Slug(key);
    NormalIsItself(key);
    hide NormalName, Alias, IsAlnum;
    HyphensGo(a + "-", b);
    HyphensGo(a, "-");
    NoHyphensStay(a);
    NoHyphensStay(b);
    assert "-"[1..] == "" && WithoutHyphens("-") == "";
    assert a + "" == a;
  }

  predicate IsStatus(s: string) {
    s == "pending" || s == "running" || s == "completed" || s == "failed" || s == "cancelled"
  }

  /** The status a caller means, or "". */
  function StatusValue(status: string): string {
    var text := Lower(Strip(status));
    if text == "progress" then "running" else if IsStatus(text) then text else Alias(NormalName(text))
  }

  /** Whatever is passed for a status becomes one of the five, or none, and stays that. */
  lemma StatusValueTwice(status: string)
    ensures var value := StatusValue(status);
      (value == "" || IsStatus(value)) && StatusValue(value) == value
  {
    hide Strip, NormalName;
    var value := StatusValue(status);
    assert value == "" || IsStatus(value);
    StatusStays(value);
  }

  lemma StatusStays(value: string)
    requires value == "" || IsStatus(value)
    ensures StatusValue(value) == value
  {
    hide Strip, Lower, IsSpace, Alias;
    VisibleStatus(value);
    VisibleEndsStay(value);
    LowerSame(value);
    if value == "" {
      NoName();
    }
  }

  lemma VisibleStatus(value: string)
    requires value == "" || IsStatus(value)
    ensures value != "" ==> !IsSpace(value[0]) && !IsSpace(value[|value| - 1])
    ensures forall i | 0 <= i < |value| :: !('A' <= value[i] <= 'Z')
  {
  }

  lemma NoName()
    ensures NormalName("") == "" && Alias("") == ""
  {
    VisibleEndsStay("");
    LowerSame("");
  }

  /** The tag is the first of the forum's that stands for its status. */
  ghost predicate FirstFor(available: seq<Tag>, i: nat)
    requires i < |available|
  {
    StatusOfName(available[i].name) != "" &&
    forall j | 0 <= j < i :: StatusOfName(available[j].name) != StatusOfName(available[i].name)
  }

  method BuildStatusTagIds(available: seq<Tag>) returns (ids: map<string, string>)
    ensures forall i | 0 <= i < |available| && FirstFor(available, i) ::
              StatusOfName(available[i].name) in ids && ids[StatusOfName(available[i].name)] == available[i].id
    ensures forall s | s in ids ::
              exists i | 0 <= i < |available| :: FirstFor(available, i) && StatusOfName(available[i].name) == s
  {
    hide StatusOfName;
    ids := map[];
    for n := 0 to |available|
      invariant forall i | 0 <= i < n && StatusOfName(available[i].name) != "" :: StatusOfName(available[i].name) in ids
      invariant forall i | 0 <= i < n && FirstFor(available, i) ::
                  StatusOfName(available[i].name) in ids && ids[StatusOfName(available[i].name)] == available[i].id
      invariant forall s | s in ids ::
                  exists i | 0 <= i < n :: FirstFor(available, i) && StatusOfName(available[i].name) == s
    {
      var status := StatusOfName(available[n].name);
      if status != "" && status !in ids {
        assert FirstFor(available, n);
        ids := ids[status := available[n].id];
      } else if status != "" {
        ghost var i :| 0 <= i < n && FirstFor(available, i) && StatusOfName(available[i].name) == status;
        assert !FirstFor(available, n);
      }
    }
  }

  // ---- Merging

  function Cleaned(tags: seq<string>): seq<string> {
    if tags == [] then []
    else if Strip(tags[0]) == "" then Cleaned(tags[1..])
    else [Strip(tags[0])] + Cleaned(tags[1..])
  }

  function Take(tags: seq<string>, n: nat): seq<string> {
    tags[..if |tags| <= n then |tags| else n]
  }

  /** The tags not in `skip`, each once, in order of first appearance. */
  function Others(tags: seq<string>, skip: set<string>): seq<string> {
    if tags == [] then []
    else if tags[0] in skip then Others(tags[1..], skip)
    else [tags[0]] + Others(tags[1..], skip + {tags[0]})
  }

  /** The tag of what the caller means by a status, or "". */
  function Target(ids: map<string, string>, status: string): string {
    var wanted := StatusValue(status);
    if wanted != "" && wanted in ids then Strip(ids[wanted]) else ""
  }

  function StatusIds(ids: map<string, string>): set<string> {
    set s | s in ids && Strip(ids[s]) != "" :: Strip(ids[s])
  }

  function Merged(current: seq<string>, status: string, ids: map<string, string>): seq<string> {
    var target := Target(ids, status);
    if target == "" then Take(Cleaned(current), MAX_APPLIED_TAGS)
    else [target] + Take(Others(Cleaned(current), StatusIds(ids)), MAX_APPLIED_TAGS - 1)
  }

  method MergeAppliedTags(current: seq<string>, status: string, ids: map<string, string>) returns (tags: seq<string>)
    ensures tags == Merged(current, status, ids)
  {
    hide Strip;
    var target := Target(ids, status);
    if target == "" {
      return Take(Cleaned(current), MAX_APPLIED_TAGS);
    }
    var statusIds := StatusIds(ids);
    TargetIsStatus(ids, status);
    tags := [target];
    var seen := {target};
    ghost var rest := Others(Cleaned(current), statusIds);
    assert statusIds + {target} == statusIds;
    assert current[0..] == current;
    for i := 0 to |current|
      invariant 1 <= |tags| < MAX_APPLIED_TAGS && tags[0] == target
      invariant tags + Others(Cleaned(current[i..]), statusIds + seen) == [target] + rest
    {
      var tag := Strip(current[i]);
      assert current[i..][1..] == current[i + 1..];
      if tag == "" || tag in seen || tag in statusIds {
        SkipOne(current[i..], statusIds + seen);
        continue;
      }
      KeepOne(current[i..], statusIds + seen);
      ghost var after := Others(Cleaned(current[i + 1..]), statusIds + seen + {tag});
      assert tags + ([tag] + after) == tags + [tag] + after;
      tags := tags + [tag];
      seen := seen + {tag};
      assert statusIds + (seen - {tag}) + {tag} == statusIds + seen;
      assert ([target] + rest)[1..] == rest;
      if |tags| >= MAX_APPLIED_TAGS {
        assert tags == ([target] + rest)[..5];
        return;
      }
    }
    assert current[|current|..] == [];
    assert tags + [] == tags;
  }

  lemma SkipOne(tags: seq<string>, skip: set<string>)
    requires tags != [] && (Strip(tags[0]) == "" || Strip(tags[0]) in skip)
    ensures Others(Cleaned(tags), skip) == Others(Cleaned(tags[1..]), skip)
  {
    hide Strip;
    if Strip(tags[0]) != "" {
      assert Cleaned(tags)[1..] == Cleaned(tags[1..]);
    }
  }

  lemma KeepOne(tags: seq<string>, skip: set<string>)
    requires tags != [] && Strip(tags[0]) != "" && Strip(tags[0]) !in skip
    ensures Others(Cleaned(tags), skip) == [Strip(tags[0])] + Others(Cleaned(tags[1..]), skip + {Strip(tags[0])})
  {
    hide Strip;
    assert Cleaned(tags)[1..] == Cleaned(tags[1..]);
  }

  lemma TargetIsStatus(ids: map<string, string>, status: string)
    requires Target(ids, status) != ""
    ensures Target(ids, status) in StatusIds(ids)
  {
    hide StatusValue, Strip;
  }

  // ---- What a run of status changes leaves

  function MergeRun(current: seq<string>, statuses: seq<string>, ids: map<string, string>): seq<string> {
    if statuses == [] then current
    else Merged(MergeRun(current, statuses[..|statuses| - 1], ids), statuses[|statuses| - 1], ids)
  }

  /** The tag of the last status that has one. */
  function LastTarget(statuses: seq<string>, ids: map<string, string>): string {
    if statuses == [] then ""
    else if Target(ids, statuses[|statuses| - 1]) != "" then Target(ids, statuses[|statuses| - 1])
    else LastTarget(statuses[..|statuses| - 1], ids)
  }

  /** The tags the run has to keep: a status without a tag, when it comes first, already cuts them to five. */
  function Base(current: seq<string>, statuses: seq<string>, ids: map<string, string>): seq<string> {
    if statuses != [] && Target(ids, statuses[0]) == "" then Take(Cleaned(current), MAX_APPLIED_TAGS)
    else Cleaned(current)
  }

  function FirstOthers(tags: seq<string>, ids: map<string, string>): seq<string> {
    Take(Others(tags, StatusIds(ids)), MAX_APPLIED_TAGS - 1)
  }

  ghost predicate Clean(tags: seq<string>) {
    forall i | 0 <= i < |tags| :: tags[i] != "" && Strip(tags[i]) == tags[i]
  }

  ghost predicate NoDuplicates(tags: seq<string>) {
    forall i, j | 0 <= i < j < |tags| :: tags[i] != tags[j]
  }

  lemma {:induction false} CleanedIsClean(tags: seq<string>)
    ensures Clean(Cleaned(tags))
  {
    hide Strip;
    if tags != [] {
      CleanedIsClean(tags[1..]);
      StripTwice(tags[0]);
    }
  }

  lemma {:induction false} CleanStays(tags: seq<string>)
    requires Clean(tags)
    ensures Cleaned(tags) == tags
  {
    hide Strip;
    if tags != [] {
      CleanStays(tags[1..]);
    }
  }

  /** Tags of `Others` are tags, none is skipped, and none comes twice. */
  lemma {:induction false} OthersProperties(tags: seq<string>, skip: set<string>)
    ensures var others := Others(tags, skip);
      && NoDuplicates(others) && |others| <= |tags|
      && forall i | 0 <= i < |others| :: others[i] !in skip && others[i] in tags
  {
    if tags != [] {
      OthersProperties(tags[1..], skip);
      OthersProperties(tags[1..], skip + {tags[0]});
    }
  }

  lemma {:induction false} OthersStay(tags: seq<string>, skip: set<string>)
    requires NoDuplicates(tags) && forall i | 0 <= i < |tags| :: tags[i] !in skip
    ensures Others(tags, skip) == tags
  {
    if tags != [] {
      OthersStay(tags[1..], skip + {tags[0]});
    }
  }

  /** Merging again finds the same others: those already kept. */
  lemma OthersOfMerged(target: string, tags: seq<string>, ids: map<string, string>)
    requires Clean(tags) && target in StatusIds(ids)
    ensures Clean([target] + FirstOthers(tags, ids))
    ensures FirstOthers([target] + FirstOthers(tags, ids), ids) == FirstOthers(tags, ids)
  {
    hide Strip, Others;
    var skip := StatusIds(ids);
    OthersProperties(tags, skip);
    var kept := FirstOthers(tags, ids);
    OthersStay(kept, skip);
    OthersSkip(target, kept, skip);
    StatusIdsClean(ids, target);
  }

  lemma OthersSkip(target: string, tags: seq<string>, skip: set<string>)
    requires target in skip
    ensures Others([target] + tags, skip) == Others(tags, skip)
  {
    assert ([target] + tags)[1..] == tags;
  }

  lemma StatusIdsClean(ids: map<string, string>, target: string)
    requires target in StatusIds(ids)
    ensures target != "" && Strip(target) == target
  {
    hide Strip;
    var s :| s in ids && Strip(ids[s]) == target;
    StripTwice(ids[s]);
  }

  /**
   After any run of status changes the post carries the tag of the last status that has one and the first four
   distinct other tags of the original, in order; statuses before it leave no trace.
   */
  lemma {:induction false} RunKeepsOneStatus(current: seq<string>, statuses: seq<string>, ids: map<string, string>)
    ensures var target := LastTarget(statuses, ids);
      var base := Base(current, statuses, ids);
      MergeRun(current, statuses, ids) ==
      if target != "" then [target] + FirstOthers(base, ids) else if statuses == [] then current else base
  {
    hide Strip, Others, StatusIds, FirstOthers, Target;
    if statuses != [] {
      var before := statuses[..|statuses| - 1];
      var status := statuses[|statuses| - 1];
      RunKeepsOneStatus(current, before, ids);
      CleanedIsClean(current);
      var base := Base(current, statuses, ids);
      assert before != [] ==> before[0] == statuses[0];
      if before == [] {
        MergedIs(current, status, ids);
      } else if LastTarget(before, ids) != "" {
        LastTargetIsStatus(before, ids);
        var tags := [LastTarget(before, ids)] + FirstOthers(base, ids);
        OthersOfMerged(LastTarget(before, ids), base, ids);
        CleanStays(tags);
        MergedIs(tags, status, ids);
        FirstOthersShort(base, ids);
      } else {
        FirstTarget(before, ids);
        CleanStays(base);
        MergedIs(base, status, ids);
      }
    }
  }

  lemma MergedIs(current: seq<string>, status: string, ids: map<string, string>)
    ensures Merged(current, status, ids) ==
            if Target(ids, status) == "" then Take(Cleaned(current), 5)
            else [Target(ids, status)] + FirstOthers(Cleaned(current), ids)
  {
  }

  lemma FirstOthersShort(tags: seq<string>, ids: map<string, string>)
    ensures |FirstOthers(tags, ids)| <= 4
  {
  }

  lemma {:induction false} FirstTarget(statuses: seq<string>, ids: map<string, string>)
    requires statuses != [] && LastTarget(statuses, ids) == ""
    ensures Target(ids, statuses[0]) == ""
  {
    hide Target;
    if |statuses| > 1 {
      FirstTarget(statuses[..|statuses| - 1], ids);
    }
  }

  lemma {:induction false} LastTargetIsStatus(statuses: seq<string>, ids: map<string, string>)
    requires LastTarget(statuses, ids) != ""
    ensures LastTarget(statuses, ids) in StatusIds(ids)
  {
    hide Target, StatusIds;
    var last := statuses[|statuses| - 1];
    if Target(ids, last) != "" {
      TargetIsStatus(ids, last);
    } else {
      LastTargetIsStatus(statuses[..|statuses| - 1], ids);
    }
  }

  /** So there are at most five tags, none twice, and exactly one of them is a status tag: the first. */
  lemma RunIsWellFormed(current: seq<string>, statuses: seq<string>, ids: map<string, string>)
    requires LastTarget(statuses, ids) != ""
    ensures var tags := MergeRun(current, statuses, ids);
      && 1 <= |tags| <= MAX_APPLIED_TAGS && NoDuplicates(tags) && tags[0] == LastTarget(statuses, ids)
      && forall i | 0 <= i < |tags| :: tags[i] in StatusIds(ids) <==> i == 0
  {
    hide Strip, Others, StatusIds, MergeRun, Base, LastTarget;
    RunKeepsOneStatus(current, statuses, ids);
    LastTargetIsStatus(statuses, ids);
    OthersProperties(Base(current, statuses, ids), StatusIds(ids));
  }

  /** From at most five tags the first four others of the original are kept, wherever statuses without a tag come. */
  lemma FewTagsAreAllCounted(current: seq<string>, statuses: seq<string>, ids: map<string, string>)
    requires |current| <= MAX_APPLIED_TAGS
    ensures Base(current, statuses, ids) == Cleaned(current)
  {
    hide Strip, Cleaned, Target;
    CleanedShort(current);
    var tags := Cleaned(current);
    assert tags[..|tags|] == tags;
  }

  lemma {:induction false} CleanedShort(tags: seq<string>)
    ensures |Cleaned(tags)| <= |tags|
  {
    hide Strip;
    if tags != [] {
      CleanedShort(tags[1..]);
    }
  }
}
