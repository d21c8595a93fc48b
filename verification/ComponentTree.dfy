/**
 Components V2 trees as values: what `fit_components_v2` is allowed to remove
 and what it has to keep. `Layout.dfy` holds the code that does it in place.
 */
module ComponentTree {
  import opened Basics

  const TYPE_ACTION_ROW := 1
  const TYPE_BUTTON := 2
  const TYPE_STRING_SELECT := 3
  const TYPE_TEXT := 10
  const TRIM_MARKER := "\n[trimmed]"

  /** One component without its nested list. `fields` stands for every other key. */
  datatype Leaf = Leaf(kind: int, content: string, fields: int)

  /** A list element: a non-dict value, or a component with its accessory and its nested list. */
  datatype Item =
    | Junk(value: int)
    | Comp(kind: int, content: string, fields: int, accessory: Option<Leaf>, children: seq<Item>)

  predicate IsControl(kind: int) {
    kind == TYPE_ACTION_ROW || kind == TYPE_BUTTON || kind == TYPE_STRING_SELECT
  }

  // ---- Components in document order

  /** A component and its accessory. */
  function Heads(kind: int, content: string, fields: int, accessory: Option<Leaf>): seq<Leaf> {
    if accessory.Some? then [Leaf(kind, content, fields), accessory.value] else [Leaf(kind, content, fields)]
  }

  function NodesOf(item: Item): seq<Leaf>
    decreases item, 1
  {
    match item
    case Junk(_) => []
    case Comp(kind, content, fields, accessory, children) =>
      Heads(kind, content, fields, accessory) + Nodes(children)
  }

  function Nodes(items: seq<Item>): seq<Leaf>
    decreases items, 0
  {
    if items == [] then [] else NodesOf(items[0]) + Nodes(items[1..])
  }

  function Count(items: seq<Item>): nat {
    |Nodes(items)|
  }

  function Controls(nodes: seq<Leaf>): seq<Leaf> {
    if nodes == [] then []
    else (if IsControl(nodes[0].kind) then [nodes[0]] else []) + Controls(nodes[1..])
  }

  predicate HoldsControl(item: Item) {
    && item.Comp?
    && (|| IsControl(item.kind)
        || (item.accessory.Some? && IsControl(item.accessory.value.kind))
        || exists child | child in item.children :: HoldsControl(child))
  }

  predicate Droppable(item: Item) {
    item.Junk? || !HoldsControl(item)
  }

  lemma {:induction false} ControlsAppend(a: seq<Leaf>, b: seq<Leaf>)
    ensures Controls(a + b) == Controls(a) + Controls(b)
  {
    hide Controls;
    if a == [] {
      NoControls();
      assert a + b == b;
    } else {
      var first := if IsControl(a[0].kind) then [a[0]] else [];
      ControlsFirst(a);
      ControlsFirst(a + b);
      assert (a + b)[1..] == a[1..] + b;
      ControlsAppend(a[1..], b);
      assert first + (Controls(a[1..]) + Controls(b)) == first + Controls(a[1..]) + Controls(b);
    }
  }

  lemma ControlsFirst(nodes: seq<Leaf>)
    requires nodes != []
    ensures Controls(nodes) == (if IsControl(nodes[0].kind) then [nodes[0]] else []) + Controls(nodes[1..])
  {
  }

  lemma NoControls()
    ensures Controls([]) == []
  {
  }

  /** The recursive test agrees with the flat list of components. */
  lemma {:induction false} HoldsControlExact(item: Item)
    ensures HoldsControl(item) <==> Controls(NodesOf(item)) != []
    decreases item, 1
  {
    if item.Comp? {
      ControlsAppend(Heads(item.kind, item.content, item.fields, item.accessory), Nodes(item.children));
      SomeHoldsControl(item.children);
    }
  }

  lemma {:induction false} SomeHoldsControl(items: seq<Item>)
    ensures (exists child | child in items :: HoldsControl(child)) <==> Controls(Nodes(items)) != []
    decreases items, 0
  {
    if items != [] {
      HoldsControlExact(items[0]);
      SomeHoldsControl(items[1..]);
      ControlsAppend(NodesOf(items[0]), Nodes(items[1..]));
      assert items == [items[0]] + items[1..];
    }
  }

  // ---- Droppable units: the maximal subtrees that hold no control

  function UnitsOf(item: Item): seq<Item>
    decreases item, 1
  {
    if Droppable(item) then [item] else Units(item.children)
  }

  function Units(items: seq<Item>): seq<Item>
    decreases items, 0
  {
    if items == [] then [] else UnitsOf(items[0]) + Units(items[1..])
  }

  function Less(k: nat, n: nat): nat {
    if k <= n then 0 else k - n
  }

  /** The tree with only its first `k` droppable units, in document order; everything else stays. */
  function KeepOf(item: Item, k: nat): seq<Item>
    decreases item, 1
  {
    if Droppable(item) then (if k == 0 then [] else [item])
    else [item.(children := Keep(item.children, k))]
  }

  function Keep(items: seq<Item>, k: nat): seq<Item>
    decreases items, 0
  {
    if items == [] then []
    else KeepOf(items[0], k) + Keep(items[1..], Less(k, |UnitsOf(items[0])|))
  }

  function Skeleton(items: seq<Item>): seq<Item> {
    Keep(items, 0)
  }

  lemma {:induction false} NodesAppend(a: seq<Item>, b: seq<Item>)
    ensures Nodes(a + b) == Nodes(a) + Nodes(b)
  {
    if a == [] {
      assert a + b == b;
    } else {
      assert (a + b)[1..] == a[1..] + b;
      NodesAppend(a[1..], b);
    }
  }

  lemma {:induction false} UnitsAppend(a: seq<Item>, b: seq<Item>)
    ensures Units(a + b) == Units(a) + Units(b)
  {
    if a == [] {
      assert a + b == b;
    } else {
      assert (a + b)[1..] == a[1..] + b;
      UnitsAppend(a[1..], b);
    }
  }

  lemma {:induction false} KeepAppend(a: seq<Item>, b: seq<Item>, k: nat)
    ensures Keep(a + b, k) == Keep(a, k) + Keep(b, Less(k, |Units(a)|))
  {
    hide KeepOf, UnitsOf;
    if a == [] {
      assert a + b == b;
    } else {
      assert (a + b)[1..] == a[1..] + b;
      KeepAppend(a[1..], b, Less(k, |UnitsOf(a[0])|));
    }
  }

  lemma NodesOne(item: Item)
    ensures Nodes([item]) == NodesOf(item)
  {
    assert [item][1..] == [];
  }

  lemma UnitsOne(item: Item)
    ensures Units([item]) == UnitsOf(item)
  {
    assert [item][1..] == [];
  }

  lemma KeepOne(item: Item, k: nat)
    ensures Keep([item], k) == KeepOf(item, k)
  {
    assert [item][1..] == [];
  }

  /** Keeping units loses no action row, button or select, and keeps them in order. */
  lemma {:induction false} KeepControls(items: seq<Item>, k: nat)
    ensures Controls(Nodes(Keep(items, k))) == Controls(Nodes(items))
    decreases items, 0
  {
    if items != [] {
      KeepOfControls(items[0], k);
      var rest := Keep(items[1..], Less(k, |UnitsOf(items[0])|));
      KeepControls(items[1..], Less(k, |UnitsOf(items[0])|));
      NodesAppend(KeepOf(items[0], k), rest);
      ControlsAppend(Nodes(KeepOf(items[0], k)), Nodes(rest));
      ControlsAppend(NodesOf(items[0]), Nodes(items[1..]));
    }
  }

  lemma {:induction false} KeepOfControls(item: Item, k: nat)
    ensures Controls(Nodes(KeepOf(item, k))) == Controls(NodesOf(item))
    ensures !Droppable(item) ==> HoldsControl(item.(children := Keep(item.children, k)))
    decreases item, 1
  {
    HoldsControlExact(item);
    if Droppable(item) {
      NodesOne(item);
    } else {
      var kept := item.(children := Keep(item.children, k));
      KeepControls(item.children, k);
      NodesOne(kept);
      var head := Heads(item.kind, item.content, item.fields, item.accessory);
      ControlsAppend(head, Nodes(item.children));
      ControlsAppend(head, Nodes(kept.children));
      HoldsControlExact(kept);
    }
  }

  /** What is left of the droppable units is exactly their first `k`. */
  lemma {:induction false} KeepUnits(items: seq<Item>, k: nat)
    ensures Units(Keep(items, k)) == Units(items)[..Min(k, |Units(items)|)]
    decreases items, 0
  {
    if items != [] {
      KeepOfUnits(items[0], k);
      var rest := Less(k, |UnitsOf(items[0])|);
      KeepUnits(items[1..], rest);
      UnitsAppend(KeepOf(items[0], k), Keep(items[1..], rest));
    }
  }

  lemma {:induction false} KeepOfUnits(item: Item, k: nat)
    ensures Units(KeepOf(item, k)) == UnitsOf(item)[..Min(k, |UnitsOf(item)|)]
    decreases item, 1
  {
    if Droppable(item) {
      UnitsOne(item);
    } else {
      var kept := item.(children := Keep(item.children, k));
      KeepOfControls(item, k);
      KeepUnits(item.children, k);
      UnitsOne(kept);
    }
  }

  lemma {:induction false} KeepAll(items: seq<Item>, k: nat)
    requires k >= |Units(items)|
    ensures Keep(items, k) == items
    decreases items, 0
  {
    if items != [] {
      KeepOfAll(items[0], k);
      KeepAll(items[1..], Less(k, |UnitsOf(items[0])|));
      assert items == [items[0]] + items[1..];
    }
  }

  lemma {:induction false} KeepOfAll(item: Item, k: nat)
    requires k >= |UnitsOf(item)|
    ensures KeepOf(item, k) == [item]
    decreases item, 1
  {
    if !Droppable(item) {
      KeepAll(item.children, k);
    }
  }

  /** Keeping twice is keeping the smaller number: drops compose. */
  lemma {:induction false} KeepKeep(items: seq<Item>, k: nat, j: nat)
    ensures Keep(Keep(items, k), j) == Keep(items, Min(j, k))
    decreases items, 0
  {
    if items != [] {
      var units := UnitsOf(items[0]);
      KeepOfKeep(items[0], k, j);
      KeepOfUnits(items[0], k);
      KeepKeep(items[1..], Less(k, |units|), Less(j, Min(k, |units|)));
      KeepAppend(KeepOf(items[0], k), Keep(items[1..], Less(k, |units|)), j);
    }
  }

  lemma {:induction false} KeepOfKeep(item: Item, k: nat, j: nat)
    ensures Keep(KeepOf(item, k), j) == KeepOf(item, Min(j, k))
    decreases item, 1
  {
    if Droppable(item) {
      KeepOne(item, j);
    } else {
      var kept := item.(children := Keep(item.children, k));
      KeepOfControls(item, k);
      KeepKeep(item.children, k, j);
      KeepOne(kept, j);
    }
  }

  lemma PrefixOfAppend<T>(a: seq<T>, b: seq<T>, k: nat)
    ensures (a + b)[..Min(k, |a + b|)] == a[..Min(k, |a|)] + b[..Min(Less(k, |a|), |b|)]
  {
  }

  /** Conservation: the count is the skeleton's count plus the counts of the kept units. */
  lemma {:induction false} CountConserved(items: seq<Item>, k: nat)
    ensures Count(Keep(items, k)) == Count(Skeleton(items)) + Count(Units(items)[..Min(k, |Units(items)|)])
    decreases items, 0
  {
    if items != [] {
      var units, tail := UnitsOf(items[0]), items[1..];
      var rest := Less(k, |units|);
      CountConservedOf(items[0], k);
      CountConserved(tail, rest);
      NodesAppend(KeepOf(items[0], k), Keep(tail, rest));
      NodesAppend(KeepOf(items[0], 0), Keep(tail, 0));
      PrefixOfAppend(units, Units(tail), k);
      NodesAppend(units[..Min(k, |units|)], Units(tail)[..Min(rest, |Units(tail)|)]);
    }
  }

  lemma {:induction false} CountConservedOf(item: Item, k: nat)
    ensures Count(KeepOf(item, k)) == Count(KeepOf(item, 0)) + Count(UnitsOf(item)[..Min(k, |UnitsOf(item)|)])
    decreases item, 1
  {
    if Droppable(item) {
      assert [item][..1] == [item];
    } else {
      CountConserved(item.children, k);
      NodesOne(item.(children := Keep(item.children, k)));
      NodesOne(item.(children := Keep(item.children, 0)));
    }
  }

  lemma CountMonotone(items: seq<Item>, j: nat, k: nat)
    requires j <= k
    ensures Count(Keep(items, j)) <= Count(Keep(items, k))
  {
    CountConserved(items, j);
    CountConserved(items, k);
    var a, b := Min(j, |Units(items)|), Min(k, |Units(items)|);
    assert Units(items)[..b] == Units(items)[..a] + Units(items)[a..b];
    NodesAppend(Units(items)[..a], Units(items)[a..b]);
  }

  /** Removing the last unit, seen from the position in the list that still holds one. */
  lemma KeepLast(items: seq<Item>, index: nat)
    requires index < |items| && Units(items[index + 1..]) == [] && UnitsOf(items[index]) != []
    ensures |Units(items)| == |Units(items[..index])| + |UnitsOf(items[index])|
    ensures Keep(items, |Units(items)| - 1)
         == items[..index] + KeepOf(items[index], |UnitsOf(items[index])| - 1) + items[index + 1..]
  {
    hide Keep, KeepOf, Units, UnitsOf;
    var before, item, after := items[..index], items[index], items[index + 1..];
    assert items == before + ([item] + after);
    UnitsAppend(before, [item] + after);
    UnitsAppend([item], after);
    UnitsOne(item);
    var k := |Units(items)| - 1;
    KeepAppend(before, [item] + after, k);
    KeepAppend([item], after, Less(k, |Units(before)|));
    KeepOne(item, Less(k, |Units(before)|));
    KeepAll(before, k);
    KeepAll(after, Less(Less(k, |Units(before)|), |Units([item])|));
  }

  // ---- What is droppable

  /** Every component of the list, at any depth, holds a control. */
  predicate AllHoldControls(items: seq<Item>)
    decreases items, 0
  {
    items != [] ==> EachHoldsControl(items[0]) && AllHoldControls(items[1..])
  }

  predicate EachHoldsControl(item: Item)
    decreases item, 1
  {
    item.Comp? && HoldsControl(item) && AllHoldControls(item.children)
  }

  lemma {:induction false} AllHoldAppend(a: seq<Item>, b: seq<Item>)
    ensures AllHoldControls(a + b) <==> AllHoldControls(a) && AllHoldControls(b)
  {
    if a == [] {
      assert a + b == b;
    } else {
      assert (a + b)[1..] == a[1..] + b;
      AllHoldAppend(a[1..], b);
    }
  }

  /** With all units gone, nothing is left that holds no control: all that may be dropped can be. */
  lemma {:induction false} SkeletonHoldsControls(items: seq<Item>)
    ensures AllHoldControls(Skeleton(items))
    decreases items, 0
  {
    if items != [] {
      SkeletonOfHoldsControls(items[0]);
      SkeletonHoldsControls(items[1..]);
      AllHoldAppend(KeepOf(items[0], 0), Skeleton(items[1..]));
    }
  }

  lemma {:induction false} SkeletonOfHoldsControls(item: Item)
    ensures AllHoldControls(KeepOf(item, 0))
    decreases item, 1
  {
    if !Droppable(item) {
      KeepOfControls(item, 0);
      SkeletonHoldsControls(item.children);
    }
  }

  /** And the units themselves hold none. */
  lemma {:induction false} UnitsHoldNone(items: seq<Item>)
    ensures Controls(Nodes(Units(items))) == []
    decreases items, 0
  {
    if items != [] {
      UnitsOfHoldNone(items[0]);
      UnitsHoldNone(items[1..]);
      NodesAppend(UnitsOf(items[0]), Units(items[1..]));
      ControlsAppend(Nodes(UnitsOf(items[0])), Nodes(Units(items[1..])));
    }
  }

  lemma {:induction false} UnitsOfHoldNone(item: Item)
    ensures Controls(Nodes(UnitsOf(item))) == []
    decreases item, 1
  {
    if Droppable(item) {
      NodesOne(item);
      HoldsControlExact(item);
    } else {
      UnitsHoldNone(item.children);
    }
  }

  // ---- How many units the drop loop keeps

  /** The largest number of units, from `k` down, whose tree is within the limit; 0 when none is. */
  function LargestFit(items: seq<Item>, k: nat, limit: int): nat {
    if k == 0 || Count(Keep(items, k)) <= limit then k else LargestFit(items, k - 1, limit)
  }

  function Kept(items: seq<Item>, limit: int): nat {
    LargestFit(items, |Units(items)|, limit)
  }

  /** The loop drops the shortest suffix of units that is enough, or all of them. */
  lemma {:induction false} LargestFitIsShortestDrop(items: seq<Item>, k: nat, limit: int)
    ensures var n := LargestFit(items, k, limit);
      && n <= k
      && (Count(Keep(items, n)) <= limit || n == 0)
      && forall j | n < j <= k :: Count(Keep(items, j)) > limit
  {
    if k != 0 && Count(Keep(items, k)) > limit {
      LargestFitIsShortestDrop(items, k - 1, limit);
    }
  }

  /** Every longer list of units is over the limit, so the units dropped are as few as can be. */
  lemma KeptIsShortestDrop(items: seq<Item>, limit: int)
    ensures var n := Kept(items, limit);
      && n <= |Units(items)|
      && (Count(Keep(items, n)) <= limit || n == 0)
      && forall j | n < j <= |Units(items)| :: Count(Keep(items, j)) > limit
  {
    LargestFitIsShortestDrop(items, |Units(items)|, limit);
  }

  /** The limit is met exactly when the controls and what encloses them meet it. */
  lemma FitsIffSkeletonFits(items: seq<Item>, limit: int)
    ensures var out := Keep(items, Kept(items, limit));
      && (Count(out) <= limit <==> Count(Skeleton(items)) <= limit)
      && Count(out) <= Max(limit, Count(Skeleton(items)))
  {
    LargestFitIsShortestDrop(items, |Units(items)|, limit);
    CountMonotone(items, 0, Kept(items, limit));
  }

  // ---- Text

  function IsText(node: Leaf): (r: bool) {
    node.kind == TYPE_TEXT
  }

  function TextCount(nodes: seq<Leaf>): nat {
    if nodes == [] then 0 else (if IsText(nodes[0]) then 1 else 0) + TextCount(nodes[1..])
  }

  function NonEmptyTexts(nodes: seq<Leaf>): nat {
    if nodes == [] then 0
    else (if IsText(nodes[0]) && nodes[0].content != "" then 1 else 0) + NonEmptyTexts(nodes[1..])
  }

  function TextChars(nodes: seq<Leaf>): nat {
    if nodes == [] then 0 else (if IsText(nodes[0]) then |nodes[0].content| else 0) + TextChars(nodes[1..])
  }

  function Allowance(left: int, later: nat): nat {
    Max(0, left - later)
  }

  /** One text display: what it becomes, given the characters left and the displays after it. */
  function TrimOne(content: string, left: int, later: nat): string {
    if |content| <= Allowance(left, later) then content
    else if Allowance(left, later) <= |TRIM_MARKER| then "."
    else content[..Allowance(left, later) - |TRIM_MARKER|] + TRIM_MARKER
  }

  function TrimNodes(nodes: seq<Leaf>, left: int): (r: seq<Leaf>)
    ensures |r| == |nodes|
  {
    if nodes == [] then []
    else if !IsText(nodes[0]) then [nodes[0]] + TrimNodes(nodes[1..], left)
    else
      var content := TrimOne(nodes[0].content, left, TextCount(nodes[1..]));
      [nodes[0].(content := content)] + TrimNodes(nodes[1..], left - |content|)
  }

  /** What trimming may do to one display. */
  predicate TrimmedFrom(before: Leaf, after: Leaf) {
    && after.kind == before.kind
    && after.fields == before.fields
    && (!IsText(before) ==> after == before)
    && (before.content == "" <==> after.content == "")
    && (|| after.content == before.content
        || after.content == "."
        || exists n | 0 < n < |before.content| :: after.content == before.content[..n] + TRIM_MARKER)
  }

  lemma TrimOneKeeps(node: Leaf, left: int, later: nat)
    requires IsText(node)
    ensures TrimmedFrom(node, node.(content := TrimOne(node.content, left, later)))
  {
    var cut := Allowance(left, later) - |TRIM_MARKER|;
    if 0 < cut < |node.content| {
      assert TrimOne(node.content, left, later) in {node.content, node.content[..cut] + TRIM_MARKER};
    }
  }

  lemma {:induction false} TrimKeepsDisplays(nodes: seq<Leaf>, left: int)
    ensures forall i | 0 <= i < |nodes| :: TrimmedFrom(nodes[i], TrimNodes(nodes, left)[i])
    ensures TextCount(TrimNodes(nodes, left)) == TextCount(nodes)
    ensures NonEmptyTexts(TrimNodes(nodes, left)) == NonEmptyTexts(nodes)
  {
    if nodes != [] {
      var out := TrimNodes(nodes, left);
      var content := TrimOne(nodes[0].content, left, TextCount(nodes[1..]));
      var rest := if IsText(nodes[0]) then left - |content| else left;
      TrimKeepsDisplays(nodes[1..], rest);
      assert out[1..] == TrimNodes(nodes[1..], rest);
      if IsText(nodes[0]) {
        TrimOneKeeps(nodes[0], left, TextCount(nodes[1..]));
      }
      assert TrimmedFrom(nodes[0], out[0]);
      PointwisePrepend(nodes, out);
    }
  }

  lemma PointwisePrepend(nodes: seq<Leaf>, out: seq<Leaf>)
    requires |nodes| == |out| > 0 && TrimmedFrom(nodes[0], out[0])
    requires forall i | 0 <= i < |nodes[1..]| :: TrimmedFrom(nodes[1..][i], out[1..][i])
    ensures forall i | 0 <= i < |nodes| :: TrimmedFrom(nodes[i], out[i])
  {
    forall i | 0 < i < |nodes| ensures TrimmedFrom(nodes[i], out[i]) {
      assert nodes[i] == nodes[1..][i - 1] && out[i] == out[1..][i - 1];
    }
  }

  /** As much of a content as there is room for, the marker included; a dot where the marker leaves none. */
  predicate FillsRoom(content: string, trimmed: string, room: nat) {
    if |content| <= room then trimmed == content
    else if room > |TRIM_MARKER| then
      |trimmed| == room && trimmed == content[..room - |TRIM_MARKER|] + TRIM_MARKER
    else trimmed == "."
  }

  /** The room of a display: the budget less what those before it use, and less one character for each one after it. */
  function RoomAt(nodes: seq<Leaf>, out: seq<Leaf>, budget: int, i: nat): nat
    requires i < |nodes| == |out|
  {
    Max(0, budget - TextChars(out[..i]) - TextCount(nodes[i + 1..]))
  }

  /** Every text display keeps as much as its room allows. */
  lemma {:induction false} TrimFillsRoom(nodes: seq<Leaf>, left: int, i: nat)
    requires i < |nodes| && IsText(nodes[i])
    ensures var out := TrimNodes(nodes, left);
      FillsRoom(nodes[i].content, out[i].content, RoomAt(nodes, out, left, i))
    decreases i
  {
    var out := TrimNodes(nodes, left);
    if i == 0 {
      assert out[..0] == [];
    } else {
      var content := TrimOne(nodes[0].content, left, TextCount(nodes[1..]));
      var rest := if IsText(nodes[0]) then left - |content| else left;
      TrimFillsRoom(nodes[1..], rest, i - 1);
      assert out[1..] == TrimNodes(nodes[1..], rest);
      assert nodes[1..][i - 1 + 1..] == nodes[i + 1..];
      assert out[..i] == [out[0]] + out[1..][..i - 1];
      assert [out[0]][1..] == [];
      TextCharsAppend([out[0]], out[1..][..i - 1]);
    }
  }

  lemma {:induction false} TextBounds(nodes: seq<Leaf>)
    ensures NonEmptyTexts(nodes) <= TextCount(nodes)
    ensures NonEmptyTexts(nodes) <= TextChars(nodes)
  {
    if nodes != [] {
      TextBounds(nodes[1..]);
    }
  }

  lemma {:induction false} TrimTotal(nodes: seq<Leaf>, left: int)
    ensures TextChars(TrimNodes(nodes, left)) <= Max(left, NonEmptyTexts(nodes))
  {
    if nodes != [] {
      TextBounds(nodes[1..]);
      if !IsText(nodes[0]) {
        TrimTotal(nodes[1..], left);
      } else {
        TrimTotal(nodes[1..], left - |TrimOne(nodes[0].content, left, TextCount(nodes[1..]))|);
      }
    }
  }

  /** The budget is met exactly when it allows one character for each non-empty display. */
  lemma TrimMeetsBudgetIff(nodes: seq<Leaf>, budget: int)
    ensures TextChars(TrimNodes(nodes, Max(0, budget))) <= budget
       <==> NonEmptyTexts(nodes) <= budget
  {
    var out := TrimNodes(nodes, Max(0, budget));
    TrimTotal(nodes, Max(0, budget));
    TrimKeepsDisplays(nodes, Max(0, budget));
    TextBounds(out);
  }

  lemma {:induction false} TrimIdempotent(nodes: seq<Leaf>, left: int)
    ensures TrimNodes(TrimNodes(nodes, left), left) == TrimNodes(nodes, left)
  {
    if nodes != [] {
      var later := TextCount(nodes[1..]);
      var content := TrimOne(nodes[0].content, left, later);
      var rest := if IsText(nodes[0]) then left - |content| else left;
      TrimIdempotent(nodes[1..], rest);
      TrimKeepsDisplays(nodes[1..], rest);
      TrimOneTwice(nodes[0].content, left, later);
      var first := if IsText(nodes[0]) then nodes[0].(content := content) else nodes[0];
      TrimFirst(nodes, left);
      TrimFirst([first] + TrimNodes(nodes[1..], rest), left);
      hide TrimNodes, TrimOne, TrimmedFrom, NonEmptyTexts, TextCount;
      assert ([first] + TrimNodes(nodes[1..], rest))[1..] == TrimNodes(nodes[1..], rest);
    }
  }

  lemma TrimFirst(nodes: seq<Leaf>, left: int)
    requires nodes != []
    ensures var content := TrimOne(nodes[0].content, left, TextCount(nodes[1..]));
      TrimNodes(nodes, left) ==
      if IsText(nodes[0]) then [nodes[0].(content := content)] + TrimNodes(nodes[1..], left - |content|)
      else [nodes[0]] + TrimNodes(nodes[1..], left)
  {
    hide TrimOne;
  }

  lemma TrimOneTwice(content: string, left: int, later: nat)
    ensures var once := TrimOne(content, left, later); TrimOne(once, left, later) == once
  {
  }

  /** One step of the trim loop, seen from a suffix of the listing. */
  lemma TrimStep(nodes: seq<Leaf>, goal: seq<Leaf>, k: nat, left: int)
    requires k < |nodes| == |goal| && goal[k..] == TrimNodes(nodes[k..], left)
    ensures var later := TextCount(nodes[k + 1..]);
      var content := TrimOne(nodes[k].content, left, later);
      && goal[k] == (if IsText(nodes[k]) then nodes[k].(content := content) else nodes[k])
      && (IsText(nodes[k]) ==> goal[k + 1..] == TrimNodes(nodes[k + 1..], left - |content|))
      && (!IsText(nodes[k]) ==> goal[k + 1..] == TrimNodes(nodes[k + 1..], left))
      && TextCount(nodes[k..]) == later + (if IsText(nodes[k]) then 1 else 0)
  {
    assert nodes[k..][1..] == nodes[k + 1..];
    assert goal[k] == goal[k..][0] && goal[k + 1..] == goal[k..][1..];
  }

  // ---- Putting trimmed components back into the tree

  predicate SameHeads(a: seq<Leaf>, b: seq<Leaf>) {
    |a| == |b| && forall i | 0 <= i < |a| :: a[i].kind == b[i].kind && a[i].fields == b[i].fields
  }

  /** The same tree with the contents of `nodes`, taken in document order. */
  function RebuildOf(item: Item, nodes: seq<Leaf>): Item
    requires |nodes| == |NodesOf(item)|
    decreases item, 1
  {
    match item
    case Junk(_) => item
    case Comp(kind, _, fields, accessory, children) =>
      if accessory.None? then Comp(kind, nodes[0].content, fields, None, Rebuild(children, nodes[1..]))
      else Comp(kind, nodes[0].content, fields, Some(accessory.value.(content := nodes[1].content)),
                Rebuild(children, nodes[2..]))
  }

  function Rebuild(items: seq<Item>, nodes: seq<Leaf>): (r: seq<Item>)
    requires |nodes| == Count(items)
    ensures |r| == |items|
    decreases items, 0
  {
    if items == [] then []
    else
      var n := |NodesOf(items[0])|;
      [RebuildOf(items[0], nodes[..n])] + Rebuild(items[1..], nodes[n..])
  }

  /** Rebuilding sets the contents and changes nothing else. */
  lemma {:induction false} RebuildNodes(items: seq<Item>, nodes: seq<Leaf>)
    requires SameHeads(Nodes(items), nodes)
    ensures Nodes(Rebuild(items, nodes)) == nodes
    decreases items, 0
  {
    if items != [] {
      var n := |NodesOf(items[0])|;
      SameHeadsSplit(NodesOf(items[0]), Nodes(items[1..]), nodes);
      RebuildOfNodes(items[0], nodes[..n]);
      RebuildNodes(items[1..], nodes[n..]);
      RebuildFirst(items, nodes);
      hide Rebuild, RebuildOf, SameHeads;
      assert nodes == nodes[..n] + nodes[n..];
    }
  }

  lemma RebuildFirst(items: seq<Item>, nodes: seq<Leaf>)
    requires items != [] && |nodes| == Count(items)
    ensures var n := |NodesOf(items[0])|;
      && n <= |nodes| && |nodes[n..]| == Count(items[1..])
      && Nodes(Rebuild(items, nodes)) ==
         NodesOf(RebuildOf(items[0], nodes[..n])) + Nodes(Rebuild(items[1..], nodes[n..]))
  {
    var n := |NodesOf(items[0])|;
    hide NodesOf, RebuildOf;
    assert Rebuild(items, nodes)[1..] == Rebuild(items[1..], nodes[n..]);
  }

  lemma {:induction false} RebuildOfNodes(item: Item, nodes: seq<Leaf>)
    requires SameHeads(NodesOf(item), nodes)
    ensures NodesOf(RebuildOf(item, nodes)) == nodes
    decreases item, 1
  {
    if item.Comp? {
      var heads := Heads(item.kind, item.content, item.fields, item.accessory);
      SameHeadsSplit(heads, Nodes(item.children), nodes);
      RebuildNodes(item.children, nodes[|heads|..]);
      var out := RebuildOf(item, nodes);
      assert Heads(out.kind, out.content, out.fields, out.accessory) == nodes[..|heads|];
      assert nodes[..|heads|] + nodes[|heads|..] == nodes;
    }
  }

  lemma SameHeadsSplit(a: seq<Leaf>, b: seq<Leaf>, nodes: seq<Leaf>)
    requires SameHeads(a + b, nodes)
    ensures SameHeads(a, nodes[..|a|]) && SameHeads(b, nodes[|a|..])
  {
    assert forall i | 0 <= i < |a| :: (a + b)[i] == a[i];
    assert forall i | 0 <= i < |b| :: (a + b)[|a| + i] == b[i];
  }

  predicate SameKeys(a: Option<Leaf>, b: Option<Leaf>) {
    && (a.Some? <==> b.Some?)
    && (a.Some? ==> a.value.kind == b.value.kind && a.value.fields == b.value.fields)
  }

  /** A component that differs from `before` in contents only is rebuilt from its own contents. */
  lemma RebuildAcross(before: Item, after: Item)
    requires before.Comp? && after.Comp? && before.kind == after.kind && before.fields == after.fields
    requires SameKeys(before.accessory, after.accessory) && Count(before.children) == Count(after.children)
    requires after.children == Rebuild(before.children, Nodes(after.children))
    ensures |NodesOf(after)| == |NodesOf(before)| && after == RebuildOf(before, NodesOf(after))
  {
    var heads := Heads(after.kind, after.content, after.fields, after.accessory);
    assert NodesOf(after)[|heads|..] == Nodes(after.children);
  }

  lemma RebuildAcrossList(before: Item, befores: seq<Item>, after: Item, afters: seq<Item>)
    requires |NodesOf(after)| == |NodesOf(before)| && after == RebuildOf(before, NodesOf(after))
    requires Count(afters) == Count(befores) && afters == Rebuild(befores, Nodes(afters))
    ensures Count([after] + afters) == Count([before] + befores)
    ensures [after] + afters == Rebuild([before] + befores, Nodes([after] + afters))
  {
    assert ([after] + afters)[1..] == afters && ([before] + befores)[1..] == befores;
    var nodes := NodesOf(after) + Nodes(afters);
    assert nodes[..|NodesOf(after)|] == NodesOf(after) && nodes[|NodesOf(after)|..] == Nodes(afters);
  }

  lemma {:induction false} RebuildSame(items: seq<Item>)
    ensures Rebuild(items, Nodes(items)) == items
    decreases items, 0
  {
    if items != [] {
      RebuildOfSame(items[0]);
      RebuildSame(items[1..]);
      assert Nodes(items)[..|NodesOf(items[0])|] == NodesOf(items[0]);
      assert Nodes(items)[|NodesOf(items[0])|..] == Nodes(items[1..]);
    }
  }

  lemma {:induction false} RebuildOfSame(item: Item)
    ensures RebuildOf(item, NodesOf(item)) == item
    decreases item, 1
  {
    if item.Comp? {
      var heads := Heads(item.kind, item.content, item.fields, item.accessory);
      assert NodesOf(item)[|heads|..] == Nodes(item.children);
      RebuildSame(item.children);
    }
  }

  lemma SameHeadsTail(a: seq<Leaf>, b: seq<Leaf>)
    requires SameHeads(a, b) && a != []
    ensures SameHeads(a[1..], b[1..])
  {
  }

  lemma {:induction false} SameHeadsControls(a: seq<Leaf>, b: seq<Leaf>)
    requires SameHeads(a, b)
    ensures |Controls(a)| == |Controls(b)|
  {
    if a != [] {
      SameHeadsTail(a, b);
      SameHeadsControls(a[1..], b[1..]);
    }
  }

  /** Contents do not decide what is droppable, so rebuilding keeps the units. */
  lemma {:induction false} RebuildUnits(items: seq<Item>, nodes: seq<Leaf>)
    requires SameHeads(Nodes(items), nodes)
    ensures |Units(Rebuild(items, nodes))| == |Units(items)|
    decreases items, 0
  {
    if items != [] {
      var n := |NodesOf(items[0])|;
      SameHeadsSplit(NodesOf(items[0]), Nodes(items[1..]), nodes);
      RebuildOfUnits(items[0], nodes[..n]);
      RebuildUnits(items[1..], nodes[n..]);
      assert Rebuild(items, nodes)[1..] == Rebuild(items[1..], nodes[n..]);
    }
  }

  lemma {:induction false} RebuildOfUnits(item: Item, nodes: seq<Leaf>)
    requires SameHeads(NodesOf(item), nodes)
    ensures |UnitsOf(RebuildOf(item, nodes))| == |UnitsOf(item)|
    decreases item, 1
  {
    if item.Comp? {
      RebuildOfNodes(item, nodes);
      HoldsControlExact(item);
      HoldsControlExact(RebuildOf(item, nodes));
      SameHeadsControls(NodesOf(item), nodes);
      var heads := Heads(item.kind, item.content, item.fields, item.accessory);
      SameHeadsSplit(heads, Nodes(item.children), nodes);
      RebuildUnits(item.children, nodes[|heads|..]);
    }
  }

  lemma {:induction false} RebuildTwice(items: seq<Item>, first: seq<Leaf>, second: seq<Leaf>)
    requires SameHeads(Nodes(items), first) && |second| == Count(items)
    ensures Count(Rebuild(items, first)) == |second|
    ensures Rebuild(Rebuild(items, first), second) == Rebuild(items, second)
    decreases items, 0
  {
    RebuildNodes(items, first);
    if items != [] {
      var n := |NodesOf(items[0])|;
      SameHeadsSplit(NodesOf(items[0]), Nodes(items[1..]), first);
      RebuildOfTwice(items[0], first[..n], second[..n]);
      RebuildTwice(items[1..], first[n..], second[n..]);
      assert Rebuild(items, first)[1..] == Rebuild(items[1..], first[n..]);
    }
  }

  lemma {:induction false} RebuildOfTwice(item: Item, first: seq<Leaf>, second: seq<Leaf>)
    requires SameHeads(NodesOf(item), first) && |second| == |NodesOf(item)|
    ensures |NodesOf(RebuildOf(item, first))| == |second|
    ensures RebuildOf(RebuildOf(item, first), second) == RebuildOf(item, second)
    decreases item, 1
  {
    RebuildOfNodes(item, first);
    if item.Comp? {
      var heads := Heads(item.kind, item.content, item.fields, item.accessory);
      SameHeadsSplit(heads, Nodes(item.children), first);
      RebuildTwice(item.children, first[|heads|..], second[|heads|..]);
    }
  }

  // ---- The whole fit

  /** Characters of the text displays themselves; accessories are not counted. */
  function DisplayCharsOf(item: Item): nat
    decreases item, 1
  {
    match item
    case Junk(_) => 0
    case Comp(kind, content, _, _, children) =>
      (if kind == TYPE_TEXT then |content| else 0) + DisplayChars(children)
  }

  function DisplayChars(items: seq<Item>): nat
    decreases items, 0
  {
    if items == [] then 0 else DisplayCharsOf(items[0]) + DisplayChars(items[1..])
  }

  function Trim(items: seq<Item>, budget: int): seq<Item> {
    Rebuild(items, TrimNodes(Nodes(items), Max(0, budget)))
  }

  function Fit(items: seq<Item>, maxComponents: int, maxChars: int): seq<Item> {
    var kept := Keep(items, Kept(items, maxComponents));
    if DisplayChars(kept) > maxChars then Trim(kept, maxChars) else kept
  }

  /** The accessories, in document order. */
  function AccessoriesOf(item: Item): seq<Leaf>
    decreases item, 1
  {
    match item
    case Junk(_) => []
    case Comp(_, _, _, accessory, children) =>
      (if accessory.Some? then [accessory.value] else []) + Accessories(children)
  }

  function Accessories(items: seq<Item>): seq<Leaf>
    decreases items, 0
  {
    if items == [] then [] else AccessoriesOf(items[0]) + Accessories(items[1..])
  }

  /** The text ceiling counts all texts but those of accessories. */
  lemma {:induction false} DisplayCharsExact(items: seq<Item>)
    ensures TextChars(Nodes(items)) == DisplayChars(items) + TextChars(Accessories(items))
    decreases items, 0
  {
    if items != [] {
      DisplayCharsOfExact(items[0]);
      DisplayCharsExact(items[1..]);
      TextCharsAppend(NodesOf(items[0]), Nodes(items[1..]));
      TextCharsAppend(AccessoriesOf(items[0]), Accessories(items[1..]));
    }
  }

  lemma {:induction false} DisplayCharsOfExact(item: Item)
    ensures TextChars(NodesOf(item)) == DisplayCharsOf(item) + TextChars(AccessoriesOf(item))
    decreases item, 1
  {
    if item.Comp? {
      DisplayCharsExact(item.children);
      var heads := Heads(item.kind, item.content, item.fields, item.accessory);
      var own := if item.accessory.Some? then [item.accessory.value] else [];
      assert heads == [Leaf(item.kind, item.content, item.fields)] + own;
      TextCharsAppend(heads, Nodes(item.children));
      TextCharsAppend([Leaf(item.kind, item.content, item.fields)], own);
      TextCharsAppend(own, Accessories(item.children));
      assert [Leaf(item.kind, item.content, item.fields)][1..] == [];
    }
  }

  lemma {:induction false} DisplayCharsWithinTextChars(items: seq<Item>)
    ensures DisplayChars(items) <= TextChars(Nodes(items))
    decreases items, 0
  {
    if items != [] {
      DisplayCharsWithinTextCharsOf(items[0]);
      DisplayCharsWithinTextChars(items[1..]);
      TextCharsAppend(NodesOf(items[0]), Nodes(items[1..]));
    }
  }

  lemma {:induction false} DisplayCharsWithinTextCharsOf(item: Item)
    ensures DisplayCharsOf(item) <= TextChars(NodesOf(item))
    decreases item, 1
  {
    if item.Comp? {
      DisplayCharsWithinTextChars(item.children);
      TextCharsAppend(Heads(item.kind, item.content, item.fields, item.accessory), Nodes(item.children));
    }
  }

  lemma {:induction false} TextCharsAppend(a: seq<Leaf>, b: seq<Leaf>)
    ensures TextChars(a + b) == TextChars(a) + TextChars(b)
  {
    if a == [] {
      assert a + b == b;
    } else {
      assert (a + b)[1..] == a[1..] + b;
      TextCharsAppend(a[1..], b);
    }
  }

  lemma TrimSameHeads(nodes: seq<Leaf>, left: int)
    ensures SameHeads(nodes, TrimNodes(nodes, left))
  {
    TrimKeepsDisplays(nodes, left);
    forall i | 0 <= i < |nodes|
      ensures nodes[i].kind == TrimNodes(nodes, left)[i].kind && nodes[i].fields == TrimNodes(nodes, left)[i].fields
    {
      assert TrimmedFrom(nodes[i], TrimNodes(nodes, left)[i]);
    }
  }

  lemma TrimTreeFacts(items: seq<Item>, budget: int)
    ensures var out := Trim(items, budget);
      && Nodes(out) == TrimNodes(Nodes(items), Max(0, budget))
      && |Units(out)| == |Units(items)|
      && Trim(out, budget) == out
  {
    var nodes := TrimNodes(Nodes(items), Max(0, budget));
    TrimSameHeads(Nodes(items), Max(0, budget));
    RebuildNodes(items, nodes);
    RebuildUnits(items, nodes);
    TrimIdempotent(Nodes(items), Max(0, budget));
    RebuildTwice(items, nodes, nodes);
  }

  /**
   The result of the whole fit, component by component: it lists the components of a kept
   prefix of the units, each text intact, ".", or a prefix plus the marker.
   */
  lemma FitKeepsTree(items: seq<Item>, maxComponents: int, maxChars: int)
    ensures var kept := Keep(items, Kept(items, maxComponents));
      var out := Fit(items, maxComponents, maxChars);
      && Count(out) == Count(kept)
      && (forall i | 0 <= i < Count(kept) :: TrimmedFrom(Nodes(kept)[i], Nodes(out)[i]))
      && Count(out) <= Max(maxComponents, Count(Skeleton(items)))
  {
    var kept := Keep(items, Kept(items, maxComponents));
    FitsIffSkeletonFits(items, maxComponents);
    TrimTreeFacts(kept, maxChars);
    TrimKeepsDisplays(Nodes(kept), Max(0, maxChars));
  }

  /** A tree within both ceilings is left as it is; one within the text ceiling loses no text. */
  lemma FitLeavesFittingTrees(items: seq<Item>, maxComponents: int, maxChars: int)
    ensures Count(items) <= maxComponents && DisplayChars(items) <= maxChars ==>
            Fit(items, maxComponents, maxChars) == items
    ensures var kept := Keep(items, Kept(items, maxComponents));
      DisplayChars(kept) <= maxChars ==> Nodes(Fit(items, maxComponents, maxChars)) == Nodes(kept)
  {
    KeepAll(items, |Units(items)|);
  }

  /** In a tree over the text ceiling every text display keeps as much as its room allows. */
  lemma FitFillsRoom(items: seq<Item>, maxComponents: int, maxChars: int, i: nat)
    requires var kept := Keep(items, Kept(items, maxComponents));
      DisplayChars(kept) > maxChars && i < Count(kept) && IsText(Nodes(kept)[i])
    ensures var kept := Nodes(Keep(items, Kept(items, maxComponents)));
      var out := Nodes(Fit(items, maxComponents, maxChars));
      && |out| == |kept|
      && FillsRoom(kept[i].content, out[i].content, RoomAt(kept, out, Max(0, maxChars), i))
  {
    var kept := Keep(items, Kept(items, maxComponents));
    TrimTreeFacts(kept, maxChars);
    TrimFillsRoom(Nodes(kept), Max(0, maxChars), i);
  }

  /** Every action row, button and select survives in order, with all its keys. */
  lemma FitKeepsControls(items: seq<Item>, maxComponents: int, maxChars: int)
    ensures Controls(Nodes(Fit(items, maxComponents, maxChars))) == Controls(Nodes(items))
  {
    var kept := Keep(items, Kept(items, maxComponents));
    KeepControls(items, Kept(items, maxComponents));
    TrimTreeFacts(kept, maxChars);
    TrimControls(Nodes(kept), Max(0, maxChars));
  }

  lemma {:induction false} TrimControls(nodes: seq<Leaf>, left: int)
    ensures Controls(TrimNodes(nodes, left)) == Controls(nodes)
  {
    if nodes != [] {
      if !IsText(nodes[0]) {
        TrimControls(nodes[1..], left);
      } else {
        TrimControls(nodes[1..], left - |TrimOne(nodes[0].content, left, TextCount(nodes[1..]))|);
      }
    }
  }

  /** Accessories are never text displays: the shape Discord accepts. */
  predicate PlainOf(item: Item)
    decreases item, 1
  {
    item.Comp? ==>
      && (item.accessory.Some? ==> item.accessory.value.kind != TYPE_TEXT)
      && PlainAccessories(item.children)
  }

  predicate PlainAccessories(items: seq<Item>)
    decreases items, 0
  {
    items != [] ==> PlainOf(items[0]) && PlainAccessories(items[1..])
  }

  lemma {:induction false} PlainChars(items: seq<Item>)
    requires PlainAccessories(items)
    ensures DisplayChars(items) == TextChars(Nodes(items))
    decreases items, 0
  {
    if items != [] {
      PlainCharsOf(items[0]);
      PlainChars(items[1..]);
      TextCharsAppend(NodesOf(items[0]), Nodes(items[1..]));
    }
  }

  lemma {:induction false} PlainCharsOf(item: Item)
    requires PlainOf(item)
    ensures DisplayCharsOf(item) == TextChars(NodesOf(item))
    decreases item, 1
  {
    if item.Comp? {
      PlainChars(item.children);
      TextCharsAppend(Heads(item.kind, item.content, item.fields, item.accessory), Nodes(item.children));
    }
  }

  lemma {:induction false} PlainRebuild(items: seq<Item>, nodes: seq<Leaf>)
    requires PlainAccessories(items) && |nodes| == Count(items)
    ensures PlainAccessories(Rebuild(items, nodes))
    decreases items, 0
  {
    if items != [] {
      var n := |NodesOf(items[0])|;
      PlainRebuildOf(items[0], nodes[..n]);
      PlainRebuild(items[1..], nodes[n..]);
      assert Rebuild(items, nodes)[1..] == Rebuild(items[1..], nodes[n..]);
    }
  }

  lemma {:induction false} PlainRebuildOf(item: Item, nodes: seq<Leaf>)
    requires PlainOf(item) && |nodes| == |NodesOf(item)|
    ensures PlainOf(RebuildOf(item, nodes))
    decreases item, 1
  {
    if item.Comp? {
      PlainRebuild(item.children, nodes[|Heads(item.kind, item.content, item.fields, item.accessory)|..]);
    }
  }

  /** The text ceiling holds whenever the budget has a character for each non-empty text. */
  lemma FitMeetsTextBudget(items: seq<Item>, maxComponents: int, maxChars: int)
    requires NonEmptyTexts(Nodes(Keep(items, Kept(items, maxComponents)))) <= maxChars
    ensures DisplayChars(Fit(items, maxComponents, maxChars)) <= maxChars
  {
    var kept := Keep(items, Kept(items, maxComponents));
    TrimTreeFacts(kept, maxChars);
    TrimMeetsBudgetIff(Nodes(kept), maxChars);
    DisplayCharsWithinTextChars(Trim(kept, maxChars));
  }

  /** With plain accessories that condition is exact. */
  lemma FitMeetsTextBudgetIff(items: seq<Item>, maxComponents: int, maxChars: int)
    requires PlainAccessories(Keep(items, Kept(items, maxComponents)))
    ensures DisplayChars(Fit(items, maxComponents, maxChars)) <= maxChars
       <==> NonEmptyTexts(Nodes(Keep(items, Kept(items, maxComponents)))) <= maxChars
  {
    var kept := Keep(items, Kept(items, maxComponents));
    TrimTreeFacts(kept, maxChars);
    TrimMeetsBudgetIff(Nodes(kept), maxChars);
    PlainRebuild(kept, TrimNodes(Nodes(kept), Max(0, maxChars)));
    PlainChars(kept);
    PlainChars(Trim(kept, maxChars));
    TextBounds(Nodes(kept));
  }

  /** Fitting a fitted tree changes nothing. */
  lemma FitIdempotent(items: seq<Item>, maxComponents: int, maxChars: int)
    ensures Fit(Fit(items, maxComponents, maxChars), maxComponents, maxChars) == Fit(items, maxComponents, maxChars)
  {
    var n := Kept(items, maxComponents);
    var kept := Keep(items, n);
    var out := Fit(items, maxComponents, maxChars);
    LargestFitIsShortestDrop(items, |Units(items)|, maxComponents);
    KeepUnits(items, n);
    TrimTreeFacts(kept, maxChars);
    KeepAll(out, |Units(out)|);
    LargestFitIsShortestDrop(out, |Units(out)|, maxComponents);
    assert Count(out) == Count(kept) && |Units(out)| == |Units(kept)| == n;
    assert Kept(out, maxComponents) == n;
  }
}
