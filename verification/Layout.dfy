/**
 The fit as the code runs it: a mutable tree whose lists are popped and whose
 contents are rewritten in place, on a fresh deep copy of the input.
 */
module Layout {
  import opened Basics
  import opened ComponentTree

  // ---- Forests: lists of separate trees

  ghost function Trees(nodes: seq<Node>): set<Node> {
    if nodes == [] then {} else {nodes[0]} + nodes[0].Tree + Trees(nodes[1..])
  }

  /** No node lies below itself; lists may share nodes, as an input may hold one dict twice. */
  ghost predicate Acyclic(nodes: seq<Node>)
    reads Trees(nodes)`items
    decreases Trees(nodes), |nodes| + 1
  {
    nodes != [] ==> nodes[0].Sound() && Acyclic(nodes[1..])
  }

  ghost predicate Forest(nodes: seq<Node>)
    reads Trees(nodes)`items
    ensures Forest(nodes) ==> Acyclic(nodes)
    decreases Trees(nodes), |nodes| + 1
  {
    nodes != [] ==>
      && nodes[0].Valid()
      && nodes[0].Tree !! Trees(nodes[1..])
      && Forest(nodes[1..])
  }

  ghost function Views(nodes: seq<Node>): (r: seq<Item>)
    requires Acyclic(nodes)
    reads Trees(nodes)
    ensures |r| == |nodes|
    decreases Trees(nodes), |nodes| + 1
  {
    if nodes == [] then [] else [nodes[0].View()] + Views(nodes[1..])
  }

  predicate AnyHoldsControl(nodes: seq<Node>)
    requires Forest(nodes)
    reads Trees(nodes)
    ensures AnyHoldsControl(nodes) <==> exists item | item in Views(nodes) :: ComponentTree.HoldsControl(item)
    decreases Trees(nodes), |nodes| + 1
  {
    if nodes == [] then false
    else
      HoldsInPrepend(nodes[0].View(), Views(nodes[1..]));
      (nodes[0].isDict && nodes[0].HoldsControl()) || AnyHoldsControl(nodes[1..])
  }

  function TextLength(nodes: seq<Node>): nat
    requires Forest(nodes)
    reads Trees(nodes)
    ensures TextLength(nodes) == DisplayChars(Views(nodes))
    decreases Trees(nodes), |nodes| + 1
  {
    if nodes == [] then 0 else nodes[0].TextLengthSelf() + TextLength(nodes[1..])
  }

  lemma HoldsInPrepend(first: Item, rest: seq<Item>)
    ensures (exists item | item in [first] + rest :: ComponentTree.HoldsControl(item))
       <==> ComponentTree.HoldsControl(first) || exists item | item in rest :: ComponentTree.HoldsControl(item)
  {
    var all := [first] + rest;
    if item :| item in rest && ComponentTree.HoldsControl(item) {
      assert item in all;
    }
    assert first in all;
  }

  /** A reference to a listed component: a node, or a node's accessory. */
  datatype Slot = Slot(node: Node, onAccessory: bool) {
    predicate Exists()
      reads node
    {
      onAccessory ==> node.accessory.Some?
    }

    function Read(): Leaf
      reads node
    {
      if onAccessory && node.accessory.Some? then node.accessory.value
      else Leaf(node.kind, node.content, node.fields)
    }
  }

  /** Every component of the lists, in document order. */
  function Listed(nodes: seq<Node>): (r: seq<Slot>)
    requires Forest(nodes)
    reads Trees(nodes)
    ensures Leaves(r) == Nodes(Views(nodes))
    ensures Distinct(r) && forall slot | slot in r :: slot.node in Trees(nodes) && slot.Exists()
    decreases Trees(nodes), |nodes| + 1
  {
    if nodes == [] then []
    else
      LeavesAppend(nodes[0].ListedSelf(), Listed(nodes[1..]));
      DistinctAppend(nodes[0].ListedSelf(), Listed(nodes[1..]));
      nodes[0].ListedSelf() + Listed(nodes[1..])
  }

  /** The components a list of references stands for. */
  function Leaves(slots: seq<Slot>): (r: seq<Leaf>)
    reads set slot | slot in slots :: slot.node
    ensures |r| == |slots|
    ensures forall i | 0 <= i < |slots| :: r[i] == slots[i].Read()
  {
    if slots == [] then [] else [slots[0].Read()] + Leaves(slots[1..])
  }

  ghost predicate Distinct<T>(s: seq<T>) {
    forall i, j | 0 <= i < j < |s| :: s[i] != s[j]
  }

  lemma DistinctAppend<T>(a: seq<T>, b: seq<T>)
    requires Distinct(a) && Distinct(b) && forall x | x in a :: x !in b
    ensures Distinct(a + b)
  {
    forall i, j | 0 <= i < j < |a + b| ensures (a + b)[i] != (a + b)[j] {
      if i < |a| <= j {
        assert a[i] in a && b[j - |a|] in b;
      }
    }
  }

  lemma LeavesAppend(a: seq<Slot>, b: seq<Slot>)
    ensures Leaves(a + b) == Leaves(a) + Leaves(b)
  {
  }

  /**
   A component dict, or a non-dict list element when `isDict` is false. `items` is its
   nested list. A message is a node whose `items` is the outermost list.
   */
  class Node {
    const isDict: bool
    const kind: int
    const fields: int
    var content: string
    var accessory: Option<Leaf>
    var items: seq<Node>
    ghost const Tree: set<Node>

    ghost predicate Sound()
      reads this`items, Tree`items
      decreases Tree, 0
    {
      this in Tree && this !in Trees(items) && Trees(items) <= Tree && Acyclic(items)
    }

    /** The nodes form a tree: nothing is shared between siblings, accessories included. */
    ghost predicate Valid()
      reads this`items, Tree`items
      ensures Valid() ==> Sound()
      decreases Tree, 0
    {
      && this in Tree && this !in Trees(items)
      && Trees(items) <= Tree
      && Forest(items)
    }

    ghost function View(): Item
      requires Sound()
      reads this, Tree
      decreases Tree, 0
    {
      if !isDict then Junk(fields) else Comp(kind, content, fields, accessory, Views(items))
    }

    constructor (isDict: bool, kind: int, content: string, fields: int, accessory: Option<Leaf>, items: seq<Node>)
      requires Forest(items)
      ensures Valid()
      ensures this.isDict == isDict && this.kind == kind && this.content == content && this.fields == fields
      ensures this.accessory == accessory && this.items == items
      ensures Tree == {this} + Trees(items)
    {
      TreesAllocated(items);
      this.isDict, this.kind, this.content, this.fields := isDict, kind, content, fields;
      this.accessory, this.items := accessory, items;
      Tree := {this} + Trees(items);
    }

    // ---- Reading

    predicate HoldsControl()
      requires Valid()
      reads this, Tree
      ensures HoldsControl() == ComponentTree.HoldsControl(View())
      decreases Tree, 0
    {
      && isDict
      && (|| IsControl(kind)
          || (accessory.Some? && IsControl(accessory.value.kind))
          || AnyHoldsControl(items))
    }

    /** This element as the recursive listing sees it: itself, its accessory, its nested list. */
    function ListedSelf(): (r: seq<Slot>)
      requires Valid()
      reads this, Tree
      ensures Leaves(r) == NodesOf(View())
      ensures Distinct(r) && forall slot | slot in r :: slot.node in Tree && slot.Exists()
      decreases Tree, 0
    {
      if !isDict then []
      else
        var own := [Slot(this, false)] + (if accessory.None? then [] else [Slot(this, true)]);
        LeavesAppend(own, Listed(items));
        DistinctAppend(own, Listed(items));
        own + Listed(items)
    }

    /** Content and accessory changes leave the shape; the value is the old one rebuilt. */
    twostate lemma RebuiltSelf()
      requires old(Valid()) && SameShape(Tree)
      ensures Valid() && ListedSelf() == old(ListedSelf())
      ensures |NodesOf(View())| == old(|NodesOf(View())|)
      ensures View() == RebuildOf(old(View()), NodesOf(View()))
      decreases Tree, 0
    {
      RebuiltList(items);
      if isDict {
        RebuildAcross(old(View()), View());
      }
    }

    /** Characters of this display and of the displays nested in it. */
    function TextLengthSelf(): nat
      requires Valid()
      reads this, Tree
      ensures TextLengthSelf() == DisplayCharsOf(View())
      decreases Tree, 0
    {
      if !isDict then 0 else (if kind == TYPE_TEXT then |content| else 0) + TextLength(items)
    }

    // ---- Dropping

    /** Pop one position: the rest is still a tree, with the rest of the value. */
    method RemoveAt(index: nat)
      requires Valid() && index < |items|
      modifies this`items
      ensures Valid()
      ensures Views(items) == old(Views(items)[..index] + Views(items)[index + 1..])
    {
      hide Forest, Trees, Views;
      ForestSplit(items, index);
      ForestSplit(items, index + 1);
      assert items[..index + 1][..index] == items[..index];
      ForestSplit(items[..index + 1], index);
      ForestAppend(items[..index], items[index + 1..]);
      TreesAppend(items[..index], items[index + 1..]);
      items := items[..index] + items[index + 1..];
    }

    /** The recursive step: drop inside one child. Nothing else of this list changes. */
    method DropInside(index: nat, node: Node) returns (dropped: bool)
      requires Valid() && index < |items| && items[index] == node && node.Valid()
      modifies Tree`items
      ensures Valid() && items == old(items) && node.Valid()
      ensures dropped <==> old(Units(Views(node.items))) != []
      ensures Views(node.items) == Dropped(old(Views(node.items)))
      ensures Views(items) == old(Views(items))[index := node.View()]
      decreases Tree, 0
    {
      hide Trees, Views, Dropped, Units;
      ghost var leftViews, rightViews := SplitAround(index);
      assert Views(items)[index := Junk(0)] == leftViews + [Junk(0)] + rightViews;
      dropped := node.DropLastDroppable();
      JoinAround(index, leftViews, rightViews);
    }

    /** The trees before and after one child, apart from it. */
    lemma SplitAround(index: nat) returns (leftViews: seq<Item>, rightViews: seq<Item>)
      requires Valid() && index < |items|
      ensures items[index].Valid()
      ensures var left, right := items[..index], items[index + 1..];
        && Forest(left) && Forest(right)
        && Trees(left) !! Trees(right) && (Trees(left) + Trees(right)) !! items[index].Tree
        && Trees(left) + Trees(right) <= Tree && this !in items[index].Tree && items[index].Tree <= Tree
        && leftViews == Views(left) && rightViews == Views(right)
        && Views(items) == leftViews + [items[index].View()] + rightViews
    {
      ForestSplit(items, index);
      ForestSplit(items[index..], 1);
      assert items[index..][1..] == items[index + 1..];
      leftViews, rightViews := Views(items[..index]), Views(items[index + 1..]);
      ForestAt(items, index);
    }

    lemma JoinAround(index: nat, leftViews: seq<Item>, rightViews: seq<Item>)
      requires index < |items| && items[index].Valid()
      requires var left, right := items[..index], items[index + 1..];
        && Forest(left) && Forest(right)
        && Trees(left) !! Trees(right) && (Trees(left) + Trees(right)) !! items[index].Tree
        && leftViews == Views(left) && rightViews == Views(right)
      ensures Forest(items) && Views(items) == leftViews + [items[index].View()] + rightViews
    {
      var left, node, right := items[..index], items[index], items[index + 1..];
      assert items == left + ([node] + right);
      assert ([node] + right)[1..] == right;
      ForestAppend(left, [node] + right);
    }

    /** Remove the trailing component that carries no control, deepest last. */
    method DropLastDroppable() returns (dropped: bool)
      requires Valid()
      modifies Tree`items
      ensures Valid()
      ensures dropped <==> old(Units(Views(items))) != []
      ensures Views(items) == Dropped(old(Views(items)))
      decreases Tree, 1
    {
      hide Forest, Trees, Views;
      ghost var before := Views(items);
      var index := |items| - 1;
      while index >= 0
        invariant -1 <= index < |items|
        invariant Valid() && items == old(items) && Views(items) == before
        invariant Units(before[index + 1..]) == []
      {
        var node := items[index];
        ForestAt(items, index);
        if !node.isDict || !node.HoldsControl() {
          DropWholeAt(before, index);
          RemoveAt(index);
          return true;
        }
        var deeper := DropInside(index, node);
        if deeper {
          DropAt(before, index);
          return true;
        }
        PassAt(before, index);
        index := index - 1;
      }
      assert before[0..] == before;
      return false;
    }

    // ---- Copying

    /** A fresh tree with the same value: nothing of the original, nor of itself, is shared with it. */
    method DeepCopy() returns (copy: Node)
      requires Sound()
      ensures copy.Valid() && fresh(copy.Tree)
      ensures copy.View() == old(View()) && copy.isDict == isDict
      decreases Tree, 1
    {
      TreesAllocated(items);
      var copies := CopyList(items);
      TreesAllocated(copies);
      copy := new Node(isDict, kind, content, fields, accessory, copies);
    }
  }

  method CopyList(nodes: seq<Node>) returns (copies: seq<Node>)
    requires Acyclic(nodes)
    ensures Forest(copies) && fresh(Trees(copies))
    ensures Views(copies) == old(Views(nodes))
    decreases Trees(nodes), |nodes| + 1
  {
    if nodes == [] {
      return [];
    }
    TreesAllocated(nodes);
    var rest := CopyList(nodes[1..]);
    TreesAllocated(rest);
    var first := nodes[0].DeepCopy();
    ForestPrepend(first, rest);
    copies := [first] + rest;
  }

  lemma ForestPrepend(first: Node, rest: seq<Node>)
    requires first.Valid() && Forest(rest) && first.Tree !! Trees(rest)
    ensures Forest([first] + rest) && Views([first] + rest) == [first.View()] + Views(rest)
    ensures Trees([first] + rest) == first.Tree + Trees(rest)
  {
    assert ([first] + rest)[1..] == rest;
  }

  // ---- Trimming

  twostate predicate SameShape(nodes: set<Node>)
    reads nodes
  {
    forall n | n in nodes :: n.items == old(n.items) && SameKeys(n.accessory, old(n.accessory))
  }

  twostate lemma RebuiltList(nodes: seq<Node>)
    requires old(Forest(nodes)) && SameShape(Trees(nodes))
    ensures Forest(nodes) && Listed(nodes) == old(Listed(nodes))
    ensures Count(Views(nodes)) == old(Count(Views(nodes)))
    ensures Views(nodes) == Rebuild(old(Views(nodes)), Nodes(Views(nodes)))
    decreases Trees(nodes), |nodes| + 1
  {
    if nodes != [] {
      nodes[0].RebuiltSelf();
      RebuiltList(nodes[1..]);
      RebuildAcrossList(old(nodes[0].View()), old(Views(nodes[1..])), nodes[0].View(), Views(nodes[1..]));
    }
  }

  ghost function Owners(slots: seq<Slot>): set<Node> {
    set i | 0 <= i < |slots| :: slots[i].node
  }

  ghost predicate AllExist(slots: seq<Slot>)
    reads Owners(slots)
  {
    forall i | 0 <= i < |slots| :: slots[i].Exists()
  }

  /** Overwrite the content of one listed component; the others keep theirs. */
  method WriteContent(slots: seq<Slot>, k: nat, content: string)
    requires k < |slots| && Distinct(slots) && AllExist(slots)
    modifies slots[k].node`content, slots[k].node`accessory
    ensures AllExist(slots) && SameKeys(slots[k].node.accessory, old(slots[k].node.accessory))
    ensures slots[k].Read() == old(slots[k].Read()).(content := content)
    ensures forall j | 0 <= j < |slots| && j != k :: slots[j].Read() == old(slots[j].Read())
  {
    var slot := slots[k];
    if slot.onAccessory {
      slot.node.accessory := Some(slot.node.accessory.value.(content := content));
    } else {
      slot.node.content := content;
    }
  }

  /** One turn of the loop: `later` displays come after this one; `left` characters remain. */
  method TrimDisplay(slots: seq<Slot>, k: nat, left: int, later: nat) returns (rest: int)
    requires k < |slots| && Distinct(slots) && AllExist(slots)
    modifies slots[k].node`content, slots[k].node`accessory
    ensures AllExist(slots) && SameKeys(slots[k].node.accessory, old(slots[k].node.accessory))
    ensures slots[k].Read() == old(slots[k].Read()).(content := TrimOne(old(slots[k].Read()).content, left, later))
    ensures forall j | 0 <= j < |slots| && j != k :: slots[j].Read() == old(slots[j].Read())
    ensures rest == left - |TrimOne(old(slots[k].Read()).content, left, later)|
  {
    var allowance := Max(0, left - later);
    var content := slots[k].Read().content;
    if |content| <= allowance {
      return left - |content|;
    }
    if allowance <= |TRIM_MARKER| {
      WriteContent(slots, k, ".");
      return left - 1;
    }
    WriteContent(slots, k, content[..allowance - |TRIM_MARKER|] + TRIM_MARKER);
    return left - allowance;
  }

  /** One turn of the loop: other components are passed over. */
  method TrimTurn(slots: seq<Slot>, k: nat, left: int, texts: nat) returns (rest: int, later: nat)
    requires k < |slots| && Distinct(slots) && AllExist(slots)
    requires IsText(slots[k].Read()) ==> texts > 0
    modifies slots[k].node`content, slots[k].node`accessory
    ensures AllExist(slots) && SameKeys(slots[k].node.accessory, old(slots[k].node.accessory))
    ensures var node := old(slots[k].Read());
      var content := TrimOne(node.content, left, later);
      && later == texts - (if IsText(node) then 1 else 0)
      && slots[k].Read() == (if IsText(node) then node.(content := content) else node)
      && rest == left - (if IsText(node) then |content| else 0)
    ensures forall j | 0 <= j < |slots| && j != k :: slots[j].Read() == old(slots[j].Read())
  {
    rest, later := left, texts;
    if IsText(slots[k].Read()) {
      later := texts - 1;
      rest := TrimDisplay(slots, k, left, later);
    }
  }

  /** Components before `k` read as in `goal`, the others as in `before`. */
  ghost predicate Mixed(slots: seq<Slot>, goal: seq<Leaf>, before: seq<Leaf>, k: nat)
    requires |slots| == |goal| == |before|
    reads Owners(slots)
  {
    forall j | 0 <= j < |slots| :: slots[j].Read() == if j < k then goal[j] else before[j]
  }

  /** One turn brings one more component to its trimmed form. */
  method TrimNext(slots: seq<Slot>, k: nat, left: int, texts: nat, ghost goal: seq<Leaf>, ghost before: seq<Leaf>)
    returns (rest: int, later: nat)
    requires k < |slots| == |goal| == |before| && Distinct(slots) && AllExist(slots)
    requires Mixed(slots, goal, before, k)
    requires texts == TextCount(before[k..]) && goal[k..] == TrimNodes(before[k..], left)
    modifies slots[k].node`content, slots[k].node`accessory
    ensures AllExist(slots) && SameKeys(slots[k].node.accessory, old(slots[k].node.accessory))
    ensures Mixed(slots, goal, before, k + 1)
    ensures later == TextCount(before[k + 1..]) && goal[k + 1..] == TrimNodes(before[k + 1..], rest)
  {
    hide TrimNodes, TextCount, TrimOne;
    TrimStep(before, goal, k, left);
    rest, later := TrimTurn(slots, k, left, texts);
  }

  /** Spend the budget on earlier displays first, one reserved character for each later one. */
  method TrimTextInPlace(slots: seq<Slot>, budget: int)
    requires Distinct(slots) && AllExist(slots)
    modifies Owners(slots)`content, Owners(slots)`accessory
    ensures AllExist(slots)
    ensures forall n | n in Owners(slots) :: SameKeys(n.accessory, old(n.accessory))
    ensures Leaves(slots) == TrimNodes(old(Leaves(slots)), Max(0, budget))
  {
    hide TrimNodes, TextCount, Mixed;
    ghost var before := Leaves(slots);
    ghost var goal := TrimNodes(before, Max(0, budget));
    var later, left := TextCount(Leaves(slots)), Max(0, budget);
    AllBefore(slots, goal, before);
    for k := 0 to |slots|
      invariant AllExist(slots)
      invariant forall n | n in Owners(slots) :: SameKeys(n.accessory, old(n.accessory))
      invariant Mixed(slots, goal, before, k)
      invariant later == TextCount(before[k..])
      invariant goal[k..] == TrimNodes(before[k..], left)
    {
      left, later := TrimNext(slots, k, left, later, goal, before);
    }
    AllAfter(slots, goal, before);
  }

  lemma AllBefore(slots: seq<Slot>, goal: seq<Leaf>, before: seq<Leaf>)
    requires |slots| == |goal| && before == Leaves(slots)
    ensures Mixed(slots, goal, before, 0)
  {
  }

  lemma AllAfter(slots: seq<Slot>, goal: seq<Leaf>, before: seq<Leaf>)
    requires |slots| == |goal| == |before| && Mixed(slots, goal, before, |slots|)
    ensures Leaves(slots) == goal
  {
  }

  lemma TreesAllocated(nodes: seq<Node>)
    ensures forall n | n in Trees(nodes) :: allocated(n)
  {
  }

  lemma {:induction false} TreesAppend(a: seq<Node>, b: seq<Node>)
    ensures Trees(a + b) == Trees(a) + Trees(b)
  {
    if a == [] {
      assert a + b == b;
    } else {
      assert (a + b)[1..] == a[1..] + b;
      TreesAppend(a[1..], b);
    }
  }

  lemma {:induction false} ForestAppend(a: seq<Node>, b: seq<Node>)
    requires Forest(a) && Forest(b) && Trees(a) !! Trees(b)
    ensures Forest(a + b) && Views(a + b) == Views(a) + Views(b)
  {
    hide Forest, Views, Trees, Acyclic, Node.Valid, Node.Sound, Node.View;
    if a == [] {
      NoViews();
      assert a + b == b && Views(a) + Views(b) == Views(b);
    } else {
      ForestHead(a);
      ForestAppend(a[1..], b);
      TreesAppend(a[1..], b);
      ForestPrepend(a[0], a[1..] + b);
      assert a + b == [a[0]] + (a[1..] + b);
      assert [a[0].View()] + Views(a[1..]) + Views(b) == [a[0].View()] + (Views(a[1..]) + Views(b));
    }
  }

  lemma NoViews()
    ensures Views([]) == []
  {
  }

  lemma ForestHead(nodes: seq<Node>)
    requires Forest(nodes) && nodes != []
    ensures nodes[0].Valid() && Forest(nodes[1..]) && nodes[0].Tree !! Trees(nodes[1..])
    ensures Trees(nodes) == nodes[0].Tree + Trees(nodes[1..])
    ensures Views(nodes) == [nodes[0].View()] + Views(nodes[1..])
  {
  }

  lemma ForestAt(nodes: seq<Node>, index: nat)
    requires Forest(nodes) && index < |nodes|
    ensures nodes[index].Valid() && nodes[index].Tree <= Trees(nodes)
    ensures Views(nodes)[index] == nodes[index].View()
  {
    ForestSplit(nodes, index);
    assert nodes[index..][0] == nodes[index];
  }

  lemma {:induction false} ForestSplit(nodes: seq<Node>, k: nat)
    requires Forest(nodes) && k <= |nodes|
    ensures Forest(nodes[..k]) && Forest(nodes[k..]) && Trees(nodes[..k]) !! Trees(nodes[k..])
    ensures Trees(nodes) == Trees(nodes[..k]) + Trees(nodes[k..])
    ensures Views(nodes[..k]) == Views(nodes)[..k] && Views(nodes[k..]) == Views(nodes)[k..]
    decreases k
  {
    if k > 0 {
      assert nodes[..k][1..] == nodes[1..][..k - 1];
      assert nodes[k..] == nodes[1..][k - 1..];
      ForestSplit(nodes[1..], k - 1);
    } else {
      assert nodes[0..] == nodes;
    }
  }

  // ---- The fit

  /** The drop loop keeps the number of units that `Kept` names. */
  method DropToLimit(out: Node, maxComponents: int)
    requires out.Valid()
    modifies out.Tree`items
    ensures out.Valid()
    ensures Views(out.items) == Keep(old(Views(out.items)), Kept(old(Views(out.items)), maxComponents))
  {
    hide Forest, Trees, Views, Keep, KeepOf, Units, UnitsOf, Listed;
    ghost var start := Views(out.items);
    ghost var k: nat := |Units(start)|;
    KeepAll(start, k);
    while |Listed(out.items)| > maxComponents
      invariant out.Valid() && k <= |Units(start)|
      invariant Views(out.items) == Keep(start, k)
      invariant Kept(start, maxComponents) == LargestFit(start, k, maxComponents)
      decreases k
    {
      KeepUnits(start, k);
      var dropped := out.DropLastDroppable();
      if !dropped {
        break;
      }
      k := k - 1;
      KeepKeep(start, k + 1, k);
    }
  }

  /** Rewriting the texts of a whole tree is `Trim` on its value. */
  method TrimTree(out: Node, budget: int)
    requires out.Valid()
    modifies out.Tree`content, out.Tree`accessory
    ensures out.Valid() && Views(out.items) == Trim(old(Views(out.items)), budget)
  {
    hide Forest, Trees, Views, Listed;
    var slots := Listed(out.items);
    TrimTextInPlace(slots, budget);
    assert SameShape(Trees(out.items));
    RebuiltList(out.items);
  }

  /**
   Trim a message to the ceilings, keeping the controls. Everything written is fresh, so the
   caller's tree is left as it was.
   */
  method FitComponentsV2(message: Node, maxComponents: int, maxChars: int) returns (out: Node)
    requires message.Sound() && message.isDict
    ensures out.Valid() && fresh(out.Tree)
    ensures Views(out.items) == Fit(old(Views(message.items)), maxComponents, maxChars)
    ensures message.Sound() && message.View() == old(message.View())
  {
    hide Forest, Trees, Views;
    out := message.DeepCopy();
    DropToLimit(out, maxComponents);
    if TextLength(out.items) > maxChars {
      TrimTree(out, maxChars);
    }
  }

  // ---- Dropping, on values

  /** The list without its last droppable unit. */
  function Dropped(items: seq<Item>): seq<Item> {
    if Units(items) == [] then items else Keep(items, |Units(items)| - 1)
  }

  /** The same, done inside the element at `index`. */
  function DroppedInside(items: seq<Item>, index: nat): seq<Item>
    requires index < |items|
  {
    var units := UnitsOf(items[index]);
    if units == [] then items
    else items[..index] + KeepOf(items[index], |units| - 1) + items[index + 1..]
  }

  lemma PassAt(items: seq<Item>, index: nat)
    requires index < |items| && Units(items[index + 1..]) == [] && UnitsOf(items[index]) == []
    ensures Units(items[index..]) == []
  {
    assert items[index..][1..] == items[index + 1..];
  }

  lemma DropAt(items: seq<Item>, index: nat)
    requires index < |items| && Units(items[index + 1..]) == [] && UnitsOf(items[index]) != []
    ensures Units(items) != [] && Dropped(items) == DroppedInside(items, index)
  {
    KeepLast(items, index);
  }

  lemma DropWholeAt(items: seq<Item>, index: nat)
    requires index < |items| && Units(items[index + 1..]) == [] && Droppable(items[index])
    ensures Units(items) != [] && Dropped(items) == items[..index] + items[index + 1..]
  {
    DropAt(items, index);
    EmptyMiddle(items[..index], KeepOf(items[index], 0), items[index + 1..]);
  }

  lemma EmptyMiddle<T>(a: seq<T>, middle: seq<T>, b: seq<T>)
    requires middle == []
    ensures a + middle + b == a + b
  {
  }
}
