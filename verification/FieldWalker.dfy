/** The breadth-first walk over the fields of an object (api/genericwebhook/bfs.go). */
module FieldWalker {
  import opened Text

  /** `Scalar` is any kind the walk does not look into; a pointer is looked through once. */
  datatype Node = Scalar | Nil | Pointer(target: Node) | Struct(fields: seq<Field>) | Slice(elems: seq<Node>)

  datatype Field = Field(name: string, exported: bool, value: Node)

  datatype Step = Child(name: string) | Index(i: nat)

  /** A queued node. The root is the one with the empty path. */
  datatype Item = Item(node: Node, path: seq<Step>, field: Option<Field>)

  type Callback = Item -> bool

  // ---------- children ----------

  function Indirect(node: Node): Node {
    if node.Pointer? then node.target else node
  }

  function FieldItems(fields: seq<Field>, path: seq<Step>): seq<Item> {
    if fields == [] then []
    else
      var f := fields[|fields| - 1];
      FieldItems(fields[..|fields| - 1], path)
      + if f.exported then [Item(f.value, path + [Child(f.name)], Some(f))] else []
  }

  function ElemItems(elems: seq<Node>, path: seq<Step>): seq<Item> {
    seq(|elems|, i requires 0 <= i < |elems| => Item(elems[i], path + [Index(i)], None))
  }

  function Expand(item: Item): seq<Item> {
    var node := Indirect(item.node);
    if node.Struct? then FieldItems(node.fields, item.path)
    else if node.Slice? then ElemItems(node.elems, item.path)
    else []
  }

  /** The children the walk goes on to: none if the callback declines. The root is not asked. */
  function Next(visit: Callback, item: Item): seq<Item> {
    if item.path != [] && !visit(item) then [] else Expand(item)
  }

  // ---------- termination ----------

  function Size(node: Node): nat {
    match node
    case Struct(fields) => 1 + SizeOfFields(fields)
    case Slice(elems) => 1 + SizeOfAll(elems)
    case Pointer(target) => 1 + Size(target)
    case _ => 1
  }

  function SizeOfFields(fields: seq<Field>): nat {
    if fields == [] then 0 else SizeOfFields(fields[..|fields| - 1]) + Size(fields[|fields| - 1].value)
  }

  function SizeOfAll(elems: seq<Node>): nat {
    if elems == [] then 0 else SizeOfAll(elems[..|elems| - 1]) + Size(elems[|elems| - 1])
  }

  function Total(items: seq<Item>): nat {
    if items == [] then 0 else Size(items[0].node) + Total(items[1..])
  }

  lemma {:induction false} TotalOfSum(a: seq<Item>, b: seq<Item>)
    ensures Total(a + b) == Total(a) + Total(b)
  {
    if a == [] {
      assert a + b == b;
    } else {
      assert (a + b)[1..] == a[1..] + b;
      TotalOfSum(a[1..], b);
    }
  }

  lemma TotalOfOne(item: Item)
    ensures Total([item]) == Size(item.node)
  {
    assert [item][1..] == [];
  }

  lemma {:induction false} FieldItemsAreSmall(fields: seq<Field>, path: seq<Step>)
    ensures Total(FieldItems(fields, path)) <= SizeOfFields(fields)
  {
    if fields != [] {
      var f := fields[|fields| - 1];
      var before := FieldItems(fields[..|fields| - 1], path);
      FieldItemsAreSmall(fields[..|fields| - 1], path);
      var last := Item(f.value, path + [Child(f.name)], Some(f));
      TotalOfSum(before, [last]);
      TotalOfOne(last);
      assert before + [] == before;
    }
  }

  lemma {:induction false} ElemItemsAreSmall(elems: seq<Node>, path: seq<Step>)
    ensures Total(ElemItems(elems, path)) == SizeOfAll(elems)
  {
    if elems != [] {
      var n := |elems| - 1;
      ElemItemsAreSmall(elems[..n], path);
      var last := Item(elems[n], path + [Index(n)], None);
      assert ElemItems(elems, path) == ElemItems(elems[..n], path) + [last];
      TotalOfSum(ElemItems(elems[..n], path), [last]);
      TotalOfOne(last);
    }
  }

  lemma NextIsSmaller(visit: Callback, item: Item)
    ensures Total(Next(visit, item)) < Size(item.node)
  {
    var node := Indirect(item.node);
    if node.Struct? { FieldItemsAreSmall(node.fields, item.path); }
    if node.Slice? { ElemItemsAreSmall(node.elems, item.path); }
  }

  // ---------- the walk ----------

  /** The items a queue leads to, in the order they leave it. */
  ghost function Bfs(visit: Callback, queue: seq<Item>): seq<Item>
    decreases Total(queue)
  {
    if queue == [] then [] else
      QueueShrinks(visit, queue);
      [queue[0]] + Bfs(visit, queue[1..] + Next(visit, queue[0]))
  }

  lemma QueueShrinks(visit: Callback, queue: seq<Item>)
    requires queue != []
    ensures Total(queue[1..] + Next(visit, queue[0])) < Total(queue)
  {
    NextIsSmaller(visit, queue[0]);
    TotalOfSum(queue[1..], Next(visit, queue[0]));
  }

  /** The queue with the exported fields or the elements of a node behind it, in their order. */
  method PushChildren(queue: seq<Item>, item: Item) returns (items: seq<Item>)
    ensures items == queue + Expand(item)
  {
    items := queue;
    if item.node.Nil? { return; }
    var node := Indirect(item.node);
    match node
    case Struct(fields) =>
      for i := 0 to |fields|
        invariant items == queue + FieldItems(fields[..i], item.path)
      {
        assert fields[..i + 1][..i] == fields[..i];
        if fields[i].exported {
          items := items + [Item(fields[i].value, item.path + [Child(fields[i].name)], Some(fields[i]))];
        }
      }
      assert fields[..|fields|] == fields;
    case Slice(elems) =>
      for i := 0 to |elems|
        invariant items == queue + ElemItems(elems, item.path)[..i]
      {
        items := items + [Item(elems[i], item.path + [Index(i)], None)];
      }
    case _ =>
  }

  /** `calls` lists the calls of the callback. The loop ends on every finite object, and the calls are the levels of the
      object below its root, one after the other. */
  method Walk(visit: Callback, obj: Node) returns (calls: seq<Item>)
    ensures calls == Levels(visit, Expand(Item(obj, [], None)))
  {
    hide Expand, Bfs;
    var root := Item(obj, [], None);
    var items := [root];
    calls := [];
    ghost var popped := [];
    while items != []
      invariant popped + Bfs(visit, items) == Bfs(visit, [root])
      invariant if popped == [] then items == [root] && calls == [] else popped == [root] + calls && BelowRoot(items)
      decreases Total(items)
    {
      var node := items[0];
      ghost var queue := items;
      BfsUnfolds(visit, queue);
      QueueShrinks(visit, queue);
      ChildrenAreBelowRoot(visit, node);
      popped := popped + [node];
      items := items[1..];
      if node.path != [] {
        calls := calls + [node];
        if !visit(node) {
          assert items + [] == items;
          continue;
        }
      }
      items := PushChildren(items, node);
    }
    BfsUnfolds(visit, []);
    BfsUnfolds(visit, [root]);
    assert [root][1..] + Next(visit, root) == Expand(root);
    BfsIsLevels(visit, Expand(root));
    assert popped + [] == popped;
    assert calls == popped[1..];
  }

  predicate BelowRoot(items: seq<Item>) {
    forall i :: 0 <= i < |items| ==> items[i].path != []
  }

  lemma {:induction false} FieldItemsBelowRoot(fields: seq<Field>, path: seq<Step>)
    ensures BelowRoot(FieldItems(fields, path))
  {
    if fields != [] { FieldItemsBelowRoot(fields[..|fields| - 1], path); }
  }

  lemma ChildrenAreBelowRoot(visit: Callback, item: Item)
    ensures BelowRoot(Next(visit, item))
  {
    var node := Indirect(item.node);
    if node.Struct? { FieldItemsBelowRoot(node.fields, item.path); }
  }

  lemma BfsUnfolds(visit: Callback, queue: seq<Item>)
    ensures Bfs(visit, queue) == if queue == [] then [] else [queue[0]] + Bfs(visit, queue[1..] + Next(visit, queue[0]))
  {
  }

  // ---------- level order ----------

  /** All children of a level, from left to right. */
  ghost function NextLevel(visit: Callback, level: seq<Item>): seq<Item> {
    if level == [] then [] else Next(visit, level[0]) + NextLevel(visit, level[1..])
  }

  lemma {:induction false} LevelShrinks(visit: Callback, level: seq<Item>)
    ensures if level == [] then NextLevel(visit, level) == [] else Total(NextLevel(visit, level)) < Total(level)
  {
    if level != [] {
      LevelShrinks(visit, level[1..]);
      NextIsSmaller(visit, level[0]);
      TotalOfSum(Next(visit, level[0]), NextLevel(visit, level[1..]));
    }
  }

  /** A level, then the levels below it. */
  ghost function Levels(visit: Callback, level: seq<Item>): seq<Item>
    decreases Total(level)
  {
    if level == [] then [] else
      LevelShrinks(visit, level);
      level + Levels(visit, NextLevel(visit, level))
  }

  /** The queue holds the rest of a level and, behind it, the children of the part already done. */
  lemma {:induction false} LevelPasses(visit: Callback, level: seq<Item>, behind: seq<Item>)
    ensures Bfs(visit, level + behind) == level + Bfs(visit, behind + NextLevel(visit, level))
    decreases |level|
  {
    hide Next, Bfs;
    if level == [] {
      assert level + behind == behind && behind + [] == behind;
    } else {
      var children := Next(visit, level[0]);
      BfsUnfolds(visit, level + behind);
      assert (level + behind)[1..] + children == level[1..] + (behind + children);
      LevelPasses(visit, level[1..], behind + children);
      assert behind + children + NextLevel(visit, level[1..]) == behind + NextLevel(visit, level);
      assert level == [level[0]] + level[1..];
    }
  }

  /** The queue's order is level order. */
  lemma {:induction false} BfsIsLevels(visit: Callback, level: seq<Item>)
    ensures Bfs(visit, level) == Levels(visit, level)
    decreases Total(level)
  {
    hide Next, Bfs, NextLevel;
    if level == [] {
      BfsUnfolds(visit, level);
    } else {
      assert level + [] == level && [] + NextLevel(visit, level) == NextLevel(visit, level);
      LevelPasses(visit, level, []);
      LevelShrinks(visit, level);
      BfsIsLevels(visit, NextLevel(visit, level));
    }
  }
}
