/** Which nodes the walk calls back on, stated by path instead of by queue (api/genericwebhook/bfs.go). */
module FieldPaths {
  import opened Text
  import opened FieldWalker

  /** The exported fields of one struct have different names, as the language demands. */
  predicate WellNamed(node: Node) {
    match node
    case Struct(fields) =>
      && (forall i, j :: 0 <= i < j < |fields| && fields[i].exported && fields[j].exported ==>
          fields[i].name != fields[j].name)
      && (forall i :: 0 <= i < |fields| ==> WellNamed(fields[i].value))
    case Slice(elems) => forall i :: 0 <= i < |elems| ==> WellNamed(elems[i])
    case Pointer(target) => WellNamed(target)
    case _ => true
  }

  // ---------- the node at a path ----------

  function FindField(fields: seq<Field>, name: string): Option<Field> {
    if fields == [] then None
    else if fields[0].exported && fields[0].name == name then Some(fields[0])
    else FindField(fields[1..], name)
  }

  function FieldAt(fields: seq<Field>, path: seq<Step>, step: Step): Option<Item> {
    if !step.Child? then None else
      var f := FindField(fields, step.name);
      if f.Some? then Some(Item(f.value.value, path + [step], f)) else None
  }

  function ElemAt(elems: seq<Node>, path: seq<Step>, step: Step): Option<Item> {
    if step.Index? && step.i < |elems| then Some(Item(elems[step.i], path + [step], None)) else None
  }

  /** One step from a node: into a struct or a slice, or into one that the node points to. */
  function ChildAt(item: Item, step: Step): Option<Item> {
    match item.node
    case Struct(fields) => FieldAt(fields, item.path, step)
    case Slice(elems) => ElemAt(elems, item.path, step)
    case Pointer(Struct(fields)) => FieldAt(fields, item.path, step)
    case Pointer(Slice(elems)) => ElemAt(elems, item.path, step)
    case _ => None
  }

  /** The node a path leads to, through exported fields, elements and non-nil pointers. */
  function Resolve(obj: Node, path: seq<Step>): Option<Item>
    decreases |path|
  {
    if path == [] then Some(Item(obj, [], None)) else
      var parent := Resolve(obj, path[..|path| - 1]);
      if parent.None? then None else ChildAt(parent.value, path[|path| - 1])
  }

  /** The item is the node at its path, and the callback accepts every node strictly between the root and it. */
  ghost predicate Due(visit: Callback, obj: Node, c: Item) {
    Resolve(obj, c.path) == Some(c) && forall n :: 0 < n < |c.path| ==> Accepted(visit, obj, c.path[..n])
  }

  ghost predicate Accepted(visit: Callback, obj: Node, path: seq<Step>) {
    Resolve(obj, path).Some? && visit(Resolve(obj, path).value)
  }

  ghost predicate Distinct(items: seq<Item>) {
    forall i, j :: 0 <= i < j < |items| ==> items[i].path != items[j].path
  }

  // ---------- children, by path ----------

  lemma {:induction false} FindFieldIs(fields: seq<Field>, name: string)
    ensures FindField(fields, name).Some? ==>
      exists i :: 0 <= i < |fields| && fields[i].exported && fields[i].name == name
        && FindField(fields, name) == Some(fields[i])
    ensures FindField(fields, name).None? ==> forall i :: 0 <= i < |fields| && fields[i].exported ==>
      fields[i].name != name
  {
    if fields != [] && !(fields[0].exported && fields[0].name == name) {
      FindFieldIs(fields[1..], name);
      if FindField(fields, name).Some? {
        var i :| 0 <= i < |fields[1..]| && fields[1..][i].exported && fields[1..][i].name == name
          && FindField(fields[1..], name) == Some(fields[1..][i]);
        assert fields[i + 1] == fields[1..][i];
      } else {
        forall i | 0 <= i < |fields| && fields[i].exported ensures fields[i].name != name {
          if i > 0 { assert fields[1..][i - 1] == fields[i]; }
        }
      }
    }
  }

  predicate ItemOfField(c: Item, f: Field, path: seq<Step>) {
    f.exported && c == Item(f.value, path + [Child(f.name)], Some(f))
  }

  lemma {:induction false} FieldItemsIff(fields: seq<Field>, path: seq<Step>, c: Item)
    ensures c in FieldItems(fields, path) <==> exists i :: 0 <= i < |fields| && ItemOfField(c, fields[i], path)
  {
    if fields != [] {
      var n := |fields| - 1;
      FieldItemsIff(fields[..n], path, c);
      if exists i :: 0 <= i < |fields| && ItemOfField(c, fields[i], path) {
        var i :| 0 <= i < |fields| && ItemOfField(c, fields[i], path);
        if i < n { assert fields[..n][i] == fields[i]; }
      }
    }
  }

  lemma {:induction false} FieldItemsDistinct(fields: seq<Field>, path: seq<Step>)
    requires forall i, j :: 0 <= i < j < |fields| && fields[i].exported && fields[j].exported ==>
      fields[i].name != fields[j].name
    ensures Distinct(FieldItems(fields, path))
  {
    if fields != [] {
      var n := |fields| - 1;
      FieldItemsDistinct(fields[..n], path);
      forall c | c in FieldItems(fields[..n], path) && fields[n].exported
        ensures c.path != path + [Child(fields[n].name)]
      {
        FieldItemsIff(fields[..n], path, c);
        var i :| 0 <= i < n && ItemOfField(c, fields[..n][i], path);
        assert (path + [Child(fields[n].name)])[|path|] == Child(fields[n].name);
        assert (path + [Child(fields[i].name)])[|path|] == Child(fields[i].name);
      }
    }
  }

  /** A child of an item is exactly the node one step further. */
  lemma ChildIff(item: Item, c: Item)
    requires WellNamed(item.node)
    ensures c in Expand(item) <==>
      c.path != [] && c.path[..|c.path| - 1] == item.path && ChildAt(item, c.path[|c.path| - 1]) == Some(c)
  {
    var node := Indirect(item.node);
    if node.Struct? {
      FieldChildIff(node.fields, item.path, c);
      if c.path != [] && c.path[|c.path| - 1].Child? { FindFieldIs(node.fields, c.path[|c.path| - 1].name); }
    } else if node.Slice? {
      ElemChildIff(node.elems, item.path, c);
    }
    if c.path != [] && c.path[..|c.path| - 1] == item.path { assert item.path + [c.path[|c.path| - 1]] == c.path; }
  }

  lemma FieldChildIff(fields: seq<Field>, path: seq<Step>, c: Item)
    requires WellNamed(Struct(fields))
    ensures c in FieldItems(fields, path) <==>
      c.path != [] && c.path[..|c.path| - 1] == path && var step := c.path[|c.path| - 1];
      step.Child? && FindField(fields, step.name).Some? && ItemOfField(c, FindField(fields, step.name).value, path)
  {
    FieldItemsIff(fields, path, c);
    if c in FieldItems(fields, path) {
      var i :| 0 <= i < |fields| && ItemOfField(c, fields[i], path);
      assert c.path[..|c.path| - 1] == path;
      FindFieldIs(fields, fields[i].name);
    } else if c.path != [] && c.path[|c.path| - 1].Child? {
      FindFieldIs(fields, c.path[|c.path| - 1].name);
    }
  }

  lemma ElemChildIff(elems: seq<Node>, path: seq<Step>, c: Item)
    ensures c in ElemItems(elems, path) <==>
      c.path != [] && c.path[..|c.path| - 1] == path && var step := c.path[|c.path| - 1];
      step.Index? && step.i < |elems| && c == Item(elems[step.i], path + [step], None)
  {
    if c in ElemItems(elems, path) {
      var i :| 0 <= i < |elems| && c == ElemItems(elems, path)[i];
      assert c.path[..|c.path| - 1] == path;
    } else if c.path != [] {
      var step := c.path[|c.path| - 1];
      if step.Index? && step.i < |elems| {
        assert ElemItems(elems, path)[step.i] == Item(elems[step.i], path + [step], None);
      }
    }
  }

  lemma ChildrenDistinct(item: Item)
    requires WellNamed(item.node)
    ensures Distinct(Expand(item))
  {
    var node := Indirect(item.node);
    if node.Struct? {
      FieldItemsDistinct(node.fields, item.path);
    } else if node.Slice? {
      var items := ElemItems(node.elems, item.path);
      forall i, j | 0 <= i < j < |items| ensures items[i].path != items[j].path {
        assert items[i].path[|item.path|] == Index(i) && items[j].path[|item.path|] == Index(j);
      }
    }
  }

  lemma {:induction false} ResolvedIsWellNamed(obj: Node, path: seq<Step>)
    requires WellNamed(obj)
    ensures Resolve(obj, path).Some? ==>
      WellNamed(Resolve(obj, path).value.node) && Resolve(obj, path).value.path == path
    decreases |path|
  {
    if path != [] {
      var n := |path| - 1;
      ResolvedIsWellNamed(obj, path[..n]);
      assert path[..n] + [path[n]] == path;
      var parent := Resolve(obj, path[..n]);
      if parent.Some? {
        var node := Indirect(parent.value.node);
        assert WellNamed(node);
        if node.Struct? && path[n].Child? { FindFieldIs(node.fields, path[n].name); }
      }
    }
  }

  // ---------- levels, by path ----------

  /** A level holds, once each, the due nodes at its depth. */
  ghost predicate IsLevel(visit: Callback, obj: Node, level: seq<Item>, depth: nat) {
    Distinct(level) && forall c :: c in level <==> |c.path| == depth && Due(visit, obj, c)
  }

  lemma {:induction false} NextLevelIff(visit: Callback, level: seq<Item>, c: Item)
    ensures c in NextLevel(visit, level) <==> exists i :: 0 <= i < |level| && c in Next(visit, level[i])
  {
    hide Next;
    if level != [] {
      NextLevelIff(visit, level[1..], c);
      if exists i :: 0 <= i < |level| && c in Next(visit, level[i]) {
        var i :| 0 <= i < |level| && c in Next(visit, level[i]);
        if i > 0 { assert level[1..][i - 1] == level[i]; }
      }
    }
  }

  /** The parent of a due node is due and was accepted. */
  lemma ParentIsDue(visit: Callback, obj: Node, c: Item)
    requires WellNamed(obj) && c.path != []
    ensures Due(visit, obj, c) <==>
      var parent := Resolve(obj, c.path[..|c.path| - 1]);
      parent.Some? && Due(visit, obj, parent.value) && c in Next(visit, parent.value)
  {
    hide Expand, ChildAt, WellNamed;
    var up := c.path[..|c.path| - 1];
    ResolvedIsWellNamed(obj, up);
    AcceptedAbove(visit, obj, c.path);
    if Resolve(obj, up).Some? {
      ChildIff(Resolve(obj, up).value, c);
    }
  }

  lemma AcceptedAbove(visit: Callback, obj: Node, path: seq<Step>)
    requires path != []
    ensures var up := path[..|path| - 1];
            (forall n :: 0 < n < |path| ==> Accepted(visit, obj, path[..n]))
            <==> (forall n :: 0 < n < |up| ==> Accepted(visit, obj, up[..n])) && (up != [] ==> Accepted(visit, obj, up))
  {
    hide Accepted;
    var up := path[..|path| - 1];
    forall n | 0 < n < |up| ensures up[..n] == path[..n] {}
    if (forall n :: 0 < n < |up| ==> Accepted(visit, obj, up[..n])) && (up != [] ==> Accepted(visit, obj, up)) {
      forall n | 0 < n < |path| ensures Accepted(visit, obj, path[..n]) {
        if n < |up| { assert up[..n] == path[..n]; }
      }
    }
  }

  lemma NextIsLevel(visit: Callback, obj: Node, level: seq<Item>, depth: nat)
    requires WellNamed(obj) && IsLevel(visit, obj, level, depth)
    ensures IsLevel(visit, obj, NextLevel(visit, level), depth + 1)
  {
    hide Next, NextLevel, Due, Resolve;
    forall c ensures c in NextLevel(visit, level) <==> |c.path| == depth + 1 && Due(visit, obj, c) {
      NextLevelMember(visit, obj, level, depth, c);
    }
    forall i | 0 <= i < |level| ensures WellNamed(level[i].node) {
      LevelIsWellNamed(visit, obj, level, depth, level[i]);
    }
    NextLevelDistinct(visit, level);
  }

  lemma LevelIsWellNamed(visit: Callback, obj: Node, level: seq<Item>, depth: nat, c: Item)
    requires WellNamed(obj) && IsLevel(visit, obj, level, depth) && c in level
    ensures WellNamed(c.node)
  {
    ResolvedIsWellNamed(obj, c.path);
  }

  lemma NextLevelMember(visit: Callback, obj: Node, level: seq<Item>, depth: nat, c: Item)
    requires WellNamed(obj) && IsLevel(visit, obj, level, depth)
    ensures c in NextLevel(visit, level) <==> |c.path| == depth + 1 && Due(visit, obj, c)
  {
    hide NextLevel, Expand, ChildAt, WellNamed;
    NextLevelIff(visit, level, c);
    if c in NextLevel(visit, level) {
      var i :| 0 <= i < |level| && c in Next(visit, level[i]);
      LevelIsWellNamed(visit, obj, level, depth, level[i]);
      ChildIff(level[i], c);
      ParentIsDue(visit, obj, c);
    }
    if |c.path| == depth + 1 && Due(visit, obj, c) {
      ParentIsDue(visit, obj, c);
      var parent := Resolve(obj, c.path[..depth]).value;
      ResolvedIsWellNamed(obj, c.path[..depth]);
      assert parent in level;
    }
  }

  lemma {:induction false} NextLevelDistinct(visit: Callback, level: seq<Item>)
    requires Distinct(level) && forall i :: 0 <= i < |level| ==> WellNamed(level[i].node)
    ensures Distinct(NextLevel(visit, level))
  {
    if level != [] {
      var first, rest := Next(visit, level[0]), NextLevel(visit, level[1..]);
      NextLevelDistinct(visit, level[1..]);
      ChildrenDistinct(level[0]);
      forall c, d | c in first && d in rest ensures c.path != d.path {
        NextLevelIff(visit, level[1..], d);
        var i :| 0 <= i < |level[1..]| && d in Next(visit, level[1..][i]);
        ChildIff(level[0], c);
        ChildIff(level[i + 1], d);
      }
      DistinctSum(first, rest);
    }
  }

  lemma DistinctSum(a: seq<Item>, b: seq<Item>)
    requires Distinct(a) && Distinct(b) && forall c, d :: c in a && d in b ==> c.path != d.path
    ensures Distinct(a + b)
  {
    forall i, j | 0 <= i < j < |a + b| ensures (a + b)[i].path != (a + b)[j].path {
      if i < |a| && j >= |a| { assert (a + b)[i] in a && (a + b)[j] in b; }
    }
  }

  /** The levels from a depth on hold, once each, the due nodes at that depth or deeper, in order of depth. */
  lemma {:induction false} LevelsHoldTheDue(visit: Callback, obj: Node, level: seq<Item>, depth: nat)
    requires WellNamed(obj) && IsLevel(visit, obj, level, depth)
    ensures Distinct(Levels(visit, level))
    ensures forall c :: c in Levels(visit, level) <==> |c.path| >= depth && Due(visit, obj, c)
    ensures forall i, j :: 0 <= i < j < |Levels(visit, level)| ==>
      |Levels(visit, level)[i].path| <= |Levels(visit, level)[j].path|
    decreases Total(level)
  {
    hide NextLevel, Due, WellNamed;
    if level == [] {
      forall c: Item ensures !(|c.path| >= depth && Due(visit, obj, c)) {
        if |c.path| >= depth && Due(visit, obj, c) { DueAbove(visit, obj, c, depth); }
      }
    } else {
      var next := NextLevel(visit, level);
      NextIsLevel(visit, obj, level, depth);
      LevelShrinks(visit, level);
      LevelsHoldTheDue(visit, obj, next, depth + 1);
      DistinctSum(level, Levels(visit, next));
    }
  }

  /** Above a due node there is a due node at every smaller depth. */
  lemma DueAbove(visit: Callback, obj: Node, c: Item, depth: nat)
    requires WellNamed(obj) && Due(visit, obj, c) && depth <= |c.path|
    ensures exists d: Item :: |d.path| == depth && Due(visit, obj, d)
    decreases |c.path|
  {
    if depth < |c.path| {
      ParentIsDue(visit, obj, c);
      var parent := Resolve(obj, c.path[..|c.path| - 1]).value;
      ResolvedIsWellNamed(obj, c.path[..|c.path| - 1]);
      DueAbove(visit, obj, parent, depth);
    }
  }

  /** The item of a field at the top of an object. */
  function TopField(f: Field): Item {
    Item(f.value, [Child(f.name)], Some(f))
  }

  /** The walk calls back exactly once on each node below the root all of whose ancestors below the root were accepted,
      on no other, and never on a deeper node before a shallower one. Of an object passed by pointer these are, to
      begin with, all its exported fields, whatever the callback says. */
  method WalkVisitsTheDue(visit: Callback, obj: Node) returns (calls: seq<Item>)
    requires WellNamed(obj)
    ensures Distinct(calls)
    ensures forall c :: c in calls <==> c.path != [] && Due(visit, obj, c)
    ensures forall i, j :: 0 <= i < j < |calls| ==> |calls[i].path| <= |calls[j].path|
    ensures obj.Pointer? && obj.target.Struct? ==>
      forall i :: 0 <= i < |obj.target.fields| && obj.target.fields[i].exported ==>
        TopField(obj.target.fields[i]) in calls
  {
    hide Due, WellNamed, Expand;
    calls := Walk(visit, obj);
    FirstLevel(visit, obj);
    LevelsHoldTheDue(visit, obj, Expand(Item(obj, [], None)), 1);
    if obj.Pointer? && obj.target.Struct? {
      forall i | 0 <= i < |obj.target.fields| && obj.target.fields[i].exported
        ensures TopField(obj.target.fields[i]) in calls
      {
        TopFieldIsDue(visit, obj, i);
      }
    }
  }

  lemma TopFieldIsDue(visit: Callback, obj: Node, i: nat)
    requires WellNamed(obj) && obj.Pointer? && obj.target.Struct?
    requires i < |obj.target.fields| && obj.target.fields[i].exported
    ensures Due(visit, obj, TopField(obj.target.fields[i]))
  {
    var f := obj.target.fields[i];
    assert WellNamed(obj.target);
    FindFieldIs(obj.target.fields, f.name);
    assert [Child(f.name)][..0] == [] && [] + [Child(f.name)] == [Child(f.name)];
  }

  lemma FirstLevel(visit: Callback, obj: Node)
    requires WellNamed(obj)
    ensures IsLevel(visit, obj, Expand(Item(obj, [], None)), 1)
  {
    var root := Item(obj, [], None);
    assert IsLevel(visit, obj, [root], 0);
    NextIsLevel(visit, obj, [root], 0);
    assert NextLevel(visit, [root]) == Next(visit, root) + [] == Expand(root);
  }
}
