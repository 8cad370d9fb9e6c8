/** The tree of all classes, built from classes listed in no particular order. */
module ClassTree {
  import opened Engine
  import opened ClassFilter
  import opened FilterNodes

  /** The class every other derives from. */
  const OBJECT := Class("/Script/CoreUObject.Object", None)

  type Nodes = map<Class, Node?>

  predicate Has(nodes: Nodes, c: Class) {
    c in nodes && nodes[c] != null
  }

  /** What each entry is: the node of its class, its children being attached nodes of direct subclasses. */
  ghost predicate EntriesFit(nodes: Nodes, visited: set<Class>)
    reads nodes.Values
  {
    forall c :: Has(nodes, c) ==>
      && nodes[c].cls == c && nodes[c].filterState == Mark.Unmarked && Distinct(nodes[c].childrenList)
      && forall k :: k in nodes[c].childrenList ==>
            k.cls in visited && Has(nodes, k.cls) && nodes[k.cls] == k && k.cls.super == Some(c)
  }

  /** A visited class has its node, which is attached under that of its superclass. */
  ghost predicate IsAttached(nodes: Nodes, c: Class)
    reads nodes.Values
  {
    && Has(nodes, c)
    && if c.super.Some? then
         && Has(nodes, c.super.value) && nodes[c].parentNode == nodes[c.super.value]
         && nodes[c] in nodes[c.super.value].childrenList
       else nodes[c].parentNode == null
  }

  /** The links made so far. */
  ghost predicate Linked(nodes: Nodes, visited: set<Class>)
    reads nodes.Values
  {
    EntriesFit(nodes, visited) && forall c :: c in visited ==> IsAttached(nodes, c)
  }

  /** What has been walked so far; only `top` may still wait to be attached. */
  ghost predicate Walked(entries: set<Class>, visited: set<Class>, top: Class) {
    && OBJECT in visited && visited <= entries
    && (forall c :: c in entries ==> IsA(c, OBJECT) && (c in visited || c == top))
    && (forall c :: c in visited && c.super.Some? ==> c.super.value in visited || c.super.value == top)
  }

  /** An entry without a node yet changes nothing. */
  lemma EmptyEntryKeepsLinks(nodes: Nodes, c: Class, visited: set<Class>)
    requires Linked(nodes, visited)
    ensures Linked(if c in nodes then nodes else nodes[c := null], visited)
  {
  }

  /** The entry of a class, made if it is missing. */
  method FindOrCreate(nodes: Nodes, c: Class, ghost visited: set<Class>) returns (nodes': Nodes, entry: Node)
    requires Linked(nodes, visited)
    ensures Linked(nodes', visited) && entry.cls == c && nodes' == nodes[c := entry]
    ensures Has(nodes, c) ==> entry == nodes[c]
    ensures !Has(nodes, c) ==> fresh(entry)
  {
    nodes' := if c in nodes then nodes else nodes[c := null];
    EmptyEntryKeepsLinks(nodes, c, visited);
    if nodes'[c] == null {
      var created := new Node(c);
      nodes' := nodes'[c := created];
    }
    entry := nodes'[c];
  }

  method Attach(ghost nodes: Nodes, ghost visited: set<Class>, parentEntry: Node, myEntry: Node)
    requires Linked(nodes, visited) && myEntry.cls !in visited && myEntry.cls.super == Some(parentEntry.cls)
    requires Has(nodes, myEntry.cls) && nodes[myEntry.cls] == myEntry
    requires Has(nodes, parentEntry.cls) && nodes[parentEntry.cls] == parentEntry
    modifies parentEntry, myEntry
    ensures Linked(nodes, visited + {myEntry.cls})
  {
    parentEntry.AddChild(myEntry);
  }

  /** The entries of a class and of its superclass, made where there are none. The class is listed already, so only
      the superclass can be a new key. */
  method FindBoth(nodes: Nodes, current: Class, ghost visited: set<Class>)
    returns (nodes': Nodes, parentEntry: Node, myEntry: Node)
    requires Linked(nodes, visited) && current in nodes && current.super.Some?
    ensures Linked(nodes', visited) && parentEntry.cls == current.super.value && myEntry.cls == current
    ensures nodes' == nodes[current.super.value := parentEntry][current := myEntry]
    ensures Keeps(nodes, nodes') && nodes'.Keys == nodes.Keys + {current.super.value}
    ensures !Has(nodes, current) ==> fresh(myEntry)
    ensures !Has(nodes, current.super.value) ==> fresh(parentEntry)
  {
    hide Linked;
    nodes', parentEntry := FindOrCreate(nodes, current.super.value, visited);
    assert current in nodes';
    nodes', myEntry := FindOrCreate(nodes', current, visited);
  }

  ghost predicate Keeps(nodes: Nodes, nodes': Nodes) {
    forall c :: Has(nodes, c) ==> Has(nodes', c) && nodes'[c] == nodes[c]
  }

  /** One round of the walk up: a class is attached under its superclass, unless it already was. */
  method AttachOne(nodes: Nodes, visited: set<Class>, current: Class) returns (nodes': Nodes, visited': set<Class>)
    requires Linked(nodes, visited) && current in nodes && current.super.Some?
    modifies nodes.Values
    ensures Linked(nodes', visited') && visited' == visited + {current}
    ensures nodes'.Keys == nodes.Keys + {current.super.value} && Keeps(nodes, nodes')
    ensures forall c :: Has(nodes', c) && !Has(nodes, c) ==> fresh(nodes'[c])
  {
    hide Linked, Walked;
    var parentEntry, myEntry;
    nodes', parentEntry, myEntry := FindBoth(nodes, current, visited);
    visited' := visited;
    if current !in visited {
      Attach(nodes', visited, parentEntry, myEntry);
      visited' := visited' + {current};
    } else {
      assert visited + {current} == visited;
    }
  }

  ghost predicate Walking(walked: set<Class>, visited: set<Class>, from: Class, current: Class) {
    && IsA(from, current)
    && (forall a :: a in visited ==> a in walked || IsA(from, a))
    && (forall a :: a in walked ==> a in visited)
    && (forall a :: IsA(from, a) ==> a in visited || IsA(current, a))
  }

  lemma WalkedOneUp(entries: set<Class>, before: set<Class>, walked: set<Class>, from: Class, current: Class)
    requires Walked(entries, before, current) && current in entries && current.super.Some?
    requires Walking(walked, before, from, current)
    ensures var super := current.super.value;
            && Walked(entries + {super}, before + {current}, super)
            && Walking(walked, before + {current}, from, super)
  {
    IsATransitive(from, current, current.super.value);
  }

  lemma RootReached(entries: set<Class>, visited: set<Class>, walked: set<Class>, from: Class, current: Class)
    requires Walked(entries, visited, current) && current in entries && current.super.None?
    requires Walking(walked, visited, from, current)
    ensures entries == visited && Walked(entries, visited, OBJECT)
    ensures forall a :: a in visited <==> a in walked || IsA(from, a)
  {
    assert IsA(current, OBJECT) && current == OBJECT;
  }

  /** A class and all above it are attached. */
  method AttachAbove(nodes: Nodes, visited: set<Class>, from: Class) returns (nodes': Nodes, visited': set<Class>)
    requires Linked(nodes, visited) && Walked(nodes.Keys, visited, from) && from in nodes
    modifies nodes.Values
    ensures Linked(nodes', visited') && nodes'.Keys == visited' && Walked(nodes'.Keys, visited', OBJECT)
    ensures forall a :: a in visited' <==> a in visited || IsA(from, a)
    ensures Keeps(nodes, nodes')
    ensures forall c :: Has(nodes', c) && !Has(nodes, c) ==> fresh(nodes'[c])
  {
    hide Linked, Walked;
    nodes', visited' := nodes, visited;
    var current := from;
    while current.super.Some?
      invariant Linked(nodes', visited') && current in nodes' && Walked(nodes'.Keys, visited', current)
      invariant Walking(visited, visited', from, current)
      invariant Keeps(nodes, nodes')
      invariant forall c :: Has(nodes', c) && !Has(nodes, c) ==> fresh(nodes'[c])
      decreases current
    {
      WalkedOneUp(nodes'.Keys, visited', visited, from, current);
      nodes', visited' := AttachOne(nodes', visited', current);
      current := current.super.value;
    }
    RootReached(nodes'.Keys, visited', visited, from, current);
  }

  /** One class of the listing, with all above it; ineligible classes are passed over. */
  method AddClass(nodes: Nodes, visited: set<Class>, c: Class, ignored: bool)
    returns (nodes': Nodes, visited': set<Class>)
    requires Linked(nodes, visited) && nodes.Keys == visited && Walked(visited, visited, OBJECT) && IsA(c, OBJECT)
    modifies nodes.Values
    ensures Linked(nodes', visited') && nodes'.Keys == visited' && Walked(visited', visited', OBJECT)
    ensures forall a :: a in visited' <==> a in visited || (!ignored && IsA(c, a))
    ensures Keeps(nodes, nodes') && forall c :: Has(nodes', c) && !Has(nodes, c) ==> fresh(nodes'[c])
  {
    hide Linked;
    nodes', visited' := nodes, visited;
    if ignored {
      return;
    }
    nodes' := if c in nodes then nodes else nodes[c := null];
    EmptyEntryKeepsLinks(nodes, c, visited);
    if c in visited {
      AncestorsWalked(visited, c);
      return;
    }
    nodes', visited' := AttachAbove(nodes', visited, c);
  }

  lemma AncestorsWalked(visited: set<Class>, c: Class)
    requires Walked(visited, visited, OBJECT) && c in visited
    ensures forall a :: IsA(c, a) ==> a in visited
  {
    if c.super.Some? {
      AncestorsWalked(visited, c.super.value);
    }
  }

  // The finished tree

  /** A node for each of the given classes, every child list complete. */
  ghost predicate IsTree(nodes: Nodes)
    reads nodes.Values
  {
    && Linked(nodes, nodes.Keys)
    && OBJECT in nodes && (forall c :: c in nodes ==> IsA(c, OBJECT))
    && forall c :: c in nodes && c.super.Some? ==> c.super.value in nodes
  }

  /** The children of a node are those of its direct subclasses, each once, and only its own. */
  lemma ChildrenAreTheDirectSubclasses(nodes: Nodes, c: Class)
    requires IsTree(nodes) && c in nodes
    ensures Has(nodes, c) && nodes[c].cls == c && Distinct(nodes[c].childrenList)
    ensures forall d :: d in nodes ==> (nodes[d] in nodes[c].childrenList <==> d.super == Some(c))
    ensures forall k :: k in nodes[c].childrenList ==> k.cls in nodes && nodes[k.cls] == k && k.parentNode == nodes[c]
  {
    assert IsAttached(nodes, c);
    forall d | d in nodes
      ensures nodes[d] in nodes[c].childrenList <==> d.super == Some(c)
    {
      assert IsAttached(nodes, d) && Has(nodes, d);
    }
    forall k | k in nodes[c].childrenList
      ensures k.cls in nodes && nodes[k.cls] == k && k.parentNode == nodes[c]
    {
      assert IsAttached(nodes, k.cls);
    }
  }

  /** Going down from the root, child by child, one gets to the node of `c`. */
  ghost predicate IsReached(nodes: Nodes, c: Class)
    reads nodes.Values
  {
    && Has(nodes, c)
    && (c == OBJECT
        || (c.super.Some? && Has(nodes, c.super.value) && nodes[c] in nodes[c.super.value].childrenList
            && IsReached(nodes, c.super.value)))
  }

  lemma {:induction false} EveryClassIsReached(nodes: Nodes, c: Class)
    requires IsTree(nodes) && c in nodes
    ensures IsReached(nodes, c)
  {
    assert IsAttached(nodes, c) && IsA(c, OBJECT);
    if c != OBJECT {
      EveryClassIsReached(nodes, c.super.value);
    }
  }

  /** Two trees over the same classes have the same parents and children, in whatever order either was built. */
  lemma OrderDoesNotMatter(nodes: Nodes, nodes': Nodes, c: Class, d: Class)
    requires IsTree(nodes) && IsTree(nodes') && nodes.Keys == nodes'.Keys && c in nodes && d in nodes
    ensures Has(nodes, c) && Has(nodes', c)
    ensures nodes[d] in nodes[c].childrenList <==> nodes'[d] in nodes'[c].childrenList
    ensures |nodes[c].childrenList| == |nodes'[c].childrenList|
  {
    ChildrenAreTheDirectSubclasses(nodes, c);
    ChildrenAreTheDirectSubclasses(nodes', c);
    NoMoreChildren(nodes, nodes', c);
    NoMoreChildren(nodes', nodes, c);
  }

  lemma NoMoreChildren(nodes: Nodes, nodes': Nodes, c: Class)
    requires IsTree(nodes) && IsTree(nodes') && nodes.Keys == nodes'.Keys && c in nodes && Has(nodes, c)
             && Has(nodes', c)
    ensures |nodes[c].childrenList| <= |nodes'[c].childrenList|
  {
    ChildrenAreTheDirectSubclasses(nodes, c);
    ChildrenAreTheDirectSubclasses(nodes', c);
    var s, s' := nodes[c].childrenList, nodes'[c].childrenList;
    var classes, classes' := ClassesOf(s), ClassesOf(s');
    forall x | x in classes
      ensures x in classes'
    {
      assert nodes[x] in s && x.super == Some(c);
      assert nodes'[x] in s';
      assert nodes'[x].cls == x;
    }
    CountClasses(s);
    CountClasses(s');
    SubsetIsNotLarger(classes, classes');
  }

  lemma SubsetIsNotLarger<T>(a: set<T>, b: set<T>)
    requires a <= b
    ensures |a| <= |b|
  {
    assert b == a + (b - a);
  }

  ghost function ClassesOf(s: seq<Node>): set<Class> {
    set k | k in s :: k.cls
  }

  lemma {:induction false} CountClasses(s: seq<Node>)
    requires Distinct(s) && forall j, k :: 0 <= j < |s| && 0 <= k < |s| && s[j].cls == s[k].cls ==> s[j] == s[k]
    ensures |ClassesOf(s)| == |s|
  {
    if s != [] {
      var n := |s| - 1;
      CountClasses(s[..n]);
      assert s == s[..n] + [s[n]];
      assert ClassesOf(s) == ClassesOf(s[..n]) + {s[n].cls};
      assert s[n].cls !in ClassesOf(s[..n]);
    }
  }

  // Building and searching

  /** The classes a tree over `classes` has nodes for: the eligible ones and all above them. */
  ghost predicate Belongs(classes: seq<Class>, ignored: set<Class>, a: Class) {
    a == OBJECT || exists i :: 0 <= i < |classes| && classes[i] !in ignored && IsA(classes[i], a)
  }

  lemma BelongsMeans(classes: seq<Class>, ignored: set<Class>)
    ensures forall a :: Belongs(classes, ignored, a)
              <==> a == OBJECT || exists i :: 0 <= i < |classes| && classes[i] !in ignored && IsA(classes[i], a)
  {
  }

  function Below(keys: set<Class>, c: Class): set<Class> {
    set d | d in keys && IsA(d, c)
  }

  lemma ChildrenHaveLessBelow(keys: set<Class>, c: Class, k: Class)
    requires k.super == Some(c) && c in keys
    ensures Below(keys, k) < Below(keys, c)
  {
    forall d | IsA(d, k) ensures IsA(d, c) {
      IsATransitive(d, k, c);
    }
    if IsA(c, k) {
      SuperclassesAreShallower(c, k);
    }
    assert c in Below(keys, c);
  }

  /** The step from `c` towards a class deriving from it. */
  lemma {:induction false} StepTowards(c: Class, d: Class) returns (k: Class)
    requires IsA(d, c) && d != c
    ensures k.super == Some(c) && IsA(d, k)
  {
    if d.super == Some(c) {
      k := d;
    } else {
      k := StepTowards(c, d.super.value);
    }
  }

  lemma {:induction false} AllAboveAreThere(nodes: Nodes, d: Class, k: Class)
    requires IsTree(nodes) && d in nodes && IsA(d, k)
    ensures k in nodes
  {
    if d != k {
      AllAboveAreThere(nodes, d.super.value, k);
    }
  }

  lemma BelongsOneMore(classes: seq<Class>, ignored: set<Class>, i: nat)
    requires i < |classes|
    ensures forall a :: Belongs(classes[..i + 1], ignored, a)
                        <==> Belongs(classes[..i], ignored, a) || (classes[i] !in ignored && IsA(classes[i], a))
  {
    var upto := i + 1;
    forall a
      ensures Belongs(classes[..upto], ignored, a)
              <==> Belongs(classes[..i], ignored, a) || (classes[i] !in ignored && IsA(classes[i], a))
    {
      if Belongs(classes[..upto], ignored, a) && a != OBJECT {
        var j :| 0 <= j < |classes[..upto]| && classes[..upto][j] !in ignored && IsA(classes[..upto][j], a);
        assert j < i ==> classes[..i][j] == classes[j];
      }
      if Belongs(classes[..i], ignored, a) && a != OBJECT {
        var j :| 0 <= j < |classes[..i]| && classes[..i][j] !in ignored && IsA(classes[..i][j], a);
        assert classes[..upto][j] == classes[j];
      }
      if classes[i] !in ignored && IsA(classes[i], a) {
        assert classes[..upto][i] == classes[i];
      }
    }
  }

  lemma OnlyTheRoot(root: Node, ignored: set<Class>)
    requires root.cls == OBJECT && root.parentNode == null && root.childrenList == []
             && root.filterState == Mark.Unmarked
    ensures Linked(map[OBJECT := root], {OBJECT}) && Walked({OBJECT}, {OBJECT}, OBJECT)
    ensures forall a :: a in {OBJECT} <==> Belongs([], ignored, a)
  {
  }

  lemma AllAttachedIsATree(nodes: Nodes)
    requires Linked(nodes, nodes.Keys) && Walked(nodes.Keys, nodes.Keys, OBJECT)
    ensures IsTree(nodes)
  {
  }

  class ClassHierarchy {
    var objectClassRoot: Node?

    /** Builds the tree of all eligible classes. */
    method AddChildren_NoFilter(classes: seq<Class>, ignored: set<Class>) returns (ghost nodes: Nodes)
      requires forall c :: c in classes ==> IsA(c, OBJECT)
      modifies `objectClassRoot
      ensures IsTree(nodes) && objectClassRoot == nodes[OBJECT]
      ensures forall a :: a in nodes
                <==> a == OBJECT || exists i :: 0 <= i < |classes| && classes[i] !in ignored && IsA(classes[i], a)
      ensures forall c :: Has(nodes, c) ==> fresh(nodes[c])
    {
      hide Linked, Walked, Belongs, IsTree;
      var root := new Node(OBJECT);
      objectClassRoot := root;
      var entries: Nodes := map[OBJECT := root];
      var visited := {OBJECT};
      OnlyTheRoot(root, ignored);
      for i := 0 to |classes|
        invariant Linked(entries, visited) && entries.Keys == visited && Walked(visited, visited, OBJECT)
        invariant Has(entries, OBJECT) && entries[OBJECT] == root && objectClassRoot == root
        invariant forall a :: a in visited <==> Belongs(classes[..i], ignored, a)
        invariant forall c :: Has(entries, c) ==> fresh(entries[c])
      {
        BelongsOneMore(classes, ignored, i);
        entries, visited := AddClass(entries, visited, classes[i], classes[i] in ignored);
      }
      assert classes[..|classes|] == classes;
      nodes := entries;
      AllAttachedIsATree(nodes);
      BelongsMeans(classes, ignored);
    }

    /** FindNodeByClass: a search down from a node. */
    static method FindNodeByClass(root: Node, cls: Class, ghost nodes: Nodes) returns (r: Node?)
      requires IsTree(nodes) && Has(nodes, root.cls) && nodes[root.cls] == root
      ensures r == if cls in nodes && IsA(cls, root.cls) then nodes[cls] else null
      decreases Below(nodes.Keys, root.cls)
    {
      hide IsTree, IsA, Below;
      if root.cls == cls {
        IsItself(cls);
        return root;
      }
      for i := 0 to |root.childrenList|
        invariant forall j :: 0 <= j < i ==> !(cls in nodes && IsA(cls, root.childrenList[j].cls))
      {
        SearchBelowChild(nodes, root, root.childrenList[i], cls);
        r := FindNodeByClass(root.childrenList[i], cls, nodes);
        if r != null {
          return;
        }
      }
      r := null;
      FoundBelowAChild(nodes, root, cls);
    }
  }

  lemma IsItself(c: Class)
    ensures IsA(c, c)
  {
  }

  /** A child of a node has less below it, all of which is below the node. */
  lemma SearchBelowChild(nodes: Nodes, node: Node, child: Node, cls: Class)
    requires IsTree(nodes) && Has(nodes, node.cls) && nodes[node.cls] == node && child in node.childrenList
    ensures Has(nodes, child.cls) && nodes[child.cls] == child
    ensures Below(nodes.Keys, child.cls) < Below(nodes.Keys, node.cls)
    ensures IsA(cls, child.cls) ==> IsA(cls, node.cls)
    ensures cls in nodes ==> nodes[cls] != null
  {
    hide Linked;
    ChildrenAreTheDirectSubclasses(nodes, node.cls);
    ChildrenHaveLessBelow(nodes.Keys, node.cls, child.cls);
    if IsA(cls, child.cls) {
      IsATransitive(cls, child.cls, node.cls);
    }
    if cls in nodes {
      ChildrenAreTheDirectSubclasses(nodes, cls);
    }
  }

  /** What is below a node is below one of its children. */
  lemma FoundBelowAChild(nodes: Nodes, node: Node, cls: Class)
    requires IsTree(nodes) && Has(nodes, node.cls) && nodes[node.cls] == node && cls != node.cls
    ensures cls in nodes && IsA(cls, node.cls) ==>
              exists j :: 0 <= j < |node.childrenList| && IsA(cls, node.childrenList[j].cls)
  {
    hide Linked;
    if cls in nodes && IsA(cls, node.cls) {
      var k := StepTowards(node.cls, cls);
      AllAboveAreThere(nodes, cls, k);
      ChildrenAreTheDirectSubclasses(nodes, node.cls);
      ChildrenAreTheDirectSubclasses(nodes, k);
      assert nodes[k] in node.childrenList && nodes[k].cls == k;
    }
  }
}
