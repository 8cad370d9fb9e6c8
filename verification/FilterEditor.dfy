/** The filter editor: a tree of copied nodes whose marks are a second account of what the filter decides. */
module FilterEditor {
  import opened Engine
  import opened ClassFilter
  import opened FilterNodes
  import opened ClassTree

  type Copies = map<Class, Node>

  // Opening the editor

  /** A class is shown if it or something below it passes the search. */
  ghost predicate Shows(keys: set<Class>, passing: set<Class>, c: Class) {
    exists d :: d in keys && IsA(d, c) && d in passing
  }

  /** A class and all to be shown below it. */
  ghost function ShownBelow(keys: set<Class>, passing: set<Class>, root: Class): set<Class> {
    set c | c in keys && (c == root || (IsA(c, root) && Shows(keys, passing, c)))
  }

  /** The children of a copy are copies of direct subclasses. */
  ghost predicate ChildrenFit(copies: Copies, c: Class)
    requires c in copies
    reads copies.Values
  {
    forall k :: k in copies[c].childrenList ==> k.cls in copies && copies[k.cls] == k && k.cls.super == Some(c)
  }

  /** A copy below the root hangs under that of its superclass and bears its own mark. */
  ghost predicate Hangs(copies: Copies, m: Marks, c: Class)
    requires c in copies
    reads copies.Values
  {
    && c.super.Some? && c.super.value in copies && copies[c].parentNode == copies[c.super.value]
    && copies[c] in copies[c.super.value].childrenList && copies[c].filterState == OwnMark(m, c.path)
  }

  /** A copied tree, every node below the root bearing its own mark. */
  ghost predicate Copied(copies: Copies, root: Class, m: Marks)
    reads copies.Values
  {
    && root in copies
    && (forall c :: c in copies ==> copies[c].cls == c && IsA(c, root) && ChildrenFit(copies, c))
    && (forall c :: c in copies && c != root ==> Hangs(copies, m, c))
  }

  /** A copied subtree is attached: its copies join the others. */
  method AttachCopy(ghost copies: Copies, ghost sub: Copies, out: Node, node: Node, ghost m: Marks)
    requires Copied(copies, out.cls, m) && Copied(sub, node.cls, m) && copies.Keys !! sub.Keys
    requires copies[out.cls] == out && sub[node.cls] == node && node.cls.super == Some(out.cls)
    requires node.filterState == OwnMark(m, node.cls.path)
    modifies out`childrenList, node`parentNode
    ensures Copied(copies + sub, out.cls, m)
    ensures out.childrenList == old(out.childrenList) + [node]
  {
    forall c | c in sub
      ensures IsA(c, out.cls)
    {
      IsATransitive(c, node.cls, out.cls);
    }
    out.AddChild(node);
    ghost var all := copies + sub;
    forall c | c in all
      ensures ChildrenFit(all, c)
    {
      assert c in sub ==> old(ChildrenFit(sub, c));
      assert c in copies ==> old(ChildrenFit(copies, c));
    }
    forall c | c in all && c != out.cls
      ensures Hangs(all, m, c)
    {
      assert c in sub && c != node.cls ==> old(Hangs(sub, m, c));
      assert c in copies ==> old(Hangs(copies, m, c));
    }
  }

  /** Children of one node have nothing below them in common. */
  lemma {:induction false} ChildrenAreApart(d: Class, j: Class, k: Class)
    requires IsA(d, j) && IsA(d, k) && j.super == k.super && j.super.Some?
    ensures j == k
  {
    if d == j || d == k {
      if j != k {
        SuperclassesAreShallower(j.super.value, if d == j then k else j);
      }
    } else {
      ChildrenAreApart(d.super.value, j, k);
    }
  }

  /** What a child contributes: itself and all to be shown below it, if it is to be shown at all. */
  ghost function Contributed(keys: set<Class>, passing: set<Class>, child: Class): set<Class> {
    if Shows(keys, passing, child) then ShownBelow(keys, passing, child) else {}
  }

  /** The classes copied once the first `n` children of a node have been dealt with. */
  ghost function CopiedBy(keys: set<Class>, passing: set<Class>, children: seq<Node>, n: nat, root: Class): set<Class>
    requires n <= |children|
  {
    if n == 0 then {root}
    else CopiedBy(keys, passing, children, n - 1, root) + Contributed(keys, passing, children[n - 1].cls)
  }

  ghost predicate SomeShows(keys: set<Class>, passing: set<Class>, children: seq<Node>, n: nat)
    requires n <= |children|
  {
    n > 0 && (SomeShows(keys, passing, children, n - 1) || Shows(keys, passing, children[n - 1].cls))
  }

  lemma {:induction false} CopiedFromSomeChild(keys: set<Class>, passing: set<Class>, children: seq<Node>, n: nat,
                                               root: Class)
    requires n <= |children| && root in keys
    requires forall i :: 0 <= i < n ==> children[i].cls.super == Some(root)
    ensures forall c :: c in CopiedBy(keys, passing, children, n, root)
                        <==> c == root || exists i :: 0 <= i < n && c in Contributed(keys, passing, children[i].cls)
    ensures SomeShows(keys, passing, children, n) <==> exists i :: 0 <= i < n && Shows(keys, passing, children[i].cls)
  {
    if n > 0 {
      CopiedFromSomeChild(keys, passing, children, n - 1, root);
    }
  }

  /** What is to be shown below a node is contributed by one of its children. */
  lemma ShownByAChild(nodes: Nodes, passing: set<Class>, root: Class, c: Class) returns (i: nat)
    requires IsTree(nodes) && root in nodes && Has(nodes, root) && c in ShownBelow(nodes.Keys, passing, root)
             && c != root
    ensures i < |nodes[root].childrenList| && c in Contributed(nodes.Keys, passing, nodes[root].childrenList[i].cls)
  {
    var children := nodes[root].childrenList;
    ChildrenAreTheDirectSubclasses(nodes, root);
    var k := StepTowards(root, c);
    AllAboveAreThere(nodes, c, k);
    ShowsAllAbove(nodes.Keys, passing, c, k);
    assert nodes[k] in children;
    i :| 0 <= i < |children| && children[i] == nodes[k];
  }

  /** With all children dealt with, everything below that is to be shown is copied. */
  lemma AllChildrenCopied(nodes: Nodes, passing: set<Class>, root: Class)
    requires IsTree(nodes) && root in nodes && Has(nodes, root)
    ensures var children := nodes[root].childrenList;
            CopiedBy(nodes.Keys, passing, children, |children|, root) == ShownBelow(nodes.Keys, passing, root)
  {
    hide Linked;
    var keys, children := nodes.Keys, nodes[root].childrenList;
    ChildrenAreTheDirectSubclasses(nodes, root);
    CopiedFromSomeChild(keys, passing, children, |children|, root);
    forall c
      ensures c in CopiedBy(keys, passing, children, |children|, root) <==> c in ShownBelow(keys, passing, root)
    {
      if c in ShownBelow(keys, passing, root) && c != root {
        var i := ShownByAChild(nodes, passing, root, c);
        assert c in Contributed(keys, passing, children[i].cls);
      }
      if i :| 0 <= i < |children| && c in Contributed(keys, passing, children[i].cls) {
        assert children[i] in children;
        IsATransitive(c, children[i].cls, root);
      }
    }
  }

  /** What shows below a node shows below one of its children, or is the node itself. */
  lemma ShowsByAChild(nodes: Nodes, passing: set<Class>, root: Class)
    requires IsTree(nodes) && root in nodes && Has(nodes, root)
    ensures var children := nodes[root].childrenList;
            Shows(nodes.Keys, passing, root)
            <==> root in passing || SomeShows(nodes.Keys, passing, children, |children|)
  {
    var keys, children := nodes.Keys, nodes[root].childrenList;
    ChildrenAreTheDirectSubclasses(nodes, root);
    CopiedFromSomeChild(keys, passing, children, |children|, root);
    if d :| d in nodes && IsA(d, root) && d in passing && d != root {
      var k := StepTowards(root, d);
      AllAboveAreThere(nodes, d, k);
      assert nodes[k] in children && Shows(keys, passing, k);
    }
    if i :| 0 <= i < |children| && Shows(keys, passing, children[i].cls) {
      assert children[i] in children;
      IsATransitive(children[i].cls, children[i].cls, root);
      ShowsAllAbove(keys, passing, children[i].cls, root);
    }
    assert IsA(root, root);
  }

  lemma {:induction false} ShowsAllAbove(keys: set<Class>, passing: set<Class>, c: Class, k: Class)
    requires Shows(keys, passing, c) && IsA(c, k)
    ensures Shows(keys, passing, k)
    decreases c
  {
    if c != k {
      var d :| d in keys && IsA(d, c) && d in passing;
      IsATransitive(d, c, c.super.value);
      ShowsAllAbove(keys, passing, c.super.value, k);
    }
  }

  /** Copies what is to be shown below a node; says whether the node itself is to be shown. */
  method AddChildren_Tree(filter: ClassFilter, out: Node, original: Node, passing: set<Class>, ghost nodes: Nodes)
    returns (passes: bool, ghost copies: Copies)
    requires IsTree(nodes) && Has(nodes, original.cls) && nodes[original.cls] == original
    requires out.cls == original.cls && out.childrenList == [] && out !in nodes.Values
    modifies out`childrenList
    ensures passes == Shows(nodes.Keys, passing, original.cls)
    ensures Copied(copies, out.cls, filter.View()) && copies[out.cls] == out
    ensures copies.Keys == ShownBelow(nodes.Keys, passing, out.cls)
    ensures forall c :: c in copies && c != out.cls ==> fresh(copies[c])
    decreases Below(nodes.Keys, original.cls), 1
  {
    passes := original.cls in passing;
    var childrenPass;
    childrenPass, copies := AddAllChildren_Tree(filter, out, original, passing, nodes);
    passes := passes || childrenPass;
    ShowsByAChild(nodes, passing, original.cls);
    AllChildrenCopied(nodes, passing, original.cls);
  }

  lemma NothingCopiedYet(keys: set<Class>, passing: set<Class>, children: seq<Node>, root: Class)
    ensures CopiedBy(keys, passing, children, 0, root) == {root} && !SomeShows(keys, passing, children, 0)
  {
  }

  lemma CopiedAlone(out: Node, m: Marks)
    requires out.childrenList == []
    ensures Copied(map[out.cls := out], out.cls, m)
  {
    assert IsA(out.cls, out.cls);
  }

  /** Deals with the children of a node, in order. */
  method AddAllChildren_Tree(filter: ClassFilter, out: Node, original: Node, passing: set<Class>, ghost nodes: Nodes)
    returns (childrenPass: bool, ghost copies: Copies)
    requires IsTree(nodes) && Has(nodes, original.cls) && nodes[original.cls] == original
    requires out.cls == original.cls && out.childrenList == [] && out !in nodes.Values
    modifies out`childrenList
    ensures childrenPass == SomeShows(nodes.Keys, passing, original.childrenList, |original.childrenList|)
    ensures Copied(copies, out.cls, filter.View()) && copies[out.cls] == out
    ensures copies.Keys == CopiedBy(nodes.Keys, passing, original.childrenList, |original.childrenList|, out.cls)
    ensures forall c :: c in copies && c != out.cls ==> fresh(copies[c])
    decreases Below(nodes.Keys, original.cls), 0
  {
    hide Copied, IsTree, CopiedBy, SomeShows, Shows, Contributed;
    childrenPass, copies := false, map[out.cls := out];
    CopiedAlone(out, filter.View());
    NothingCopiedYet(nodes.Keys, passing, original.childrenList, out.cls);
    for i := 0 to |original.childrenList|
      invariant childrenPass == SomeShows(nodes.Keys, passing, original.childrenList, i)
      invariant Copied(copies, out.cls, filter.View()) && out.cls in copies && copies[out.cls] == out
      invariant copies.Keys == CopiedBy(nodes.Keys, passing, original.childrenList, i, out.cls)
      invariant forall c :: c in copies && c != out.cls ==> fresh(copies[c])
    {
      ChildIsApart(nodes, passing, original.childrenList, i, out.cls);
      var childPasses;
      childPasses, copies := AddChild_Tree(filter, out, original.childrenList[i], passing, nodes, copies);
      childrenPass := childrenPass || childPasses;
    }
  }

  lemma ChildIsApart(nodes: Nodes, passing: set<Class>, children: seq<Node>, i: nat, root: Class)
    requires IsTree(nodes) && Has(nodes, root) && children == nodes[root].childrenList && i < |children|
    ensures var child := children[i];
            && child.cls.super == Some(root) && Has(nodes, child.cls) && nodes[child.cls] == child
            && Below(nodes.Keys, child.cls) < Below(nodes.Keys, root)
            && (forall c :: c in CopiedBy(nodes.Keys, passing, children, i, root) ==> !IsA(c, child.cls))
            && CopiedBy(nodes.Keys, passing, children, i + 1, root)
               == CopiedBy(nodes.Keys, passing, children, i, root) + Contributed(nodes.Keys, passing, child.cls)
            && SomeShows(nodes.Keys, passing, children, i + 1)
               == (SomeShows(nodes.Keys, passing, children, i) || Shows(nodes.Keys, passing, child.cls))
  {
    hide Linked;
    var child := children[i];
    ChildrenAreTheDirectSubclasses(nodes, root);
    assert child in children;
    ChildrenHaveLessBelow(nodes.Keys, root, child.cls);
    assert forall j :: 0 <= j < i ==> children[j] in children;
    CopiedFromSomeChild(nodes.Keys, passing, children, i, root);
    forall c | c in CopiedBy(nodes.Keys, passing, children, i, root)
      ensures !IsA(c, child.cls)
    {
      if IsA(c, child.cls) {
        if c == root {
          SuperclassesAreShallower(root, child.cls);
        } else {
          var j :| 0 <= j < i && c in Contributed(nodes.Keys, passing, children[j].cls);
          ChildrenAreApart(c, children[j].cls, child.cls);
        }
      }
    }
  }

  /** A child of a node is copied with what is below it. */
  method CopyChild(filter: ClassFilter, child: Node, passing: set<Class>, ghost nodes: Nodes)
    returns (childPasses: bool, newNode: Node, ghost sub: Copies)
    requires IsTree(nodes) && Has(nodes, child.cls) && nodes[child.cls] == child
    ensures childPasses == Shows(nodes.Keys, passing, child.cls)
    ensures newNode.cls == child.cls && newNode.filterState == OwnMark(filter.View(), child.cls.path)
    ensures Copied(sub, child.cls, filter.View()) && sub[child.cls] == newNode
    ensures sub.Keys == ShownBelow(nodes.Keys, passing, child.cls)
    ensures forall c :: c in sub ==> fresh(sub[c])
    decreases Below(nodes.Keys, child.cls), 2
  {
    newNode := new Node.Copy(child);
    newNode.SetStateFromFilter(filter);
    childPasses, sub := AddChildren_Tree(filter, newNode, child, passing, nodes);
  }

  /** One child of a node: copied with what is below it, and attached if anything of it is to be shown. */
  method AddChild_Tree(filter: ClassFilter, out: Node, child: Node, passing: set<Class>, ghost nodes: Nodes,
                       ghost copies: Copies)
    returns (childPasses: bool, ghost copies': Copies)
    requires IsTree(nodes) && Has(nodes, child.cls) && nodes[child.cls] == child
    requires child.cls.super == Some(out.cls) && out !in nodes.Values
    requires Copied(copies, out.cls, filter.View()) && copies[out.cls] == out
    requires forall c :: c in copies ==> !IsA(c, child.cls)
    modifies out`childrenList
    ensures childPasses == Shows(nodes.Keys, passing, child.cls)
    ensures Copied(copies', out.cls, filter.View()) && copies'[out.cls] == out
    ensures copies'.Keys == copies.Keys + Contributed(nodes.Keys, passing, child.cls)
    ensures forall c :: c in copies' && c !in copies ==> fresh(copies'[c])
    ensures forall c :: c in copies ==> c in copies' && copies'[c] == copies[c]
    decreases Below(nodes.Keys, child.cls), 3
  {
    hide IsTree;
    var newNode;
    ghost var sub;
    childPasses, newNode, sub := CopyChild(filter, child, passing, nodes);
    copies' := copies;
    if childPasses {
      AttachCopy(copies, sub, out, newNode, filter.View());
      copies' := copies + sub;
    }
  }

  /** GetClassTree: the part of the class tree to be shown, from the filter's base class down. */
  method GetClassTree(filter: ClassFilter, base: Option<Class>, objectRoot: Node, passing: set<Class>,
                      ghost nodes: Nodes)
    returns (root: Node, ghost copies: Copies)
    requires IsTree(nodes) && Has(nodes, OBJECT) && nodes[OBJECT] == objectRoot && objectRoot.cls == OBJECT
    requires base.Some? ==> base.value in nodes
    ensures root.cls == (if base.Some? then base.value else OBJECT) && root.filterState == Unmarked
    ensures Copied(copies, root.cls, filter.View()) && copies[root.cls] == root && root.parentNode == null
    ensures copies.Keys == ShownBelow(nodes.Keys, passing, root.cls)
    ensures forall c :: c in copies ==> fresh(copies[c])
  {
    var rootNode := objectRoot;
    if base.Some? {
      assert IsA(base.value, OBJECT);
      var found := ClassHierarchy.FindNodeByClass(objectRoot, base.value, nodes);
      ChildrenAreTheDirectSubclasses(nodes, base.value);
      rootNode := found;
    }
    root := new Node.Copy(rootNode);
    var passes;
    passes, copies := AddChildren_Tree(filter, root, rootNode, passing, nodes);
  }

  // What the editor shows

  /** The mark that shows on a class: its own node's, or else the closest marked one's above, up to the root. */
  function ShownMark(states: map<Class, Mark>, root: Class, c: Class): Mark {
    if c in states && states[c] != Unmarked then states[c]
    else if c == root || c.super.None? then Unmarked
    else ShownMark(states, root, c.super.value)
  }

  /** Below the root, each shown class bears its own mark. The node of the root, which is not shown itself, bears
      none. */
  ghost predicate BearsOwnMarks(states: map<Class, Mark>, root: Class, m: Marks) {
    && root in states && states[root] == Unmarked
    && forall c :: c in states ==>
         IsA(c, root) && (c != root ==> c.super.value in states && states[c] == OwnMark(m, c.path))
  }

  // What a click changes

  /** A filter's marks with the class of one path marked anew. */
  function Marked(m: Marks, path: string, state: Mark): (r: Marks)
    ensures forall other :: OwnMark(r, other) == if other == path then state else OwnMark(m, other)
    ensures m.allowed !! m.ignored ==> r.allowed !! r.ignored
  {
    match state
    case Allowed => Marks(m.allowed + {path}, m.ignored - {path})
    case Denied => Marks(m.allowed - {path}, m.ignored + {path})
    case Unmarked => Marks(m.allowed - {path}, m.ignored - {path})
  }

  /** `d` is below `c` and no nearer mark stands between them. */
  ghost predicate IsUnshielded(m: Marks, d: Class, c: Class) {
    IsA(d, c) && forall b :: IsA(d, b) && IsA(b, c) && b != c ==> OwnMark(m, b.path) == Unmarked
  }

  /** The mark a class would have if only the classes above it were marked. */
  function MarkAbove(m: Marks, c: Class): Mark {
    if c.super.Some? then NearestMark(m, c.super.value) else Unmarked
  }

  lemma {:induction false} NotMarkedAbove(m: Marks, loaded: set<Class>, c: Class, state: Mark, a: Class)
    requires IsRegistry(loaded) && c in loaded && a in loaded && !IsA(a, c)
    ensures NearestMark(Marked(m, c.path, state), a) == NearestMark(m, a)
  {
    assert a.path != c.path;
    if a.super.Some? {
      NotMarkedAbove(m, loaded, c, state, a.super.value);
    }
  }

  lemma {:induction false} UnshieldedStep(m: Marks, d: Class, c: Class)
    requires d != c && d.super.Some?
    ensures IsUnshielded(m, d, c) <==> OwnMark(m, d.path) == Unmarked && IsUnshielded(m, d.super.value, c)
  {
    assert IsA(d, d);
    if IsUnshielded(m, d, c) {
      forall b | IsA(d.super.value, b) && IsA(b, c) && b != c ensures OwnMark(m, b.path) == Unmarked {
        assert IsA(d, b);
      }
    }
  }

  /** Marking a class decides anew exactly the classes below it that no nearer mark shields. */
  lemma {:induction false} MarkingReachesTheUnshielded(m: Marks, loaded: set<Class>, c: Class, state: Mark, d: Class)
    requires IsRegistry(loaded) && c in loaded && d in loaded
    ensures NearestMark(Marked(m, c.path, state), d)
            == if !IsUnshielded(m, d, c) then NearestMark(m, d)
               else if state != Unmarked then state else MarkAbove(m, c)
  {
    var m' := Marked(m, c.path, state);
    if d == c {
      assert IsUnshielded(m, d, c) by {
        forall b | IsA(d, b) && IsA(b, c) ensures b == c {
          SuperclassesAreShallower(d, b);
          SuperclassesAreShallower(b, c);
        }
      }
      if c.super.Some? {
        if IsA(c.super.value, c) {
          SuperclassesAreShallower(c.super.value, c);
        }
        NotMarkedAbove(m, loaded, c, state, c.super.value);
      }
    } else {
      assert d.path != c.path;
      if d.super.Some? {
        UnshieldedStep(m, d, c);
        MarkingReachesTheUnshielded(m, loaded, c, state, d.super.value);
      }
    }
  }

  /** The mark a click on an unmarked class gives it. */
  function ClickedMark(own: Mark, inherited: Mark): Mark {
    if own != Unmarked then Unmarked else if inherited == Allowed then Denied else Allowed
  }

  lemma {:induction false} UnshieldedIsDecidedTogether(m: Marks, d: Class, c: Class)
    requires IsUnshielded(m, d, c)
    ensures NearestMark(m, d) == NearestMark(m, c)
  {
    if d != c {
      UnshieldedStep(m, d, c);
      UnshieldedIsDecidedTogether(m, d.super.value, c);
    }
  }

  // Where the editor is right

  /** A class shows its mark by the rule, as long as some mark shields it from the root; else it shows none. */
  lemma {:induction false} ShowsTheRuleIfShielded(states: map<Class, Mark>, root: Class, m: Marks, c: Class)
    requires BearsOwnMarks(states, root, m) && c in states
    ensures ShownMark(states, root, c) == if IsUnshielded(m, c, root) then Unmarked else NearestMark(m, c)
  {
    if c == root {
      UnshieldedFromItself(m, root);
    } else {
      UnshieldedStep(m, c, root);
      ShowsTheRuleIfShielded(states, root, m, c.super.value);
    }
  }

  lemma UnshieldedFromItself(m: Marks, c: Class)
    ensures IsUnshielded(m, c, c)
  {
    forall b | IsA(c, b) && IsA(b, c)
      ensures b == c
    {
      SuperclassesAreShallower(c, b);
      SuperclassesAreShallower(b, c);
    }
  }

  /** A class shows what the rule says if and only if the rule leaves the root undecided, or the class is shielded from
      the root. */
  lemma AgreesIffShielded(states: map<Class, Mark>, root: Class, m: Marks, c: Class)
    requires BearsOwnMarks(states, root, m) && c in states
    ensures ShownMark(states, root, c) == NearestMark(m, c)
            <==> NearestMark(m, root) == Unmarked || !IsUnshielded(m, c, root)
  {
    ShowsTheRuleIfShielded(states, root, m, c);
    if IsUnshielded(m, c, root) {
      UnshieldedIsDecidedTogether(m, c, root);
    }
  }

  /** The editor agrees with the rule on all it shows if and only if the rule leaves the root undecided, or everything
      shown is shielded from the root. */
  lemma AgreesOnAllShownIff(states: map<Class, Mark>, root: Class, m: Marks)
    requires BearsOwnMarks(states, root, m)
    ensures (forall c :: c in states && c != root ==> ShownMark(states, root, c) == NearestMark(m, c))
            <==> || NearestMark(m, root) == Unmarked
                 || forall c :: c in states && c != root ==> !IsUnshielded(m, c, root)
  {
    forall c | c in states
      ensures ShownMark(states, root, c) == NearestMark(m, c)
              <==> NearestMark(m, root) == Unmarked || !IsUnshielded(m, c, root)
    {
      AgreesIffShielded(states, root, m, c);
    }
  }

  /** An unmarked class right below a base class that is itself allowed: the editor shows nothing on a class the filter
      allows. */
  lemma ShownCanDisagree() returns (states: map<Class, Mark>, root: Class, m: Marks, c: Class)
    ensures BearsOwnMarks(states, root, m) && c in states && c != root
    ensures ShownMark(states, root, c) == Unmarked && Allows(m, c)
  {
    root, m := Class("/Script/Engine.Actor", Some(OBJECT)), Marks({"/Script/Engine.Actor"}, {});
    c := Class("/Script/Engine.Pawn", Some(root));
    states := map[root := Unmarked, c := Unmarked];
    assert OwnMark(m, c.path) == Unmarked;
  }

  /** Clicking an unmarked class flips exactly the classes from it down that no nearer mark shields. */
  lemma ClickFlipsExactlyTheUnshielded(m: Marks, loaded: set<Class>, c: Class, d: Class)
    requires IsRegistry(loaded) && c in loaded && d in loaded && OwnMark(m, c.path) == Unmarked
    ensures var m' := Marked(m, c.path, ClickedMark(Unmarked, MarkAbove(m, c)));
            Allows(m', d) != Allows(m, d) <==> IsUnshielded(m, d, c)
  {
    MarkingReachesTheUnshielded(m, loaded, c, ClickedMark(Unmarked, MarkAbove(m, c)), d);
    if IsUnshielded(m, d, c) {
      UnshieldedIsDecidedTogether(m, d, c);
    }
  }

  // The widget

  datatype Color = Green | Red | Transparent

  function ColorOf(shown: Mark): Color {
    match shown
    case Allowed => Green
    case Denied => Red
    case Unmarked => Transparent
  }

  ghost function States(copies: Copies): map<Class, Mark>
    reads copies.Values
  {
    map c | c in copies :: copies[c].filterState
  }

  /** The links of a copied tree, up and down, whatever the marks. */
  ghost predicate Parented(copies: Copies, root: Class)
    reads copies.Values
  {
    && root in copies
    && (forall c :: c in copies ==> copies[c].cls == c && IsA(c, root) && ChildrenFit(copies, c))
    && copies[root].parentNode == null
    && (forall c :: c in copies && c != root ==>
          && c.super.Some? && c.super.value in copies && copies[c].parentNode == copies[c.super.value]
          && copies[c] in copies[c.super.value].childrenList)
  }

  /** Marking a class in the filter and its node in the tree keeps the two in step. */
  lemma MarkingKeepsStep(states: map<Class, Mark>, root: Class, loaded: set<Class>, m: Marks, c: Class, state: Mark)
    requires BearsOwnMarks(states, root, m) && IsRegistry(loaded) && states.Keys <= loaded && c in states
    requires c != root
    ensures BearsOwnMarks(states[c := state], root, Marked(m, c.path, state))
  {
    assert forall d :: d in states && d != c ==> d.path != c.path;
  }

  /** What a click on a shown class inherits, and how that compares with the rule. */
  lemma InheritedByClick(states: map<Class, Mark>, root: Class, m: Marks, c: Class)
    requires BearsOwnMarks(states, root, m) && c in states && c != root && OwnMark(m, c.path) == Unmarked
    ensures ShownMark(states, root, c.super.value)
            == if IsUnshielded(m, c, root) then Unmarked else MarkAbove(m, c)
    ensures IsUnshielded(m, c, root) ==> MarkAbove(m, c) == NearestMark(m, root)
  {
    UnshieldedStep(m, c, root);
    ShowsTheRuleIfShielded(states, root, m, c.super.value);
    if IsUnshielded(m, c, root) {
      UnshieldedIsDecidedTogether(m, c.super.value, root);
    }
  }

  /** What a click on an unmarked class does to the decisions. */
  lemma ClickOnUnmarked(states: map<Class, Mark>, root: Class, loaded: set<Class>, m: Marks, c: Class, d: Class)
    requires BearsOwnMarks(states, root, m) && IsRegistry(loaded) && states.Keys <= loaded
    requires c in states && c != root && states[c] == Unmarked && d in loaded
    ensures var m' := Marked(m, c.path, ClickedMark(Unmarked, ShownMark(states, root, c.super.value)));
            Allows(m', d) != Allows(m, d)
            <==> IsUnshielded(m, d, c) && !(Allows(m, root) && IsUnshielded(m, c, root))
  {
    InheritedByClick(states, root, m, c);
    if IsUnshielded(m, c, root) && Allows(m, root) {
      MarkingReachesTheUnshielded(m, loaded, c, Allowed, d);
      if IsUnshielded(m, d, c) {
        UnshieldedIsDecidedTogether(m, d, c);
      }
    } else {
      ClickFlipsExactlyTheUnshielded(m, loaded, c, d);
    }
  }

  /** No click on a shown class changes what the rule says of the root. */
  lemma RootStaysDecided(states: map<Class, Mark>, root: Class, loaded: set<Class>, m: Marks, c: Class, state: Mark)
    requires BearsOwnMarks(states, root, m) && IsRegistry(loaded) && states.Keys <= loaded && c in states && c != root
    ensures NearestMark(Marked(m, c.path, state), root) == NearestMark(m, root)
  {
    if IsA(root, c) {
      SuperclassesAreShallower(root, c);
      SuperclassesAreShallower(c, root);
    }
    NotMarkedAbove(m, loaded, c, state, root);
  }

  /** All a click on a shown class does to the decisions of a filter in step with the tree. */
  lemma ClickDecides(states: map<Class, Mark>, root: Class, loaded: set<Class>, m: Marks, c: Class)
    requires BearsOwnMarks(states, root, m) && IsRegistry(loaded) && states.Keys <= loaded && c in states && c != root
    ensures var m' := Marked(m, c.path, ClickedMark(states[c], ShownMark(states, root, c.super.value)));
            && NearestMark(m', root) == NearestMark(m, root)
            && (states[c] == Unmarked ==>
                  forall d :: d in loaded ==>
                    (Allows(m', d) != Allows(m, d)
                     <==> IsUnshielded(m, d, c) && !(Allows(m, root) && IsUnshielded(m, c, root))))
            && (states[c] != Unmarked ==>
                  forall d :: d in loaded ==>
                    NearestMark(m', d) == if IsUnshielded(m, d, c) then MarkAbove(m, c) else NearestMark(m, d))
  {
    hide Marked, NearestMark, OwnMark, IsUnshielded, IsRegistry;
    var state := ClickedMark(states[c], ShownMark(states, root, c.super.value));
    RootStaysDecided(states, root, loaded, m, c, state);
    forall d | d in loaded && states[c] == Unmarked
      ensures var m' := Marked(m, c.path, state);
              Allows(m', d) != Allows(m, d)
              <==> IsUnshielded(m, d, c) && !(Allows(m, root) && IsUnshielded(m, c, root))
    {
      ClickOnUnmarked(states, root, loaded, m, c, d);
    }
    forall d | d in loaded && states[c] != Unmarked
      ensures NearestMark(Marked(m, c.path, state), d)
              == if IsUnshielded(m, d, c) then MarkAbove(m, c) else NearestMark(m, d)
    {
      MarkingReachesTheUnshielded(m, loaded, c, state, d);
    }
  }

  lemma ShownAreThere(keys: set<Class>, passing: set<Class>, root: Class)
    ensures forall c :: c in ShownBelow(keys, passing, root)
              <==> c in keys && (c == root || (IsA(c, root) && exists d :: d in keys && IsA(d, c) && d in passing))
  {
  }

  /** A freshly copied tree is in step with the filter it was copied under. */
  lemma CopiedIsInStep(copies: Copies, root: Class, m: Marks)
    requires Copied(copies, root, m) && root in copies && copies[root].parentNode == null
    requires copies[root].filterState == Unmarked
    ensures Parented(copies, root) && BearsOwnMarks(States(copies), root, m)
  {
    assert forall c :: c in copies && c != root ==> Hangs(copies, m, c);
  }

  /** The editor of several filters at once, showing the first. */
  class SClassFilter {
    const filters: seq<ClassFilter>
    const rootNode: Node
    ghost const shown: Copies
    ghost const registry: set<Class>

    ghost predicate Valid()
      reads filters, shown.Values
    {
      && filters != [] && (forall i, j :: 0 <= i < j < |filters| ==> filters[i] != filters[j])
      && IsRegistry(registry) && shown.Keys <= registry
      && Parented(shown, rootNode.cls) && shown[rootNode.cls] == rootNode
      && BearsOwnMarks(States(shown), rootNode.cls, filters[0].View())
    }

    /** Opens the editor on the class tree, which need not hold all classes that are loaded. */
    constructor (filters: seq<ClassFilter>, base: Option<Class>, objectRoot: Node, passing: set<Class>,
                 ghost nodes: Nodes, ghost loaded: set<Class>)
      requires filters != [] && forall i, j :: 0 <= i < j < |filters| ==> filters[i] != filters[j]
      requires IsTree(nodes) && Has(nodes, OBJECT) && nodes[OBJECT] == objectRoot && objectRoot.cls == OBJECT
      requires IsRegistry(loaded) && nodes.Keys <= loaded && (base.Some? ==> base.value in nodes)
      ensures Valid() && this.filters == filters && registry == loaded
      ensures rootNode.cls == (if base.Some? then base.value else OBJECT) && rootNode.filterState == Unmarked
      ensures shown.Keys == ShownBelow(nodes.Keys, passing, rootNode.cls)
      ensures forall c :: c in shown
                <==> c in nodes && (c == rootNode.cls
                                    || (IsA(c, rootNode.cls) && exists d :: d in nodes && IsA(d, c) && d in passing))
    {
      hide Copied, Parented, BearsOwnMarks, IsTree, ShownBelow, IsRegistry;
      var root;
      ghost var copies;
      root, copies := GetClassTree(filters[0], base, objectRoot, passing, nodes);
      CopiedIsInStep(copies, root.cls, filters[0].View());
      ShownAreThere(nodes.Keys, passing, root.cls);
      this.filters, rootNode, shown, registry := filters, root, copies, loaded;
    }

    /** The closest mark among the nodes above. */
    method GetParentFilterState(node: Node) returns (state: Mark)
      requires Parented(shown, rootNode.cls) && node.cls in shown && shown[node.cls] == node
      ensures state == if node.cls == rootNode.cls then Unmarked
                       else ShownMark(States(shown), rootNode.cls, node.cls.super.value)
    {
      var parent := node.parentNode;
      while parent != null
        invariant parent != null ==> parent.cls in shown && shown[parent.cls] == parent
        invariant (if parent == null then Unmarked else ShownMark(States(shown), rootNode.cls, parent.cls))
                  == if node.cls == rootNode.cls then Unmarked
                     else ShownMark(States(shown), rootNode.cls, node.cls.super.value)
        decreases parent != null, if parent != null then Depth(parent.cls) else 0
      {
        if parent.filterState != Unmarked {
          return parent.filterState;
        }
        parent := parent.parentNode;
      }
      state := Unmarked;
    }

    method GetClassBackgroundColor(node: Node) returns (color: Color)
      requires Parented(shown, rootNode.cls) && node.cls in shown && shown[node.cls] == node
      ensures color == ColorOf(ShownMark(States(shown), rootNode.cls, node.cls))
      ensures color == Green <==> ShownMark(States(shown), rootNode.cls, node.cls) == Allowed
      ensures color == Red <==> ShownMark(States(shown), rootNode.cls, node.cls) == Denied
    {
      var parentState := GetParentFilterState(node);
      if node.filterState == Allowed {
        color := Green;
      } else if node.filterState == Denied {
        color := Red;
      } else if parentState == Allowed {
        color := Green;
      } else if parentState == Denied {
        color := Red;
      } else {
        color := Transparent;
      }
    }

    /** One filter takes a mark. */
    static method MarkIn(filter: ClassFilter, path: string, state: Mark)
      modifies filter`allowedClasses, filter`ignoredClasses
      ensures filter.View() == Marked(old(filter.View()), path, state)
    {
      match state
      case Allowed =>
        filter.allowedClasses := filter.allowedClasses + {path};
        filter.ignoredClasses := filter.ignoredClasses - {path};
      case Denied =>
        filter.ignoredClasses := filter.ignoredClasses + {path};
        filter.allowedClasses := filter.allowedClasses - {path};
      case Unmarked =>
        filter.ignoredClasses := filter.ignoredClasses - {path};
        filter.allowedClasses := filter.allowedClasses - {path};
    }

    /** A node that is shown, and so can be clicked: any but the root's. */
    ghost predicate IsShown(node: Node)
      reads node, rootNode
    {
      node.cls in shown && shown[node.cls] == node && node.cls != rootNode.cls
    }

    /** A shown node takes a mark; the links stay. */
    method MarkNode(node: Node, state: Mark)
      requires Parented(shown, rootNode.cls) && IsShown(node)
      modifies node`filterState
      ensures Parented(shown, rootNode.cls) && States(shown) == old(States(shown))[node.cls := state]
    {
      hide IsA;
      node.SetOwnFilterState(state);
      forall c | c in shown
        ensures ChildrenFit(shown, c)
      {
        assert old(ChildrenFit(shown, c));
      }
      assert States(shown) == old(States(shown))[node.cls := state];
    }

    /** A shown node takes a mark, and so does its class in every filter. */
    method MarkClass(node: Node, state: Mark)
      requires Valid() && IsShown(node)
      modifies node`filterState, filters
      ensures Valid() && States(shown) == old(States(shown))[node.cls := state]
      ensures forall f :: f in filters ==> f.View() == Marked(old(f.View()), node.cls.path, state)
    {
      hide BearsOwnMarks, IsRegistry, OwnMark, Marked, IsA, ChildrenFit;
      MarkNode(node, state);
      MarkingKeepsStep(old(States(shown)), rootNode.cls, registry, old(filters[0].View()), node.cls, state);
      MarkAll(node.cls.path, state);
    }

    method MarkAll(path: string, state: Mark)
      requires forall i, j :: 0 <= i < j < |filters| ==> filters[i] != filters[j]
      modifies filters
      ensures forall f :: f in filters ==> f.View() == Marked(old(f.View()), path, state)
    {
      hide OwnMark, Marked;
      for i := 0 to |filters|
        invariant forall j :: 0 <= j < i ==> filters[j].View() == Marked(old(filters[j].View()), path, state)
        invariant forall j :: i <= j < |filters| ==> filters[j].View() == old(filters[j].View())
      {
        MarkIn(filters[i], path, state);
      }
    }

    method OnClassClicked(node: Node)
      requires Valid() && IsShown(node)
      modifies node`filterState, filters
      ensures Valid()
      ensures var inherited := ShownMark(old(States(shown)), rootNode.cls, node.cls.super.value);
              var state := ClickedMark(old(node.filterState), inherited);
              && States(shown) == old(States(shown))[node.cls := state]
              && forall f :: f in filters ==> f.View() == Marked(old(f.View()), node.cls.path, state)
    {
      var ownState := node.filterState;
      if ownState == Unmarked {
        var parentState := GetParentFilterState(node);
        if parentState == Allowed {
          MarkClass(node, Denied);
        } else {
          MarkClass(node, Allowed);
        }
      } else {
        MarkClass(node, Unmarked);
      }
    }

    /** A click on a marked class hands what it decided back to the closest mark above. One on an unmarked class flips
        exactly the loaded classes from it down that no nearer mark shields; only if it is one that a mark at or above
        the root allows unseen does the click decide nothing anew. */
    method ClickInStep(node: Node)
      requires Valid() && IsShown(node)
      modifies node`filterState, filters
      ensures Valid()
              && NearestMark(filters[0].View(), rootNode.cls) == old(NearestMark(filters[0].View(), rootNode.cls))
      ensures old(node.filterState) == Unmarked ==>
                forall d :: d in registry ==>
                  (Allows(filters[0].View(), d) != Allows(old(filters[0].View()), d)
                   <==> && IsUnshielded(old(filters[0].View()), d, node.cls)
                        && !(Allows(old(filters[0].View()), rootNode.cls)
                             && IsUnshielded(old(filters[0].View()), node.cls, rootNode.cls)))
      ensures old(node.filterState) != Unmarked ==>
                forall d :: d in registry ==>
                  NearestMark(filters[0].View(), d)
                  == if IsUnshielded(old(filters[0].View()), d, node.cls)
                    then MarkAbove(old(filters[0].View()), node.cls)
                     else NearestMark(old(filters[0].View()), d)
    {
      hide BearsOwnMarks, IsRegistry, ShownMark, OwnMark, MarkAbove, IsUnshielded, Marked, NearestMark;
      ClickDecides(States(shown), rootNode.cls, registry, filters[0].View(), node.cls);
      OnClassClicked(node);
    }

    /** Over any run of clicks, a shown class has the colour the rule prescribes if and only if the rule leaves the root
        undecided or the class is shielded from the root; and it is green exactly when baking the filter allows it,
        unless a mark at or above the root allows it unseen. What the rule says of the root no click changes. */
    method Run(clicks: seq<Node>, node: Node, loaded: set<Class>) returns (color: Color)
      requires Valid() && loaded == registry && IsShown(node)
      requires forall i :: 0 <= i < |clicks| ==> IsShown(clicks[i])
      modifies shown.Values, filters
      ensures Valid()
              && NearestMark(filters[0].View(), rootNode.cls) == old(NearestMark(filters[0].View(), rootNode.cls))
      ensures color == ColorOf(NearestMark(filters[0].View(), node.cls))
              <==> || NearestMark(filters[0].View(), rootNode.cls) == Unmarked
                   || !IsUnshielded(filters[0].View(), node.cls, rootNode.cls)
      ensures color == Red ==> !Allows(filters[0].View(), node.cls)
      ensures (color == Green <==> node.cls in filters[0].bakedAllowedClasses)
              <==> !(Allows(filters[0].View(), rootNode.cls)
                     && IsUnshielded(filters[0].View(), node.cls, rootNode.cls))
    {
      hide BearsOwnMarks, Parented, IsRegistry, ShownMark, OwnMark, IsUnshielded, NearestMark;
      for i := 0 to |clicks|
        invariant Valid()
        invariant NearestMark(filters[0].View(), rootNode.cls) == old(NearestMark(filters[0].View(), rootNode.cls))
      {
        ClickInStep(clicks[i]);
      }
      ColorAgreesIff(States(shown), rootNode.cls, filters[0].View(), node.cls);
      color := GetClassBackgroundColor(node);
      filters[0].BakeAllowedClasses(loaded);
    }
  }

  lemma ColorAgreesIff(states: map<Class, Mark>, root: Class, m: Marks, c: Class)
    requires BearsOwnMarks(states, root, m) && c in states
    ensures var color := ColorOf(ShownMark(states, root, c));
            && (color == ColorOf(NearestMark(m, c)) <==> NearestMark(m, root) == Unmarked || !IsUnshielded(m, c, root))
            && (color == Red ==> !Allows(m, c))
            && ((color == Green <==> Allows(m, c)) <==> !(Allows(m, root) && IsUnshielded(m, c, root)))
  {
    AgreesIffShielded(states, root, m, c);
    ShowsTheRuleIfShielded(states, root, m, c);
    if IsUnshielded(m, c, root) {
      UnshieldedIsDecidedTogether(m, c, root);
    }
  }
}
