/** Test specs: nested scopes are defined by nested calls, and baked into a flat list of specs with an explicit
    stack. */
module SpecBaking {

  /** A command to run, and a test case with its command. */
  type Command = string

  datatype It = It(id: string, command: Command)

  datatype Spec = Spec(id: string, commands: seq<Command>)

  /** What a scope is defined by, in order. */
  datatype Definition =
    | DefineIt(it: It)
    | DefineBefore(before: Command)
    | DefineAfter(after: Command)
    | Describe(body: seq<Definition>)

  /** The value of a scope. */
  datatype Tree = Tree(before: seq<Command>, its: seq<It>, after: seq<Command>, children: seq<Tree>)

  const EMPTY_TREE := Tree([], [], [], [])

  // The obvious meaning

  predicate IsEmpty(t: Tree) {
    t.its == [] && t.children == []
  }

  /** A scope extended by definitions; a nested scope without test cases is dropped. */
  function Defined(t: Tree, defs: seq<Definition>): Tree
    decreases defs
  {
    if defs == [] then t
    else Defined(DefinedOne(t, defs[0]), defs[1..])
  }

  function DefinedOne(t: Tree, d: Definition): Tree
    decreases d
  {
    match d
    case DefineIt(it) => t.(its := t.its + [it])
    case DefineBefore(c) => t.(before := t.before + [c])
    case DefineAfter(c) => t.(after := t.after + [c])
    case Describe(body) =>
      var child := Defined(EMPTY_TREE, body);
      if IsEmpty(child) then t else t.(children := t.children + [child])
  }

  /** The specs of a scope inside scopes whose commands before and after each test are given. */
  function SpecsOf(t: Tree, before: seq<Command>, after: seq<Command>): seq<Spec>
    decreases t, 1
  {
    var before' := before + t.before;
    var after' := t.after + after;
    SpecsOfIts(t.its, before', after') + SpecsOfAll(t.children, before', after')
  }

  function SpecsOfIts(its: seq<It>, before: seq<Command>, after: seq<Command>): seq<Spec> {
    if its == [] then []
    else SpecsOfIts(its[..|its| - 1], before, after)
         + [Spec(its[|its| - 1].id, before + [its[|its| - 1].command] + after)]
  }

  /** Nested scopes, the last one first. */
  function SpecsOfAll(ts: seq<Tree>, before: seq<Command>, after: seq<Command>): seq<Spec>
    decreases ts, 0
  {
    if ts == [] then []
    else SpecsOf(ts[|ts| - 1], before, after) + SpecsOfAll(ts[..|ts| - 1], before, after)
  }

  /** No scope inside is without test cases. */
  predicate NoEmptyInside(t: Tree)
    decreases t
  {
    forall i :: 0 <= i < |t.children| ==> !IsEmpty(t.children[i]) && NoEmptyInside(t.children[i])
  }

  /** Definitions never leave an empty scope inside. */
  lemma {:induction false} DefinedHasNoEmptyInside(t: Tree, defs: seq<Definition>)
    requires NoEmptyInside(t)
    ensures NoEmptyInside(Defined(t, defs))
    decreases defs
  {
    if defs != [] {
      DefinedOneHasNoEmptyInside(t, defs[0]);
      DefinedHasNoEmptyInside(DefinedOne(t, defs[0]), defs[1..]);
    }
  }

  lemma {:induction false} DefinedOneHasNoEmptyInside(t: Tree, d: Definition)
    requires NoEmptyInside(t)
    ensures NoEmptyInside(DefinedOne(t, d))
    decreases d
  {
    if d.Describe? {
      DefinedHasNoEmptyInside(EMPTY_TREE, d.body);
    }
  }

  // What the specs are, without recursion over the scopes

  /** Children to go down through, from a scope. */
  predicate IsPath(t: Tree, path: seq<nat>) {
    path == [] || (path[0] < |t.children| && IsPath(t.children[path[0]], path[1..]))
  }

  function ScopeAt(t: Tree, path: seq<nat>): Tree
    requires IsPath(t, path)
  {
    if path == [] then t else ScopeAt(t.children[path[0]], path[1..])
  }

  function BeforeAlong(t: Tree, path: seq<nat>): seq<Command>
    requires IsPath(t, path)
  {
    t.before + if path == [] then [] else BeforeAlong(t.children[path[0]], path[1..])
  }

  function AfterAlong(t: Tree, path: seq<nat>): seq<Command>
    requires IsPath(t, path)
  {
    (if path == [] then [] else AfterAlong(t.children[path[0]], path[1..])) + t.after
  }

  /** The spec of the `k`th test case of the scope at the end of a path. */
  function SpecAt(t: Tree, path: seq<nat>, k: nat): Spec
    requires IsPath(t, path) && k < |ScopeAt(t, path).its|
  {
    var it := ScopeAt(t, path).its[k];
    Spec(it.id, BeforeAlong(t, path) + [it.command] + AfterAlong(t, path))
  }

  ghost predicate IsSpecOf(t: Tree, spec: Spec) {
    exists path: seq<nat>, k: nat :: IsPath(t, path) && k < |ScopeAt(t, path).its| && spec == SpecAt(t, path, k)
  }

  function Around(before: seq<Command>, spec: Spec, after: seq<Command>): Spec {
    spec.(commands := before + spec.commands + after)
  }

  lemma {:induction false} SpecsOfItsAt(its: seq<It>, before: seq<Command>, after: seq<Command>)
    ensures var specs := SpecsOfIts(its, before, after);
            && |specs| == |its|
            && forall k :: 0 <= k < |its| ==> specs[k] == Spec(its[k].id, before + [its[k].command] + after)
  {
    if its != [] {
      SpecsOfItsAt(its[..|its| - 1], before, after);
    }
  }

  lemma SpecAtHere(t: Tree, k: nat, before: seq<Command>, after: seq<Command>)
    requires k < |t.its|
    ensures ScopeAt(t, []) == t
    ensures Around(before, SpecAt(t, [], k), after)
            == Spec(t.its[k].id, before + t.before + [t.its[k].command] + (t.after + after))
  {
    assert before + (t.before + [t.its[k].command] + t.after) + after
        == before + t.before + [t.its[k].command] + (t.after + after);
  }

  lemma AroundTwice(before: seq<Command>, first: seq<Command>, spec: Spec, last: seq<Command>, after: seq<Command>)
    ensures Around(before, Around(first, spec, last), after) == Around(before + first, spec, last + after)
  {
    var inner := spec.commands;
    assert before + (first + inner + last) + after == before + first + inner + (last + after);
  }

  /** One step down a path adds the commands of the scope left behind. */
  lemma SpecAtStep(t: Tree, path: seq<nat>, k: nat)
    requires path != [] && IsPath(t, path) && k < |ScopeAt(t, path).its|
    ensures SpecAt(t, path, k) == Around(t.before, SpecAt(t.children[path[0]], path[1..], k), t.after)
  {
    var child, rest := t.children[path[0]], path[1..];
    var it := ScopeAt(child, rest).its[k];
    AroundTwice(t.before, BeforeAlong(child, rest), Spec(it.id, [it.command]), AfterAlong(child, rest), t.after);
  }

  lemma SpecAtBelow(t: Tree, path: seq<nat>, k: nat, before: seq<Command>, after: seq<Command>)
    requires path != [] && IsPath(t, path) && k < |ScopeAt(t, path).its|
    ensures Around(before, SpecAt(t, path, k), after)
            == Around(before + t.before, SpecAt(t.children[path[0]], path[1..], k), t.after + after)
  {
    hide SpecAt, Around;
    SpecAtStep(t, path, k);
    AroundTwice(before, t.before, SpecAt(t.children[path[0]], path[1..], k), t.after, after);
  }

  /** Every test case at the end of a path has its spec. */
  lemma {:induction false} SpecAtIsThere(t: Tree, path: seq<nat>, k: nat, before: seq<Command>, after: seq<Command>)
    requires IsPath(t, path) && k < |ScopeAt(t, path).its|
    ensures Around(before, SpecAt(t, path, k), after) in SpecsOf(t, before, after)
    decreases path
  {
    hide SpecsOfIts, SpecsOfAll, SpecAt, Around;
    var before', after' := before + t.before, t.after + after;
    if path == [] {
      SpecsOfItsAt(t.its, before', after');
      SpecAtHere(t, k, before, after);
      assert SpecsOfIts(t.its, before', after')[k] == Around(before, SpecAt(t, path, k), after);
    } else {
      SpecAtIsThere(t.children[path[0]], path[1..], k, before', after');
      SpecsOfAllHasThem(t.children, path[0], before', after');
      SpecAtBelow(t, path, k, before, after);
    }
  }

  lemma {:induction false} SpecsOfAllHasThem(ts: seq<Tree>, i: nat, before: seq<Command>, after: seq<Command>)
    requires i < |ts|
    ensures forall spec :: spec in SpecsOf(ts[i], before, after) ==> spec in SpecsOfAll(ts, before, after)
  {
    if i < |ts| - 1 {
      SpecsOfAllHasThem(ts[..|ts| - 1], i, before, after);
    }
  }

  /** Every spec is that of a test case at the end of a path. */
  lemma {:induction false} SpecIsAt(t: Tree, spec: Spec, before: seq<Command>, after: seq<Command>)
    returns (path: seq<nat>, k: nat)
    requires spec in SpecsOf(t, before, after)
    ensures IsPath(t, path) && k < |ScopeAt(t, path).its| && spec == Around(before, SpecAt(t, path, k), after)
    decreases t, 1
  {
    hide SpecsOfIts, SpecsOfAll, SpecAt, Around;
    var before', after' := before + t.before, t.after + after;
    var specs := SpecsOfIts(t.its, before', after');
    if spec in specs {
      SpecsOfItsAt(t.its, before', after');
      path := [];
      k :| k < |specs| && specs[k] == spec;
      SpecAtHere(t, k, before, after);
    } else {
      var i, inner;
      i, inner, k := SpecOfSomeIsAt(t.children, spec, before', after');
      path := [i] + inner;
      assert path[1..] == inner;
      SpecAtBelow(t, path, k, before, after);
    }
  }

  lemma {:induction false} SpecOfSomeIsAt(ts: seq<Tree>, spec: Spec, before: seq<Command>, after: seq<Command>)
    returns (i: nat, path: seq<nat>, k: nat)
    requires spec in SpecsOfAll(ts, before, after)
    ensures i < |ts| && IsPath(ts[i], path) && k < |ScopeAt(ts[i], path).its|
    ensures spec == Around(before, SpecAt(ts[i], path, k), after)
    decreases ts, 0
  {
    i := |ts| - 1;
    if spec in SpecsOf(ts[i], before, after) {
      path, k := SpecIsAt(ts[i], spec, before, after);
    } else {
      i, path, k := SpecOfSomeIsAt(ts[..i], spec, before, after);
    }
  }

  /** The specs are exactly those of the test cases: commands from root to scope, the test, commands from scope to
      root. */
  lemma SpecsAreThoseOfTheTests(t: Tree, spec: Spec)
    ensures spec in SpecsOf(t, [], []) <==> IsSpecOf(t, spec)
  {
    if spec in SpecsOf(t, [], []) {
      var path, k := SpecIsAt(t, spec, [], []);
      assert spec.commands == SpecAt(t, path, k).commands;
    }
    if IsSpecOf(t, spec) {
      var path: seq<nat>, k: nat :| IsPath(t, path) && k < |ScopeAt(t, path).its| && spec == SpecAt(t, path, k);
      SpecAtIsThere(t, path, k, [], []);
      assert Around([], spec, []).commands == spec.commands;
    }
  }

  /** How many test cases a scope has. */
  function Tests(t: Tree): nat
    decreases t, 1
  {
    |t.its| + TestsOfAll(t.children)
  }

  function TestsOfAll(ts: seq<Tree>): nat
    decreases ts, 0
  {
    if ts == [] then 0 else Tests(ts[|ts| - 1]) + TestsOfAll(ts[..|ts| - 1])
  }

  /** One spec for each test case. */
  lemma {:induction false} OneSpecEach(t: Tree, before: seq<Command>, after: seq<Command>)
    ensures |SpecsOf(t, before, after)| == Tests(t)
    decreases t, 1
  {
    SpecsOfItsAt(t.its, before + t.before, t.after + after);
    OneSpecEachOfAll(t.children, before + t.before, t.after + after);
  }

  lemma {:induction false} OneSpecEachOfAll(ts: seq<Tree>, before: seq<Command>, after: seq<Command>)
    ensures |SpecsOfAll(ts, before, after)| == TestsOfAll(ts)
    decreases ts, 0
  {
    if ts != [] {
      OneSpecEach(ts[|ts| - 1], before, after);
      OneSpecEachOfAll(ts[..|ts| - 1], before, after);
    }
  }

  // From definitions to specs, without the scopes

  /** The commands that some definitions put before and after their test cases, those of nested scopes aside. */
  function Befores(defs: seq<Definition>): seq<Command> {
    if defs == [] then []
    else (if defs[0].DefineBefore? then [defs[0].before] else []) + Befores(defs[1..])
  }

  function Afters(defs: seq<Definition>): seq<Command> {
    if defs == [] then []
    else (if defs[0].DefineAfter? then [defs[0].after] else []) + Afters(defs[1..])
  }

  /** Some definition asks for the spec: a test case among them, or one in a scope among them, at any depth, inside all
      the commands of the scopes around it, whether they are defined before it or after it. */
  ghost predicate IsAskedFor(defs: seq<Definition>, spec: Spec, before: seq<Command>, after: seq<Command>)
    decreases defs
  {
    exists i :: 0 <= i < |defs| && IsAskedForBy(defs[i], spec, before + Befores(defs), Afters(defs) + after)
  }

  ghost predicate IsAskedForBy(d: Definition, spec: Spec, before: seq<Command>, after: seq<Command>)
    decreases d
  {
    match d
    case DefineIt(it) => spec == Spec(it.id, before + [it.command] + after)
    case Describe(body) => IsAskedFor(body, spec, before, after)
    case _ => false
  }

  /** How many test cases are defined, at any depth. */
  function ItsIn(defs: seq<Definition>): nat
    decreases defs
  {
    if defs == [] then 0
    else (match defs[0]
          case DefineIt(_) => 1
          case Describe(body) => ItsIn(body)
          case _ => 0) + ItsIn(defs[1..])
  }

  /** What definitions do to the commands of a scope. */
  lemma {:induction false} CommandsDefined(t: Tree, defs: seq<Definition>)
    ensures Defined(t, defs).before == t.before + Befores(defs)
    ensures Defined(t, defs).after == t.after + Afters(defs)
    decreases defs
  {
    if defs != [] {
      CommandsDefined(DefinedOne(t, defs[0]), defs[1..]);
    }
  }

  /** Among the scope's own test cases and scopes, without its commands. */
  ghost predicate IsInside(t: Tree, spec: Spec, before: seq<Command>, after: seq<Command>) {
    spec in SpecsOfIts(t.its, before, after) || spec in SpecsOfAll(t.children, before, after)
  }

  lemma SpecsOfOneMoreIt(its: seq<It>, it: It, before: seq<Command>, after: seq<Command>)
    ensures SpecsOfIts(its + [it], before, after)
            == SpecsOfIts(its, before, after) + [Spec(it.id, before + [it.command] + after)]
  {
    assert (its + [it])[..|its|] == its;
  }

  lemma SpecsOfOneMoreScope(ts: seq<Tree>, t: Tree, before: seq<Command>, after: seq<Command>)
    ensures SpecsOfAll(ts + [t], before, after) == SpecsOf(t, before, after) + SpecsOfAll(ts, before, after)
  {
    assert (ts + [t])[..|ts|] == ts;
  }

  /** One definition adds just the specs it asks for. */
  lemma {:induction false} OneDefinitionAdds(t: Tree, d: Definition, spec: Spec, before: seq<Command>,
                                             after: seq<Command>)
    ensures IsInside(DefinedOne(t, d), spec, before, after)
            <==> IsInside(t, spec, before, after) || IsAskedForBy(d, spec, before, after)
    decreases d, 1
  {
    hide SpecsOfIts, SpecsOfAll, SpecsOf;
    match d
    case DefineIt(it) =>
      SpecsOfOneMoreIt(t.its, it, before, after);
    case Describe(body) =>
      var child := Defined(EMPTY_TREE, body);
      ScopeIsAskedFor(body, spec, before, after);
      if IsEmpty(child) {
        EmptyHasNoSpecs(child, before, after);
      } else {
        SpecsOfOneMoreScope(t.children, child, before, after);
      }
    case _ =>
  }

  lemma EmptyHasNoSpecs(t: Tree, before: seq<Command>, after: seq<Command>)
    requires IsEmpty(t)
    ensures SpecsOf(t, before, after) == []
  {
  }

  /** Definitions add just the specs they ask for, given all the commands around them. */
  lemma {:induction false} DefinitionsAdd(t: Tree, defs: seq<Definition>, spec: Spec, before: seq<Command>,
                                          after: seq<Command>)
    ensures IsInside(Defined(t, defs), spec, before, after)
            <==> || IsInside(t, spec, before, after)
                 || exists i :: 0 <= i < |defs| && IsAskedForBy(defs[i], spec, before, after)
    decreases defs, 0
  {
    hide IsInside, IsAskedForBy;
    if defs != [] {
      OneDefinitionAdds(t, defs[0], spec, before, after);
      DefinitionsAdd(DefinedOne(t, defs[0]), defs[1..], spec, before, after);
      assert forall i :: 1 <= i < |defs| ==> defs[i] == defs[1..][i - 1];
    }
  }

  /** A scope defined from nothing has exactly the specs its definitions ask for. */
  lemma {:induction false} ScopeIsAskedFor(defs: seq<Definition>, spec: Spec, before: seq<Command>, after: seq<Command>)
    ensures spec in SpecsOf(Defined(EMPTY_TREE, defs), before, after) <==> IsAskedFor(defs, spec, before, after)
    decreases defs, 1
  {
    hide SpecsOfIts, SpecsOfAll, IsAskedForBy;
    CommandsDefined(EMPTY_TREE, defs);
    assert EMPTY_TREE.before + Befores(defs) == Befores(defs) && EMPTY_TREE.after + Afters(defs) == Afters(defs);
    DefinitionsAdd(EMPTY_TREE, defs, spec, before + Befores(defs), Afters(defs) + after);
    EmptyHasNoSpecs(EMPTY_TREE, before, after);
    NothingInside(spec, before + Befores(defs), Afters(defs) + after);
  }

  lemma NothingInside(spec: Spec, before: seq<Command>, after: seq<Command>)
    ensures !IsInside(EMPTY_TREE, spec, before, after)
  {
  }

  /** No test case is lost, at whatever depth, and none is made up. */
  lemma {:induction false} EveryItIsKept(t: Tree, defs: seq<Definition>)
    ensures Tests(Defined(t, defs)) == Tests(t) + ItsIn(defs)
    decreases defs
  {
    if defs != [] {
      if defs[0].Describe? {
        var child := Defined(EMPTY_TREE, defs[0].body);
        EveryItIsKept(EMPTY_TREE, defs[0].body);
        assert (t.children + [child])[..|t.children|] == t.children;
      }
      EveryItIsKept(DefinedOne(t, defs[0]), defs[1..]);
    }
  }

  /** What is baked from some definitions: each spec they ask for, and no other, once for each test case. */
  lemma SpecsAreThoseAskedFor(defs: seq<Definition>)
    ensures var specs := SpecsOf(Defined(EMPTY_TREE, defs), [], []);
            && |specs| == ItsIn(defs)
            && forall spec :: spec in specs <==> IsAskedFor(defs, spec, [], [])
  {
    hide SpecsOf, IsAskedFor, Defined;
    EveryItIsKept(EMPTY_TREE, defs);
    OneSpecEach(Defined(EMPTY_TREE, defs), [], []);
    forall spec
      ensures spec in SpecsOf(Defined(EMPTY_TREE, defs), [], []) <==> IsAskedFor(defs, spec, [], [])
    {
      ScopeIsAskedFor(defs, spec, [], []);
    }
  }

  // The stack at work, on values

  /** An entry of the stack: a scope, and whether it has been visited, its commands being in force. */
  datatype Frame = Frame(tree: Tree, visited: bool)

  /** The commands in force: those of the visited scopes, from the bottom up. */
  function BeforeOf(stack: seq<Frame>): seq<Command> {
    if stack == [] then []
    else var top := stack[|stack| - 1];
         BeforeOf(stack[..|stack| - 1]) + if top.visited then top.tree.before else []
  }

  function AfterOf(stack: seq<Frame>): seq<Command> {
    if stack == [] then []
    else var top := stack[|stack| - 1];
         (if top.visited then top.tree.after else []) + AfterOf(stack[..|stack| - 1])
  }

  /** The specs still to come: those of the scopes not visited yet, from the top down. */
  function Pending(stack: seq<Frame>): seq<Spec> {
    if stack == [] then []
    else var top, rest := stack[|stack| - 1], stack[..|stack| - 1];
         (if top.visited then [] else SpecsOf(top.tree, BeforeOf(rest), AfterOf(rest))) + Pending(rest)
  }

  function Unvisited(ts: seq<Tree>): seq<Frame> {
    seq(|ts|, i requires 0 <= i < |ts| => Frame(ts[i], false))
  }

  lemma OneOnTop(stack: seq<Frame>, f: Frame)
    ensures BeforeOf(stack + [f]) == BeforeOf(stack) + if f.visited then f.tree.before else []
    ensures AfterOf(stack + [f]) == (if f.visited then f.tree.after else []) + AfterOf(stack)
    ensures Pending(stack + [f])
            == (if f.visited then [] else SpecsOf(f.tree, BeforeOf(stack), AfterOf(stack))) + Pending(stack)
  {
    assert (stack + [f])[..|stack|] == stack;
  }

  lemma UnvisitedSplit(stack: seq<Frame>, ts: seq<Tree>)
    requires ts != []
    ensures stack + Unvisited(ts) == (stack + Unvisited(ts[..|ts| - 1])) + [Frame(ts[|ts| - 1], false)]
  {
  }

  /** Scopes not visited put no commands in force. */
  lemma {:induction false} UnvisitedCommands(stack: seq<Frame>, ts: seq<Tree>)
    ensures BeforeOf(stack + Unvisited(ts)) == BeforeOf(stack)
    ensures AfterOf(stack + Unvisited(ts)) == AfterOf(stack)
  {
    if ts == [] {
      assert stack + Unvisited(ts) == stack;
    } else {
      UnvisitedSplit(stack, ts);
      UnvisitedCommands(stack, ts[..|ts| - 1]);
      OneOnTop(stack + Unvisited(ts[..|ts| - 1]), Frame(ts[|ts| - 1], false));
    }
  }

  lemma {:induction false} UnvisitedOnTop(stack: seq<Frame>, ts: seq<Tree>)
    ensures Pending(stack + Unvisited(ts)) == SpecsOfAll(ts, BeforeOf(stack), AfterOf(stack)) + Pending(stack)
  {
    if ts == [] {
      assert stack + Unvisited(ts) == stack;
    } else {
      var n := |ts| - 1;
      UnvisitedSplit(stack, ts);
      UnvisitedCommands(stack, ts[..n]);
      UnvisitedOnTop(stack, ts[..n]);
      OneOnTop(stack + Unvisited(ts[..n]), Frame(ts[n], false));
      InTwoSteps(SpecsOf(ts[n], BeforeOf(stack), AfterOf(stack)),
                 SpecsOfAll(ts[..n], BeforeOf(stack), AfterOf(stack)), Pending(stack));
    }
  }

  lemma InTwoSteps(a: seq<Spec>, b: seq<Spec>, c: seq<Spec>)
    ensures (a + b) + c == a + (b + c)
  {
  }

  /** Visiting the top scope turns its pending specs into those of its test cases and its pending children. */
  lemma Visiting(stack: seq<Frame>, t: Tree)
    ensures var visited := stack + [Frame(t, true)];
            && BeforeOf(visited) == BeforeOf(stack) + t.before
            && AfterOf(visited) == t.after + AfterOf(stack)
            && Pending(stack + [Frame(t, false)])
               == SpecsOfIts(t.its, BeforeOf(visited), AfterOf(visited)) + Pending(visited + Unvisited(t.children))
  {
    var visited := stack + [Frame(t, true)];
    OneOnTop(stack, Frame(t, true));
    OneOnTop(stack, Frame(t, false));
    UnvisitedOnTop(visited, t.children);
    var before, after := BeforeOf(visited), AfterOf(visited);
    InTwoSteps(SpecsOfIts(t.its, before, after), SpecsOfAll(t.children, before, after), Pending(stack));
  }

  // Scopes as objects

  class Scope {
    var beforeEach: seq<Command>
    var its: seq<It>
    var afterEach: seq<Command>
    var children: seq<Scope>

    /** This scope and all below it, and its value. */
    ghost var Repr: set<Scope>
    ghost var value: Tree

    ghost predicate Valid()
      reads this, Repr
      decreases Repr, 1
    {
      ValidWith(children)
    }

    /** Valid if its children were `cs`. */
    ghost predicate ValidWith(cs: seq<Scope>)
      reads this, Repr
      decreases Repr, 0
    {
      && this in Repr
      && value.before == beforeEach && value.its == its && value.after == afterEach
      && |value.children| == |cs|
      && (forall i :: 0 <= i < |cs| ==>
            && cs[i] in Repr && cs[i].Repr <= Repr && this !in cs[i].Repr
            && cs[i].Valid() && cs[i].value == value.children[i])
      && (forall i, j :: 0 <= i < j < |cs| ==> cs[i].Repr !! cs[j].Repr)
    }

    constructor ()
      ensures Valid() && value == EMPTY_TREE && Repr == {this}
    {
      beforeEach, its, afterEach, children := [], [], [], [];
      Repr, value := {this}, EMPTY_TREE;
    }
  }

  /** Removes every occurrence of a scope. */
  function RemoveScope(scopes: seq<Scope>, scope: Scope): seq<Scope> {
    if scopes == [] then []
    else (if scopes[0] == scope then [] else [scopes[0]]) + RemoveScope(scopes[1..], scope)
  }

  lemma {:induction false} NothingElseRemoved(scopes: seq<Scope>, scope: Scope)
    requires scope !in scopes
    ensures RemoveScope(scopes + [scope], scope) == scopes
  {
    if scopes != [] {
      assert (scopes + [scope])[1..] == scopes[1..] + [scope];
      NothingElseRemoved(scopes[1..], scope);
    }
  }

  // Baking

  function Reversed(s: seq<Command>): seq<Command> {
    if s == [] then [] else Reversed(s[1..]) + [s[0]]
  }

  lemma {:induction false} ReversedSplit(a: seq<Command>, b: seq<Command>)
    ensures Reversed(a + b) == Reversed(b) + Reversed(a)
  {
    if a == [] {
      assert a + b == b;
    } else {
      assert (a + b)[1..] == a[1..] + b;
      ReversedSplit(a[1..], b);
    }
  }

  lemma {:induction false} ReversedTwice(s: seq<Command>)
    ensures Reversed(Reversed(s)) == s && |Reversed(s)| == |s|
  {
    if s != [] {
      ReversedTwice(s[1..]);
      ReversedSplit(Reversed(s[1..]), [s[0]]);
      assert [s[0]][1..] == [];
      assert s == [s[0]] + s[1..];
    }
  }

  /** Appends `s` back to front. */
  method AppendReversed(to: seq<Command>, s: seq<Command>) returns (r: seq<Command>)
    ensures r == to + Reversed(s)
  {
    r := to;
    var i := |s|;
    while i > 0
      invariant 0 <= i <= |s|
      invariant r == to + Reversed(s[i..])
    {
      i := i - 1;
      assert s[i..] == [s[i]] + s[i + 1..];
      r := r + [s[i]];
    }
    assert s[0..] == s;
  }

  function Size(t: Tree): nat
    decreases t, 1
  {
    1 + SizeOfAll(t.children)
  }

  function SizeOfAll(ts: seq<Tree>): nat
    decreases ts, 0
  {
    if ts == [] then 0 else Size(ts[|ts| - 1]) + SizeOfAll(ts[..|ts| - 1])
  }

  /** How many scopes are still to be visited. */
  function Unfinished(stack: seq<Frame>): nat {
    if stack == [] then 0
    else (if stack[|stack| - 1].visited then 0 else Size(stack[|stack| - 1].tree)) + Unfinished(stack[..|stack| - 1])
  }

  lemma {:induction false} UnvisitedUnfinished(stack: seq<Frame>, ts: seq<Tree>)
    ensures Unfinished(stack + Unvisited(ts)) == Unfinished(stack) + SizeOfAll(ts)
  {
    if ts == [] {
      assert stack + Unvisited(ts) == stack;
    } else {
      UnvisitedSplit(stack, ts);
      var below := stack + Unvisited(ts[..|ts| - 1]);
      assert (below + [Frame(ts[|ts| - 1], false)])[..|below|] == below;
      UnvisitedUnfinished(stack, ts[..|ts| - 1]);
    }
  }

  lemma VisitingFinishesOne(stack: seq<Frame>, t: Tree)
    ensures Unfinished(stack + [Frame(t, true)] + Unvisited(t.children)) == Unfinished(stack + [Frame(t, false)]) - 1
  {
    UnvisitedUnfinished(stack + [Frame(t, true)], t.children);
    assert (stack + [Frame(t, true)])[..|stack|] == stack && (stack + [Frame(t, false)])[..|stack|] == stack;
  }

  /** A visited scope has been emptied; one not visited yet is as it was defined. */
  ghost predicate Represents(s: Scope, f: Frame)
    reads s, s.Repr
  {
    if f.visited then
      && s.beforeEach == f.tree.before && s.afterEach == f.tree.after && s.its == [] && s.children == []
      && s.Repr == {s}
    else
      s.Valid() && s.value == f.tree && NoEmptyInside(f.tree)
  }

  /** The scopes on the stack, all among `all`, are what the frames say, and share nothing. */
  ghost predicate StackMatches(stack: seq<Scope>, frames: seq<Frame>, all: set<Scope>)
    reads stack, set s, t | s in stack && t in s.Repr :: t
  {
    && |stack| == |frames|
    && (forall i :: 0 <= i < |stack| ==> Represents(stack[i], frames[i]) && stack[i].Repr <= all)
    && (forall i, j :: 0 <= i < j < |stack| ==> stack[i].Repr !! stack[j].Repr)
  }

  /** A scope not visited yet is as it was defined. */
  lemma UnvisitedIsWhole(s: Scope, t: Tree)
    requires Represents(s, Frame(t, false))
    ensures s.beforeEach == t.before && s.afterEach == t.after && s.its == t.its && |s.children| == |t.children|
    ensures s in s.Repr && StackMatches(s.children, Unvisited(t.children), s.Repr - {s})
  {
    assert s.ValidWith(s.children);
  }

  /** A scope with nothing inside has been visited. */
  lemma HollowIsVisited(s: Scope, f: Frame)
    requires Represents(s, f) && (!f.visited ==> !IsEmpty(f.tree)) && s.its == [] && s.children == []
    ensures f.visited && s.beforeEach == f.tree.before && s.afterEach == f.tree.after
  {
    if !f.visited {
      UnvisitedIsWhole(s, f.tree);
    }
  }

  /** Two stacks with nothing in common can be put on top of each other. */
  lemma Stacked(low: seq<Scope>, lowFrames: seq<Frame>, lowAll: set<Scope>, high: seq<Scope>, highFrames: seq<Frame>,
                highAll: set<Scope>)
    requires StackMatches(low, lowFrames, lowAll) && StackMatches(high, highFrames, highAll) && lowAll !! highAll
    ensures StackMatches(low + high, lowFrames + highFrames, lowAll + highAll)
  {
    var stack, frames := low + high, lowFrames + highFrames;
    forall i | 0 <= i < |stack|
      ensures Represents(stack[i], frames[i]) && stack[i].Repr <= if i < |low| then lowAll else highAll
    {
      if i < |low| {
        assert Represents(low[i], lowFrames[i]);
      } else {
        assert Represents(high[i - |low|], highFrames[i - |low|]);
      }
    }
  }

  lemma Unstacked(stack: seq<Scope>, below: seq<Frame>, f: Frame, all: set<Scope>)
    requires StackMatches(stack, below + [f], all)
    ensures var top := stack[|below|];
            StackMatches(stack[..|below|], below, all - top.Repr) && Represents(top, f) && top.Repr <= all
  {
    var frames := below + [f];
    assert forall i :: 0 <= i < |below| ==> below[i] == frames[i];
  }

  /** No scope waiting on the stack is without test cases. */
  predicate NoneEmpty(frames: seq<Frame>) {
    forall i :: 0 <= i < |frames| && !frames[i].visited ==> !IsEmpty(frames[i].tree)
  }

  /** Popping a scope with nothing inside takes its commands back, and nothing that is still to come. */
  lemma PoppedOne(stack: seq<Scope>, frames: seq<Frame>, all: set<Scope>)
    requires StackMatches(stack, frames, all) && NoneEmpty(frames) && stack != []
    requires stack[|stack| - 1].its == [] && stack[|stack| - 1].children == []
    ensures |frames| == |stack|
    ensures var popped, frames' := stack[|stack| - 1], frames[..|frames| - 1];
            && StackMatches(stack[..|stack| - 1], frames', all) && NoneEmpty(frames')
            && BeforeOf(frames) == BeforeOf(frames') + popped.beforeEach
            && Reversed(AfterOf(frames)) == Reversed(AfterOf(frames')) + Reversed(popped.afterEach)
            && |Reversed(popped.afterEach)| == |popped.afterEach|
            && Pending(frames') == Pending(frames) && Unfinished(frames') == Unfinished(frames)
  {
    hide Pending, Unfinished, BeforeOf, AfterOf, Reversed;
    var popped, top, frames' := stack[|stack| - 1], frames[|frames| - 1], frames[..|frames| - 1];
    assert Represents(popped, top);
    HollowIsVisited(popped, top);
    assert frames == frames' + [top];
    OneOnTop(frames', top);
    ReversedSplit(top.tree.after, AfterOf(frames'));
    ReversedTwice(top.tree.after);
    PoppedMeasures(frames', top);
  }

  lemma PoppedMeasures(below: seq<Frame>, top: Frame)
    requires top.visited
    ensures Pending(below + [top]) == Pending(below) && Unfinished(below + [top]) == Unfinished(below)
    ensures BeforeOf(below + [top]) == BeforeOf(below) + top.tree.before
    ensures AfterOf(below + [top]) == top.tree.after + AfterOf(below)
  {
    hide SpecsOf, Size;
    OneOnTop(below, top);
    assert (below + [top])[..|below|] == below;
  }

  /** A scope with something left inside has not been visited. */
  lemma FilledIsUnvisited(stack: seq<Scope>, frames: seq<Frame>, all: set<Scope>)
    requires StackMatches(stack, frames, all)
    requires stack != [] ==> stack[|stack| - 1].its != [] || stack[|stack| - 1].children != []
    ensures frames != [] ==> !frames[|frames| - 1].visited
  {
    if frames != [] {
      assert Represents(stack[|stack| - 1], frames[|frames| - 1]);
    }
  }

  /** Between rounds the scope on top, if any, is still to be visited, and no scope below is without test cases. */
  ghost predicate AwaitsVisit(frames: seq<Frame>) {
    frames != [] ==> !frames[|frames| - 1].visited && NoneEmpty(frames[..|frames| - 1])
  }

  /** At first there is just the root, all of whose specs are to come. */
  lemma FirstFrame(root: Tree)
    ensures var frames := [Frame(root, false)];
            && AwaitsVisit(frames) && BeforeOf(frames) == [] && Reversed(AfterOf(frames)) == []
            && Pending(frames) == SpecsOf(root, [], [])
  {
    hide SpecsOf;
    OneOnTop([], Frame(root, false));
    assert AfterOf([Frame(root, false)]) == [];
  }

  /** The scope on top has put no commands in force yet. */
  lemma TopFrame(frames: seq<Frame>)
    requires frames != [] && AwaitsVisit(frames)
    ensures var below, t := frames[..|frames| - 1], frames[|frames| - 1].tree;
            && frames == below + [Frame(t, false)] && NoneEmpty(below)
            && BeforeOf(below) == BeforeOf(frames) && AfterOf(below) == AfterOf(frames)
  {
    var below, t := frames[..|frames| - 1], frames[|frames| - 1].tree;
    assert frames == below + [Frame(t, false)];
    OneOnTop(below, Frame(t, false));
    assert [] + AfterOf(below) == AfterOf(below) && BeforeOf(below) + [] == BeforeOf(below);
  }

  lemma RootStacked(root: Scope)
    requires root.Valid() && NoEmptyInside(root.value)
    ensures StackMatches([root], [Frame(root.value, false)], root.Repr)
  {
  }

  lemma AwaitsNext(stack: seq<Scope>, frames: seq<Frame>, all: set<Scope>)
    requires StackMatches(stack, frames, all) && NoneEmpty(frames)
    requires frames != [] ==> !frames[|frames| - 1].visited
    ensures |stack| == |frames| && AwaitsVisit(frames)
  {
  }

  lemma NothingRegistered()
    ensures Registers(map[], [])
  {
  }

  lemma NothingPending()
    ensures Pending([]) == []
  {
  }

  /** What visiting the top scope leaves on the stack. */
  lemma VisitedStack(below: seq<Frame>, t: Tree)
    requires NoneEmpty(below) && NoEmptyInside(t)
    ensures var frames := below + [Frame(t, true)] + Unvisited(t.children);
            && NoneEmpty(frames) && (t.children != [] ==> !frames[|frames| - 1].visited)
            && Unfinished(frames) < Unfinished(below + [Frame(t, false)])
  {
    VisitingFinishesOne(below, t);
  }

  predicate DistinctIds(specs: seq<Spec>) {
    forall i, j :: 0 <= i < j < |specs| ==> specs[i].id != specs[j].id
  }

  /** A map from ids to specs holds exactly the given specs. */
  predicate Registers(m: map<string, Spec>, specs: seq<Spec>) {
    && (forall i :: 0 <= i < |specs| ==> specs[i].id in m && m[specs[i].id] == specs[i])
    && (forall id :: id in m ==> exists i :: 0 <= i < |specs| && specs[i].id == id)
  }

  lemma RegistersOneMore(m: map<string, Spec>, specs: seq<Spec>, spec: Spec)
    requires Registers(m, specs) && spec.id !in m
    ensures Registers(m[spec.id := spec], specs + [spec])
  {
    var specs', m' := specs + [spec], m[spec.id := spec];
    forall id | id in m'
      ensures exists i :: 0 <= i < |specs'| && specs'[i].id == id
    {
      if id == spec.id {
        assert specs'[|specs|].id == id;
      } else {
        var i :| 0 <= i < |specs| && specs[i].id == id;
        assert specs'[i].id == id;
      }
    }
  }

  lemma SpecsOfNoIts(before: seq<Command>, after: seq<Command>)
    ensures SpecsOfIts([], before, after) == []
  {
  }

  /** The next test case's spec has an id not registered yet. */
  lemma NextSpecIsNew(was: seq<Spec>, its: seq<It>, i: nat, before: seq<Command>, after: seq<Command>,
                      m: map<string, Spec>)
    requires i < |its| && DistinctIds(was + SpecsOfIts(its, before, after))
    requires Registers(m, was + SpecsOfIts(its[..i], before, after))
    ensures SpecsOfIts(its[..i + 1], before, after)
            == SpecsOfIts(its[..i], before, after) + [Spec(its[i].id, before + [its[i].command] + after)]
    ensures its[i].id !in m
  {
    SpecsOfItsAt(its, before, after);
    SpecsOfItsAt(its[..i], before, after);
    assert its[..i + 1][..i] == its[..i];
    var all, done := was + SpecsOfIts(its, before, after), was + SpecsOfIts(its[..i], before, after);
    assert forall j :: 0 <= j < |done| ==> done[j] == all[j];
    assert all[|done|].id == its[i].id;
  }

  lemma DistinctInPart(a: seq<Spec>, b: seq<Spec>, c: seq<Spec>)
    requires DistinctIds(a + (b + c))
    ensures DistinctIds(a + b)
  {
    assert a + (b + c) == (a + b) + c;
    forall i, j | 0 <= i < j < |a + b|
      ensures (a + b)[i].id != (a + b)[j].id
    {
      assert (a + b)[i] == ((a + b) + c)[i] && (a + b)[j] == ((a + b) + c)[j];
    }
  }

  /** The commands that every test class adds around its own definitions. */
  const NEXT_CONTEXT: Command := "next context"
  const PREPARE_WORLD: Command := "prepare world"
  const RELEASE_WORLD: Command := "release world"
  const RESET_CONTEXT: Command := "reset context"

  function PreDefinitions(useWorld: bool): seq<Definition> {
    [DefineBefore(NEXT_CONTEXT)] + if useWorld then [DefineBefore(PREPARE_WORLD)] else []
  }

  function PostDefinitions(): seq<Definition> {
    [DefineAfter(RELEASE_WORLD), DefineAfter(RESET_CONTEXT)]
  }

  function Wrapped(useWorld: bool, defs: seq<Definition>): seq<Definition> {
    PreDefinitions(useWorld) + defs + PostDefinitions()
  }

  lemma {:induction false} DefinedInSteps(t: Tree, first: seq<Definition>, second: seq<Definition>)
    ensures Defined(t, first + second) == Defined(Defined(t, first), second)
    decreases first
  {
    if first == [] {
      assert first + second == second;
    } else {
      assert (first + second)[1..] == first[1..] + second;
      DefinedInSteps(DefinedOne(t, first[0]), first[1..], second);
    }
  }

  lemma {:induction false} DefinitionsOnlyAdd(t: Tree, defs: seq<Definition>)
    ensures t.before <= Defined(t, defs).before
    decreases defs
  {
    if defs != [] {
      DefinitionsOnlyAdd(DefinedOne(t, defs[0]), defs[1..]);
    }
  }

  /** Whatever is defined, each test starts by taking its context and ends by releasing the world and resetting. */
  lemma EverySpecIsWrapped(useWorld: bool, defs: seq<Definition>, spec: Spec)
    requires spec in SpecsOf(Defined(EMPTY_TREE, Wrapped(useWorld, defs)), [], [])
    ensures [NEXT_CONTEXT] + (if useWorld then [PREPARE_WORLD] else []) <= spec.commands
    ensures |spec.commands| >= 4 && spec.commands[|spec.commands| - 2..] == [RELEASE_WORLD, RESET_CONTEXT]
  {
    hide SpecsOf;
    var pre := Defined(EMPTY_TREE, PreDefinitions(useWorld));
    var middle := Defined(pre, defs);
    var root := Defined(EMPTY_TREE, Wrapped(useWorld, defs));
    DefinedInSteps(EMPTY_TREE, PreDefinitions(useWorld) + defs, PostDefinitions());
    DefinedInSteps(EMPTY_TREE, PreDefinitions(useWorld), defs);
    DefinitionsOnlyAdd(pre, defs);
    DefinedByPre(useWorld);
    assert root == Defined(middle, PostDefinitions());
    assert root.before == middle.before && root.after == middle.after + [RELEASE_WORLD, RESET_CONTEXT];
    SpecsAreThoseOfTheTests(root, spec);
    var path: seq<nat>, k: nat :| IsPath(root, path) && k < |ScopeAt(root, path).its| && spec == SpecAt(root, path, k);
    assert root.before <= BeforeAlong(root, path);
  }

  lemma DefinedByPre(useWorld: bool)
    ensures Defined(EMPTY_TREE, PreDefinitions(useWorld)).before == [NEXT_CONTEXT] + if useWorld then [PREPARE_WORLD]
            else []
  {
    if useWorld {
      assert PreDefinitions(true)[1..] == [DefineBefore(PREPARE_WORLD)];
    }
  }

  /** A test class: definitions are performed on the innermost scope, then baked once. */
  class TestSpec {
    const useWorld: bool
    var rootDefinitionScope: Scope?
    var definitionScopeStack: seq<Scope>
    var idToSpecMap: map<string, Spec>
    var hasBeenDefined: bool

    /** The specs in the order in which they were added. */
    ghost var specs: seq<Spec>

    ghost predicate Undefined()
      reads this, rootDefinitionScope
    {
      && rootDefinitionScope != null && definitionScopeStack == [rootDefinitionScope]
      && rootDefinitionScope.Repr == {rootDefinitionScope} && rootDefinitionScope.Valid()
      && rootDefinitionScope.value == EMPTY_TREE
      && idToSpecMap == map[] && specs == [] && !hasBeenDefined
    }

    constructor (useWorld: bool)
      ensures Undefined() && this.useWorld == useWorld && fresh(rootDefinitionScope)
    {
      this.useWorld := useWorld;
      var root := new Scope();
      rootDefinitionScope, definitionScopeStack := root, [root];
      idToSpecMap, specs, hasBeenDefined := map[], [], false;
    }

    method Perform(defs: seq<Definition>, ghost top: Scope)
      requires definitionScopeStack != [] && definitionScopeStack[|definitionScopeStack| - 1] == top && top.Valid()
      modifies `definitionScopeStack, top
      ensures definitionScopeStack == old(definitionScopeStack)
      ensures top.Valid() && top.value == Defined(old(top.value), defs) && fresh(top.Repr - old(top.Repr))
      decreases defs, 0
    {
      if defs == [] {
        return;
      }
      PerformOne(defs[0], top);
      Perform(defs[1..], top);
    }

    method PerformOne(d: Definition, ghost top: Scope)
      requires definitionScopeStack != [] && definitionScopeStack[|definitionScopeStack| - 1] == top && top.Valid()
      modifies `definitionScopeStack, top
      ensures definitionScopeStack == old(definitionScopeStack)
      ensures top.Valid() && top.value == DefinedOne(old(top.value), d) && fresh(top.Repr - old(top.Repr))
      decreases d, 0
    {
      var current := definitionScopeStack[|definitionScopeStack| - 1];
      match d
      case DefineIt(it) =>
        current.its := current.its + [it];
        current.value := current.value.(its := current.its);
      case DefineBefore(c) =>
        current.beforeEach := current.beforeEach + [c];
        current.value := current.value.(before := current.beforeEach);
      case DefineAfter(c) =>
        current.afterEach := current.afterEach + [c];
        current.value := current.value.(after := current.afterEach);
      case Describe(body) =>
        DescribeScope(body, top);
    }

    /** Describe: a new scope, defined while it is innermost, and kept only if it has test cases. */
    method DescribeScope(body: seq<Definition>, ghost top: Scope)
      requires definitionScopeStack != [] && definitionScopeStack[|definitionScopeStack| - 1] == top && top.Valid()
      modifies `definitionScopeStack, top
      ensures definitionScopeStack == old(definitionScopeStack)
      ensures top.Valid() && top.value == DefinedOne(old(top.value), Describe(body)) && fresh(top.Repr - old(top.Repr))
      decreases body, 1
    {
      var parent := definitionScopeStack[|definitionScopeStack| - 1];
      var scope := new Scope();
      ghost var children := parent.children;
      parent.children := parent.children + [scope];
      definitionScopeStack := definitionScopeStack + [scope];
      Perform(body, scope);
      definitionScopeStack := definitionScopeStack[..|definitionScopeStack| - 1];
      DropIfEmpty(parent, scope, children);
    }

    /** The end of Describe, once the new scope is no longer innermost. */
    static method DropIfEmpty(parent: Scope, scope: Scope, ghost children: seq<Scope>)
      requires parent.ValidWith(children) && parent.children == children + [scope]
      requires scope.Valid() && scope.Repr !! parent.Repr
      modifies parent
      ensures parent.Valid() && parent.Repr <= old(parent.Repr) + scope.Repr
      ensures parent.value == var value := old(parent.value);
                              if IsEmpty(scope.value) then value
                              else value.(children := value.children + [scope.value])
    {
      if scope.its == [] && scope.children == [] {
        NothingElseRemoved(children, scope);
        parent.children := RemoveScope(parent.children, scope);
      } else {
        parent.Repr := parent.Repr + scope.Repr;
        parent.value := parent.value.(children := parent.value.children + [scope.value]);
      }
    }

    /** PreDefine, Define and PostDefine. */
    method RunDefine(defs: seq<Definition>)
      requires Undefined()
      modifies `definitionScopeStack, rootDefinitionScope
      ensures definitionScopeStack == old(definitionScopeStack)
      ensures rootDefinitionScope.Valid() && fresh(rootDefinitionScope.Repr - {rootDefinitionScope})
      ensures rootDefinitionScope.value == Defined(EMPTY_TREE, Wrapped(useWorld, defs))
    {
      Perform(PreDefinitions(useWorld), rootDefinitionScope);
      Perform(defs, rootDefinitionScope);
      Perform(PostDefinitions(), rootDefinitionScope);
      DefinedInSteps(EMPTY_TREE, PreDefinitions(useWorld) + defs, PostDefinitions());
      DefinedInSteps(EMPTY_TREE, PreDefinitions(useWorld), defs);
    }

    /** Adds the specs of the test cases of a scope, under the commands in force. */
    method AddSpecs(its: seq<It>, before: seq<Command>, after: seq<Command>)
      requires Registers(idToSpecMap, specs)
      requires DistinctIds(specs + SpecsOfIts(its, before, Reversed(after)))
      modifies `idToSpecMap, `specs
      ensures specs == old(specs) + SpecsOfIts(its, before, Reversed(after))
      ensures Registers(idToSpecMap, specs)
    {
      hide Registers, DistinctIds, SpecsOfIts, Reversed;
      SpecsOfNoIts(before, Reversed(after));
      for i := 0 to |its|
        invariant specs == old(specs) + SpecsOfIts(its[..i], before, Reversed(after))
        invariant Registers(idToSpecMap, specs)
      {
        NextSpecIsNew(old(specs), its, i, before, Reversed(after), idToSpecMap);
        var commands := AppendReversed(before + [its[i].command], after);
        var spec := Spec(its[i].id, commands);
        RegistersOneMore(idToSpecMap, specs, spec);
        idToSpecMap := idToSpecMap[spec.id := spec];
        specs := specs + [spec];
      }
      assert its[..|its|] == its;
    }

    /** Takes its test cases and children out of the scope on top, which is visited, and stacks the children. */
    static method EmptyTop(stack: seq<Scope>, ghost below: seq<Frame>, ghost t: Tree, ghost all: set<Scope>)
      returns (stack': seq<Scope>)
      requires StackMatches(stack, below + [Frame(t, false)], all)
      modifies stack[|stack| - 1]
      ensures StackMatches(stack', below + [Frame(t, true)] + Unvisited(t.children), all)
    {
      var scope := stack[|stack| - 1];
      Unstacked(stack, below, Frame(t, false), all);
      UnvisitedIsWhole(scope, t);
      ghost var low, children, inside := stack[..|below|], scope.children, scope.Repr;
      stack' := stack;
      scope.its := [];
      if |scope.children| > 0 {
        stack' := stack' + scope.children;
        scope.children := [];
      }
      scope.Repr := {scope};
      Stacked(low, below, all - inside, [scope], [Frame(t, true)], {scope});
      Stacked(low + [scope], below + [Frame(t, true)], all - inside
              + {scope}, children, Unvisited(t.children), inside - {scope});
      assert stack' == low + [scope] + children && all - inside + {scope} + (inside - {scope}) == all;
    }

    /** Pops the finished scopes off the stack, and their commands with them. */
    static method PopFinished(stack: seq<Scope>, before: seq<Command>, after: seq<Command>,
                              ghost frames: seq<Frame>, ghost all: set<Scope>)
      returns (stack': seq<Scope>, before': seq<Command>, after': seq<Command>, ghost frames': seq<Frame>)
      requires StackMatches(stack, frames, all) && NoneEmpty(frames)
      requires before == BeforeOf(frames) && after == Reversed(AfterOf(frames))
      ensures StackMatches(stack', frames', all) && NoneEmpty(frames')
      ensures before' == BeforeOf(frames') && after' == Reversed(AfterOf(frames'))
      ensures Pending(frames') == Pending(frames) && Unfinished(frames') == Unfinished(frames)
      ensures frames' != [] ==> !frames'[|frames'| - 1].visited
    {
      hide StackMatches, NoneEmpty, BeforeOf, AfterOf, Reversed, Pending, Unfinished;
      stack', before', after', frames' := stack, before, after, frames;
      while |stack'| > 0 && |stack'[|stack'| - 1].children| == 0 && |stack'[|stack'| - 1].its| == 0
        invariant StackMatches(stack', frames', all) && NoneEmpty(frames')
        invariant before' == BeforeOf(frames') && after' == Reversed(AfterOf(frames'))
        invariant Pending(frames') == Pending(frames) && Unfinished(frames') == Unfinished(frames)
        decreases |stack'|
      {
        var popped := stack'[|stack'| - 1];
        PoppedOne(stack', frames', all);
        stack', frames' := stack'[..|stack'| - 1], frames'[..|frames'| - 1];
        if |popped.beforeEach| > 0 {
          before' := before'[..|before'| - |popped.beforeEach|];
        }
        if |popped.afterEach| > 0 {
          after' := after'[..|after'| - |popped.afterEach|];
        }
      }
      FilledIsUnvisited(stack', frames', all);
    }

    /** Puts the commands of a scope in force and adds the specs of its test cases. */
    method EmitTop(scope: Scope, before: seq<Command>, after: seq<Command>, ghost below: seq<Frame>, ghost t: Tree)
      returns (before': seq<Command>, after': seq<Command>)
      requires scope.beforeEach == t.before && scope.afterEach == t.after && scope.its == t.its
      requires before == BeforeOf(below) && after == Reversed(AfterOf(below))
      requires Registers(idToSpecMap, specs) && DistinctIds(specs + Pending(below + [Frame(t, false)]))
      modifies `idToSpecMap, `specs
      ensures before' == BeforeOf(below + [Frame(t, true)] + Unvisited(t.children))
      ensures after' == Reversed(AfterOf(below + [Frame(t, true)] + Unvisited(t.children)))
      ensures Registers(idToSpecMap, specs)
      ensures specs + Pending(below + [Frame(t, true)] + Unvisited(t.children))
              == old(specs) + Pending(below + [Frame(t, false)])
    {
      ghost var pending := Pending(below + [Frame(t, true)] + Unvisited(t.children));
      before' := before + scope.beforeEach;
      after' := AppendReversed(after, scope.afterEach);
      Visiting(below, t);
      UnvisitedCommands(below + [Frame(t, true)], t.children);
      ReversedSplit(t.after, AfterOf(below));
      ReversedTwice(t.after + AfterOf(below));
      DistinctInPart(specs, SpecsOfIts(t.its, before', Reversed(after')), pending);
      AddSpecs(scope.its, before', after');
      InTwoSteps(old(specs), SpecsOfIts(t.its, before', Reversed(after')), pending);
    }

    /** One round of the loop: the scope on top is visited. */
    method VisitTop(stack: seq<Scope>, before: seq<Command>, after: seq<Command>,
                    ghost below: seq<Frame>, ghost t: Tree, ghost all: set<Scope>)
      returns (stack': seq<Scope>, before': seq<Command>, after': seq<Command>, ghost frames': seq<Frame>)
      requires StackMatches(stack, below + [Frame(t, false)], all) && NoneEmpty(below)
      requires before == BeforeOf(below) && after == Reversed(AfterOf(below))
      requires Registers(idToSpecMap, specs) && DistinctIds(specs + Pending(below + [Frame(t, false)]))
      modifies `idToSpecMap, `specs, all
      ensures StackMatches(stack', frames', all) && NoneEmpty(frames')
      ensures before' == BeforeOf(frames') && after' == Reversed(AfterOf(frames'))
      ensures frames' != [] ==> !frames'[|frames'| - 1].visited
      ensures Registers(idToSpecMap, specs)
              && specs + Pending(frames') == old(specs) + Pending(below + [Frame(t, false)])
      ensures Unfinished(frames') < Unfinished(below + [Frame(t, false)])
    {
      hide Pending, Unfinished, BeforeOf, AfterOf, Reversed, Registers, DistinctIds;
      var scope := stack[|stack| - 1];
      Unstacked(stack, below, Frame(t, false), all);
      UnvisitedIsWhole(scope, t);
      VisitedStack(below, t);
      var parent := scope.children != [];
      before', after' := EmitTop(scope, before, after, below, t);
      stack' := EmptyTop(stack, below, t, all);
      frames' := below + [Frame(t, true)] + Unvisited(t.children);
      if !parent {
        stack', before', after', frames' := PopFinished(stack', before', after', frames', all);
      }
    }

    /** Every definition is baked into its spec, with an explicit stack. */
    method BakeDefinitions()
      requires rootDefinitionScope != null && rootDefinitionScope.Valid() && NoEmptyInside(rootDefinitionScope.value)
      requires idToSpecMap == map[] && specs == [] && DistinctIds(SpecsOf(rootDefinitionScope.value, [], []))
      modifies this, rootDefinitionScope.Repr
      ensures specs == old(SpecsOf(rootDefinitionScope.value, [], [])) && Registers(idToSpecMap, specs)
      ensures rootDefinitionScope == null && definitionScopeStack == [] && hasBeenDefined
    {
      hide BeforeOf, AfterOf, Reversed, Pending, Unfinished, SpecsOf, StackMatches, NoneEmpty, NoEmptyInside, Registers,
           DistinctIds;
      ghost var root, all := rootDefinitionScope.value, rootDefinitionScope.Repr;
      var stack: seq<Scope> := [rootDefinitionScope];
      var before, after := [], [];
      ghost var frames := [Frame(root, false)];
      FirstFrame(root);
      RootStacked(rootDefinitionScope);
      NothingRegistered();
      while |stack| > 0
        invariant StackMatches(stack, frames, all) && |stack| == |frames| && AwaitsVisit(frames)
        invariant before == BeforeOf(frames) && after == Reversed(AfterOf(frames))
        invariant Registers(idToSpecMap, specs) && specs + Pending(frames) == SpecsOf(root, [], [])
        decreases Unfinished(frames)
      {
        ghost var below, t := frames[..|frames| - 1], frames[|frames| - 1].tree;
        TopFrame(frames);
        stack, before, after, frames := VisitTop(stack, before, after, below, t, all);
        AwaitsNext(stack, frames, all);
      }
      NothingPending();
      rootDefinitionScope, definitionScopeStack, hasBeenDefined := null, [], true;
    }

    /** EnsureDefinitions: define, then bake, on first use. */
    method EnsureDefinitions(defs: seq<Definition>)
      requires hasBeenDefined
               || (Undefined() && DistinctIds(SpecsOf(Defined(EMPTY_TREE, Wrapped(useWorld, defs)), [], [])))
      modifies this, rootDefinitionScope
      ensures hasBeenDefined
      ensures old(hasBeenDefined) ==> specs == old(specs) && idToSpecMap == old(idToSpecMap)
      ensures !old(hasBeenDefined) ==> specs == SpecsOf(Defined(EMPTY_TREE, Wrapped(useWorld, defs)), [], [])
      ensures !old(hasBeenDefined) ==>
                && |specs| == ItsIn(Wrapped(useWorld, defs))
                && (forall spec :: spec in specs <==> IsAskedFor(Wrapped(useWorld, defs), spec, [], []))
      ensures !old(hasBeenDefined) ==> Registers(idToSpecMap, specs)
    {
      hide IsAskedFor, ItsIn, SpecsOf;
      if !hasBeenDefined {
        RunDefine(defs);
        DefinedHasNoEmptyInside(EMPTY_TREE, Wrapped(useWorld, defs));
        SpecsAreThoseAskedFor(Wrapped(useWorld, defs));
        BakeDefinitions();
      }
    }
  }
}
