/** The few engine notions every other module needs: names and the class hierarchy. */
module Engine {

  datatype Option<+T> = None | Some(value: T)

  /** The first element of a sequence for which a test holds. */
  function FindFirst<T>(s: seq<T>, holds: T -> bool): (r: Option<nat>)
    ensures r.Some? ==> r.value < |s| && holds(s[r.value]) && forall j :: 0 <= j < r.value ==> !holds(s[j])
    ensures r.None? ==> forall j :: 0 <= j < |s| ==> !holds(s[j])
  {
    if s == [] then None
    else if holds(s[0]) then Some(0)
    else match FindFirst(s[1..], holds)
         case None =>
           assert forall j :: 1 <= j < |s| ==> s[j] == s[1..][j - 1];
           None
         case Some(i) =>
           assert forall j :: 1 <= j <= i ==> s[j] == s[1..][j - 1];
           Some(i + 1)
  }

  ghost predicate Distinct<T>(s: seq<T>) {
    forall i, j :: 0 <= i < j < |s| ==> s[i] != s[j]
  }

  /** An object name. The engine's "no name" is a name like any other, spelled NAME_NONE. */
  type Name = string

  const NAME_NONE: Name := "None"

  /** A loaded class: its path and its superclass. Being inductive, a chain of superclasses always ends. */
  datatype Class = Class(path: string, super: Option<Class>)

  /** `c` is `a` or one of the classes derived from it. */
  predicate IsA(c: Class, a: Class)
  {
    c == a || (c.super.Some? && IsA(c.super.value, a))
  }

  /** `c` or one of its superclasses has the given path. */
  predicate IsChildOf(c: Class, path: string)
  {
    c.path == path || (c.super.Some? && IsChildOf(c.super.value, path))
  }

  /** A class is, or derives from, one with the given path. */
  ghost predicate Derives(c: Class, path: string) {
    exists a :: IsA(c, a) && a.path == path
  }

  lemma {:induction false} IsChildOfMeans(c: Class, path: string)
    ensures IsChildOf(c, path) <==> Derives(c, path)
  {
    if c.path == path {
      assert IsA(c, c);
    } else if c.super.Some? {
      IsChildOfMeans(c.super.value, path);
      forall a | IsA(c.super.value, a) && a.path == path
        ensures IsA(c, a)
      {
      }
    }
  }

  /** The loaded classes: closed under superclass, and a path names at most one of them. */
  ghost predicate IsRegistry(loaded: set<Class>)
  {
    && (forall c :: c in loaded && c.super.Some? ==> c.super.value in loaded)
    && (forall c, d :: c in loaded && d in loaded && c.path == d.path ==> c == d)
  }

  lemma {:induction false} AncestorsAreLoaded(loaded: set<Class>, c: Class, a: Class)
    requires IsRegistry(loaded) && c in loaded && IsA(c, a)
    ensures a in loaded
  {
    if c != a {
      AncestorsAreLoaded(loaded, c.super.value, a);
    }
  }

  function Depth(c: Class): nat
  {
    if c.super.Some? then 1 + Depth(c.super.value) else 0
  }

  lemma {:induction false} SuperclassesAreShallower(c: Class, a: Class)
    requires IsA(c, a)
    ensures c == a || Depth(a) < Depth(c)
  {
    if c != a {
      SuperclassesAreShallower(c.super.value, a);
    }
  }

  lemma {:induction false} IsATransitive(c: Class, p: Class, q: Class)
    requires IsA(c, p) && p.super == Some(q)
    ensures IsA(c, q)
  {
    if c != p {
      IsATransitive(c.super.value, p, q);
    } else {
      assert IsA(q, q);
    }
  }
}
