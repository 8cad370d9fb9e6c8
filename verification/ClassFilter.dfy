/** A filter over classes: two sets of class paths, and the set of loaded classes baked from them. */
module ClassFilter {
  import opened Engine

  datatype Mark = Allowed | Denied | Unmarked

  /** The two sets of paths a filter is edited through. */
  datatype Marks = Marks(allowed: set<string>, ignored: set<string>)

  /** What a filter says about one path; being allowed wins over being ignored. */
  function OwnMark(m: Marks, path: string): Mark
  {
    if path in m.allowed then Allowed else if path in m.ignored then Denied else Unmarked
  }

  /** The rule a baked filter has to agree with: the closest marked class, going up from `c`, decides. */
  function NearestMark(m: Marks, c: Class): Mark
  {
    if OwnMark(m, c.path) != Unmarked then OwnMark(m, c.path)
    else if c.super.Some? then NearestMark(m, c.super.value)
    else Unmarked
  }

  predicate Allows(m: Marks, c: Class)
  {
    NearestMark(m, c) == Allowed
  }

  /** `m` after `other` has been merged into it. */
  function Merged(m: Marks, other: Marks): Marks
  {
    Marks(m.allowed - other.ignored + other.allowed, m.ignored - other.allowed + other.ignored)
  }

  /** An allowed class is one, or derives from one, whose own path is allowed. */
  lemma {:induction false} AllowedComesFromAnAncestor(m: Marks, c: Class)
    requires Allows(m, c)
    ensures exists a :: IsA(c, a) && a.path in m.allowed
  {
    if OwnMark(m, c.path) == Unmarked {
      AllowedComesFromAnAncestor(m, c.super.value);
      var a :| IsA(c.super.value, a) && a.path in m.allowed;
      assert IsA(c, a);
    } else {
      assert IsA(c, c);
    }
  }

  /** Merging overrides the other filter's marks one class at a time, whatever either filter holds. */
  lemma MergeOverridesPerClass(m: Marks, other: Marks, path: string)
    ensures OwnMark(Merged(m, other), path)
            == if OwnMark(other, path) != Unmarked then OwnMark(other, path) else OwnMark(m, path)
  {
  }

  lemma MergeKeepsDisjointness(m: Marks, other: Marks)
    requires m.allowed !! m.ignored && other.allowed !! other.ignored
    ensures Merged(m, other).allowed !! Merged(m, other).ignored
  {
  }

  /** `a` is the closest marked class going up from `c`: it is marked, and nothing from `c` up to below it is. */
  ghost predicate IsClosestMarked(m: Marks, c: Class, a: Class)
  {
    && IsA(c, a)
    && OwnMark(m, a.path) != Unmarked
    && forall b :: IsA(c, b) && IsA(b, a) && b != a ==> OwnMark(m, b.path) == Unmarked
  }

  /** The rule, in both directions and without recursion: the closest marked self-or-ancestor is an allowed one. */
  lemma {:induction false} AllowsIffClosestMarkedIsAllowed(m: Marks, c: Class)
    ensures Allows(m, c) <==> exists a :: IsClosestMarked(m, c, a) && a.path in m.allowed
  {
    if OwnMark(m, c.path) != Unmarked {
      forall a | IsClosestMarked(m, c, a) ensures a == c {
        assert IsA(c, c);
      }
      forall b | IsA(c, b) && IsA(b, c) ensures b == c {
        SuperclassesAreShallower(b, c);
        SuperclassesAreShallower(c, b);
      }
      assert IsClosestMarked(m, c, c);
    } else if c.super.Some? {
      var p := c.super.value;
      AllowsIffClosestMarkedIsAllowed(m, p);
      forall a | IsClosestMarked(m, c, a) ensures IsClosestMarked(m, p, a) {
        assert c != a;
      }
      forall a | IsClosestMarked(m, p, a) ensures IsClosestMarked(m, c, a) {
      }
    }
  }

  /** After a merge the closest class marked by either filter decides, and there the other filter is asked first. */
  lemma MergeDecidesByTheClosestMarkOfEither(m: Marks, other: Marks, c: Class)
    ensures Allows(Merged(m, other), c)
            <==> exists a ::
              && IsClosestMarked(Merged(m, other), c, a)
              && (a.path in other.allowed || (a.path in m.allowed && a.path !in other.ignored))
    ensures forall a :: OwnMark(Merged(m, other), a) == Unmarked
                        <==> OwnMark(m, a) == Unmarked && OwnMark(other, a) == Unmarked
  {
    AllowsIffClosestMarkedIsAllowed(Merged(m, other), c);
  }

  /** Appends to `results` every loaded class that properly derives from `base`, in some order. */
  method GetDerivedClasses(loaded: set<Class>, base: Class, results: seq<Class>) returns (out: seq<Class>)
    ensures forall c :: c in out <==> c in results || (c in loaded && c != base && IsA(c, base))
  {
    out := results;
    var rest := loaded;
    while rest != {}
      invariant rest <= loaded
      invariant forall c :: c in out <==> c in results || (c in loaded - rest && c != base && IsA(c, base))
      decreases rest
    {
      var c :| c in rest;
      if c != base && IsA(c, base) {
        out := out + [c];
      }
      rest := rest - {c};
    }
  }

  /** The loaded class a soft reference points at, if any. */
  method Resolve(loaded: set<Class>, path: string) returns (r: Option<Class>)
    ensures r.Some? ==> r.value in loaded && r.value.path == path
    ensures r.None? ==> forall c :: c in loaded ==> c.path != path
  {
    if c :| c in loaded && c.path == path {
      r := Some(c);
    } else {
      r := None;
    }
  }

  /** Walking up from `c` through unmarked classes does not change the decision. */
  ghost predicate UndecidedBelow(m: Marks, c: Class, p: Class)
  {
    IsA(c, p) && NearestMark(m, c) == NearestMark(m, p)
  }

  lemma {:induction false} WalkUp(m: Marks, c: Class, p: Class)
    requires UndecidedBelow(m, c, p) && OwnMark(m, p.path) == Unmarked && p.super.Some?
    ensures UndecidedBelow(m, c, p.super.value)
  {
    IsATransitive(c, p, p.super.value);
  }

  class ClassFilter {
    var allowedClasses: set<string>
    var ignoredClasses: set<string>
    var bakedAllowedClasses: set<Class>

    ghost function View(): Marks
      reads this
    {
      Marks(allowedClasses, ignoredClasses)
    }

    constructor ()
      ensures View() == Marks({}, {}) && bakedAllowedClasses == {}
    {
      allowedClasses, ignoredClasses, bakedAllowedClasses := {}, {}, {};
    }

    /** Takes over the marks of another filter, which prevail over its own. */
    method Merge(other: ClassFilter)
      modifies this`allowedClasses, this`ignoredClasses
      ensures other != this ==> View() == Merged(old(View()), other.View())
      ensures other == this && old(allowedClasses !! ignoredClasses) ==> View() == old(View())
    {
      var ignored := other.ignoredClasses;
      while ignored != {}
        invariant ignored <= other.ignoredClasses
        invariant allowedClasses == old(allowedClasses) - (other.ignoredClasses - ignored)
        invariant unchanged(this`ignoredClasses)
        decreases ignored
      {
        var c :| c in ignored;
        allowedClasses := allowedClasses - {c};
        ignored := ignored - {c};
      }
      ghost var before := other.allowedClasses;
      var allowed := other.allowedClasses;
      while allowed != {}
        invariant allowed <= before
        invariant ignoredClasses == old(ignoredClasses) - (before - allowed)
        invariant allowedClasses == old(allowedClasses) - old(other.ignoredClasses)
        invariant other != this ==> unchanged(other)
        decreases allowed
      {
        var c :| c in allowed;
        ignoredClasses := ignoredClasses - {c};
        allowed := allowed - {c};
      }
      allowedClasses := allowedClasses + other.allowedClasses;
      ignoredClasses := ignoredClasses + other.ignoredClasses;
    }

    /** Bakes the set of loaded classes this filter allows. */
    method BakeAllowedClasses(loaded: set<Class>)
      requires IsRegistry(loaded)
      modifies this`bakedAllowedClasses
      ensures forall c :: c in bakedAllowedClasses <==> c in loaded && Allows(View(), c)
    {
      bakedAllowedClasses := {};
      if allowedClasses == {} {
        forall c | c in loaded ensures !Allows(View(), c) {
          if Allows(View(), c) {
            AllowedComesFromAnAncestor(View(), c);
          }
        }
        return;
      }
      var children := FirstPass(loaded);
      SecondPass(loaded, children);
      forall c | c in loaded && Allows(View(), c) ensures c in bakedAllowedClasses {
        AllowedComesFromAnAncestor(View(), c);
        var a :| IsA(c, a) && a.path in allowedClasses;
        AncestorsAreLoaded(loaded, c, a);
      }
    }

    /** Bakes the resolved allowed classes and collects everything derived from them. */
    method FirstPass(loaded: set<Class>) returns (children: seq<Class>)
      requires IsRegistry(loaded)
      requires bakedAllowedClasses == {}
      modifies this`bakedAllowedClasses
      ensures forall c :: c in bakedAllowedClasses <==> c in loaded && c.path in allowedClasses
      ensures forall c :: c in children
                <==> c in loaded && exists a :: a in bakedAllowedClasses && c != a && IsA(c, a)
    {
      children := [];
      var rest := allowedClasses;
      while rest != {}
        invariant rest <= allowedClasses
        invariant forall c :: c in bakedAllowedClasses <==> c in loaded && c.path in allowedClasses - rest
        invariant forall c :: c in children
                    <==> c in loaded && exists a :: a in bakedAllowedClasses && c != a && IsA(c, a)
        decreases rest
      {
        var path :| path in rest;
        rest := rest - {path};
        var resolved := Resolve(loaded, path);
        if resolved.None? {
          continue;
        }
        bakedAllowedClasses := bakedAllowedClasses + {resolved.value};
        children := GetDerivedClasses(loaded, resolved.value, children);
      }
    }

    /** Decides the collected classes one by one, using decisions already baked as shortcuts. */
    method SecondPass(loaded: set<Class>, children: seq<Class>)
      requires IsRegistry(loaded)
      requires forall c :: c in bakedAllowedClasses <==> c in loaded && c.path in allowedClasses
      requires forall c :: c in children ==> c in loaded
      modifies this`bakedAllowedClasses
      ensures old(bakedAllowedClasses) <= bakedAllowedClasses
      ensures forall c :: c in bakedAllowedClasses ==> c in loaded && Allows(View(), c)
      ensures forall c :: c in children && Allows(View(), c) ==> c in bakedAllowedClasses
    {
      for i := 0 to |children|
        invariant old(bakedAllowedClasses) <= bakedAllowedClasses
        invariant forall c :: c in bakedAllowedClasses ==> c in loaded && Allows(View(), c)
        invariant forall c :: c in children[..i] && Allows(View(), c) ==> c in bakedAllowedClasses
      {
        DecideClass(loaded, children[i]);
      }
    }

    method DecideClass(loaded: set<Class>, c: Class)
      requires IsRegistry(loaded) && c in loaded
      requires forall d :: d in loaded && d.path in allowedClasses ==> d in bakedAllowedClasses
      requires forall d :: d in bakedAllowedClasses ==> Allows(View(), d)
      modifies this`bakedAllowedClasses
      ensures bakedAllowedClasses == old(bakedAllowedClasses) + if Allows(View(), c) then {c} else {}
    {
      var parent := Some(c);
      while parent.Some?
        invariant unchanged(this)
        invariant parent.Some? ==> parent.value in loaded && UndecidedBelow(View(), c, parent.value)
        invariant parent.None? ==> !Allows(View(), c)
        decreases parent
      {
        if parent.value in bakedAllowedClasses {
          bakedAllowedClasses := bakedAllowedClasses + {c};
          return;
        } else if parent.value.path in ignoredClasses {
          break;
        }
        if parent.value.super.Some? {
          WalkUp(View(), c, parent.value);
        }
        parent := parent.value.super;
      }
      assert c !in bakedAllowedClasses;
    }
  }
}
