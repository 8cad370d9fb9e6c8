/** Restoring live actors and their components from records. */
module Restoring {
  import opened Engine
  import opened Actors
  import ClassFilter
  import opened Saver

  /** A component after loading. Its own tags, as they are before the load, decide what is taken from the record. */
  function RestoredComponent(c: Component, r: ComponentRecord): Component {
    c.(transform := if StoresComponentTransform(c) && c.movable then r.transform else c.transform,
       tags := if StoresComponentTags(c) then r.base.tags else c.tags,
       blob := if IsChildOf(c.cls, PRIMITIVE_COMPONENT) then c.blob else r.base.data)
  }

  /** A component after loading from an actor's records: untouched if filtered out or without a record. */
  function RestoredIn(c: Component, records: seq<ComponentRecord>, f: LevelFilter): Component {
    if !f.ShouldSaveComponent(c) then c
    else match FindComponentRecord(records, c.name, c.cls)
         case None => c
         case Some(j) => RestoredComponent(c, records[j])
  }

  function RestoredComponents(cs: seq<Component>, records: seq<ComponentRecord>, f: LevelFilter): (r: seq<Component>)
    ensures |r| == |cs| && forall i :: 0 <= i < |cs| ==> r[i] == RestoredIn(cs[i], records, f)
  {
    seq(|cs|, i requires 0 <= i < |cs| => RestoredIn(cs[i], records, f))
  }

  /** An actor after loading. Its tags come first, and then decide about transform and physics. */
  function Restored(a: Actor, r: ActorRecord, f: LevelFilter): Actor {
    var tagged := a.(tags := r.base.tags);
    var physics := StoresTransform(tagged) && StoresPhysics(tagged);
    tagged.(
      transform := if StoresTransform(tagged) then r.transform else a.transform,
      linear := if physics then r.linear else a.linear,
      angular := if physics && a.root.MovablePrimitiveRoot? then r.angular else a.angular,
      hidden := r.hidden,
      components := if f.storeComponents then RestoredComponents(a.components, r.components, f) else a.components,
      blob := r.base.data)
  }

  /** One entry of a level's actor array after loading. */
  function RestoredEntry(entry: Option<Actor>, records: seq<ActorRecord>, f: LevelFilter): Option<Actor> {
    if entry.None? || !f.ShouldSave(entry.value) then entry
    else match FindRecord(records, entry.value.name, entry.value.cls)
         case None => entry
         case Some(j) => if records[j].base.IsValid() then Some(Restored(entry.value, records[j], f)) else entry
  }

  /** A level's actor array after loading: every entry on its own. */
  function RestoredLevel(actors: ActorArray, records: seq<ActorRecord>, f: LevelFilter): (r: ActorArray)
    ensures |r| == |actors| && forall i :: 0 <= i < |actors| ==> r[i] == RestoredEntry(actors[i], records, f)
  {
    seq(|actors|, i requires 0 <= i < |actors| => RestoredEntry(actors[i], records, f))
  }

  method DeserializeActorComponents(components: seq<Component>, records: seq<ComponentRecord>, f: LevelFilter)
    returns (out: seq<Component>)
    ensures out == RestoredComponents(components, records, f)
  {
    out := components;
    for i := 0 to |components|
      invariant |out| == |components|
      invariant forall k :: 0 <= k < i ==> out[k] == RestoredIn(components[k], records, f)
      invariant forall k :: i <= k < |components| ==> out[k] == components[k]
    {
      var c := components[i];
      if !f.ShouldSaveComponent(c) {
        continue;
      }
      var found := FindComponentRecord(records, c.name, c.cls);
      if found.None? {
        continue;
      }
      var record := records[found.value];
      if StoresComponentTransform(c) {
        if c.movable {
          c := c.(transform := record.transform);
        }
      }
      if StoresComponentTags(c) {
        c := c.(tags := record.base.tags);
      }
      if !IsChildOf(c.cls, PRIMITIVE_COMPONENT) {
        c := c.(blob := record.base.data);
      }
      out := out[i := c];
    }
    assert out == RestoredComponents(components, records, f);
  }

  method DeserializeActor(actor: Actor, record: ActorRecord, f: LevelFilter) returns (a: Actor)
    ensures a == Restored(actor, record, f)
  {
    a := actor.(tags := record.base.tags);
    if StoresTransform(a) {
      a := a.(transform := record.transform);
      if StoresPhysics(a) {
        a := a.(linear := record.linear);
        if a.root.MovablePrimitiveRoot? {
          a := a.(angular := record.angular);
        }
      }
    }
    a := a.(hidden := record.hidden);
    if f.storeComponents {
      var components := DeserializeActorComponents(a.components, record.components, f);
      a := a.(components := components);
    }
    a := a.(blob := record.base.data);
  }

  /** Deserializes an actor from its record, if it has a valid one. */
  method DeserializeLevelActor(actor: Actor, records: seq<ActorRecord>, f: LevelFilter) returns (a: Actor)
    requires f.ShouldSave(actor)
    ensures Some(a) == RestoredEntry(Some(actor), records, f)
  {
    a := actor;
    var found := FindRecord(records, actor.name, actor.cls);
    if found.Some? {
      var record := records[found.value];
      if record.base.IsValid() && record.base.cls == Some(actor.cls) {
        a := DeserializeActor(actor, record, f);
      }
    }
  }

  // What a record taken from one actor gives back to another

  /** `live` carries everything that was saved of `saved`; what the tags of `saved` gate out is left open. */
  ghost predicate Carries(live: Actor, saved: Actor) {
    && live.cls == saved.cls
    && live.tags == KeptTags(saved.tags)
    && live.hidden == saved.hidden
    && live.blob == saved.blob
    && (StoresTransform(saved) ==> live.transform == saved.transform)
    && (StoresLinear(saved) ==> live.linear == saved.linear)
    && (StoresAngular(saved) ==> live.angular == saved.angular)
  }

  predicate StoresLinear(a: Actor) {
    StoresTransform(a) && StoresPhysics(a)
  }

  /** Only a movable primitive root turns on its own. */
  predicate StoresAngular(a: Actor) {
    StoresLinear(a) && a.root.MovablePrimitiveRoot?
  }

  /** Nothing the tags of the saved actor gate out is taken from its record. */
  ghost predicate LeavesGatedAlone(before: Actor, after: Actor, saved: Actor) {
    && after.name == before.name && after.cls == before.cls && after.root == before.root
    && (!StoresTransform(saved) ==> after.transform == before.transform)
    && (!StoresLinear(saved) ==> after.linear == before.linear)
    && (!StoresAngular(saved) ==> after.angular == before.angular)
  }

  /** On a root of the given kind, the tags of the saved actor let through just what was stored. */
  predicate GatesAgree(saved: Actor, root: RootKind) {
    var there := saved.(root := root);
    StoresTransform(there) == StoresTransform(saved) && StoresAngular(there) == StoresAngular(saved)
  }

  /** What loading makes of `before`, if it is let in: the value `was`, if it was stored, and else the value of a record
      in which nothing is. */
  function LetIn<T>(before: T, was: T, default: T, isLetIn: bool, wasStored: bool): T {
    if !isLetIn then before else if wasStored then was else default
  }

  /** A loaded actor moves as the tags of the saved one prescribe for its own root, which need not be a root of the kind
      that was saved. */
  ghost predicate MovesOnItsRoot(before: Actor, after: Actor, saved: Actor) {
    var there := saved.(root := before.root);
    && after.transform
       == LetIn(before.transform, saved.transform, IDENTITY, StoresTransform(there), StoresTransform(saved))
    && after.linear == LetIn(before.linear, saved.linear, ZERO_VECTOR, StoresLinear(there), StoresLinear(saved))
    && after.angular == LetIn(before.angular, saved.angular, ZERO_VECTOR, StoresAngular(there), StoresAngular(saved))
  }

  predicate StoresPlace(c: Component) {
    StoresComponentTransform(c) && c.movable
  }

  /** Where the record of a component puts it: a place that was not stored is reset. */
  function SavedPlace(saved: Component): Transform {
    if StoresPlace(saved) then saved.transform else IDENTITY
  }

  /** What loading makes of a component whose saved twin is `saved`. It moves if its own tags let it, even to a place
      that was not stored; otherwise those it is given may let it, if it is loaded again. */
  ghost predicate ComponentCarries(before: Component, after: Component, saved: Component) {
    && after.name == before.name && after.cls == before.cls && after.movable == before.movable
    && (|| after.transform == (if StoresPlace(before) then SavedPlace(saved) else before.transform)
        || (StoresPlace(after) && after.transform == SavedPlace(saved)))
    && after.tags == (if !StoresComponentTags(before) then before.tags
                      else if StoresComponentTags(saved) then saved.tags else [])
    && after.blob == if IsChildOf(saved.cls, PRIMITIVE_COMPONENT) then before.blob else saved.blob
  }

  predicate AreTwins(c: Component, saved: Component) {
    c.name == saved.name && c.cls == saved.cls
  }

  /** Every component that is stored carries what was saved of its twin; the others are left alone. */
  ghost predicate CarriesComponents(before: seq<Component>, after: seq<Component>, saved: seq<Component>,
                                    f: LevelFilter) {
    && |after| == |before|
    && forall i :: 0 <= i < |before| ==>
         && (forall k :: 0 <= k < |saved| && AreTwins(before[i], saved[k])
                         && f.storeComponents && f.ShouldSaveComponent(before[i])
                         ==> ComponentCarries(before[i], after[i], saved[k]))
         && (!f.storeComponents || !f.ShouldSaveComponent(before[i])
             || (forall k :: 0 <= k < |saved| ==> !AreTwins(before[i], saved[k]))
             ==> after[i] == before[i])
  }

  /** A loaded actor is the saved one, as far as tags, roots and filters let it through, and is otherwise as it was. */
  ghost predicate IsLoadedFrom(before: Actor, after: Actor, saved: Actor, f: LevelFilter) {
    && after.name == before.name && after.cls == before.cls && after.root == before.root
    && after.tags == KeptTags(saved.tags) && after.hidden == saved.hidden && after.blob == saved.blob
    && MovesOnItsRoot(before, after, saved)
    && (DistinctComponents(saved.components)
        ==> CarriesComponents(before.components, after.components, saved.components, f))
  }

  /** Components of an actor have names of their own. */
  ghost predicate DistinctComponents(cs: seq<Component>) {
    forall i, j :: 0 <= i < j < |cs| ==> cs[i].name != cs[j].name
  }

  lemma {:induction false} SavedComponentIsFound(cs: seq<Component>, f: LevelFilter, k: nat)
    requires DistinctComponents(cs) && k < |cs| && f.ShouldSaveComponent(cs[k])
    ensures var found := FindComponentRecord(ComponentRecordsOf(cs, f), cs[k].name, cs[k].cls);
            found.Some? && ComponentRecordsOf(cs, f)[found.value] == ComponentRecordOf(cs[k])
  {
    hide FindFirst, FindComponentRecord;
    var records := ComponentRecordsOf(cs, f);
    if k == 0 {
      assert records[0] == ComponentRecordOf(cs[0]);
    } else {
      var rest := ComponentRecordsOf(cs[1..], f);
      SavedComponentIsFound(cs[1..], f, k - 1);
      if f.ShouldSaveComponent(cs[0]) {
        assert records == [ComponentRecordOf(cs[0])] + rest;
        assert records[1..] == rest;
        assert cs[0].name != cs[k].name;
      } else {
        assert records == rest;
      }
    }
  }

  /**
   * The component `live` of an actor loaded from the record of an actor with component `saved`: the transform
   * comes back exactly when the tags of both gate it in, and is lost when only those of the live one do; the tags
   * come back unless the live ones keep theirs.
   */
  lemma ComponentRoundTrip(saved: seq<Component>, k: nat, live: Component, f: LevelFilter)
    requires DistinctComponents(saved) && k < |saved| && f.ShouldSaveComponent(saved[k])
    requires live.name == saved[k].name && live.cls == saved[k].cls
    ensures var after := RestoredIn(live, ComponentRecordsOf(saved, f), f);
            var was := saved[k];
            && (StoresPlace(live) ==> after.transform == if StoresPlace(was) then was.transform else IDENTITY)
            && (!StoresPlace(live) ==> after.transform == live.transform)
            && (StoresComponentTags(live) ==> after.tags == if StoresComponentTags(was) then was.tags else [])
            && (!StoresComponentTags(live) ==> after.tags == live.tags)
            && after.blob == if IsChildOf(was.cls, PRIMITIVE_COMPONENT) then live.blob else was.blob
  {
    SavedComponentIsFound(saved, f, k);
  }

  lemma {:induction false} OnlySavedComponentsAreFound(cs: seq<Component>, f: LevelFilter, c: Component)
    requires forall k :: 0 <= k < |cs| ==> !AreTwins(c, cs[k])
    ensures FindComponentRecord(ComponentRecordsOf(cs, f), c.name, c.cls).None?
  {
    if cs != [] {
      OnlySavedComponentsAreFound(cs[1..], f, c);
      var rest := ComponentRecordsOf(cs[1..], f);
      if f.ShouldSaveComponent(cs[0]) {
        assert !AreTwins(c, cs[0]);
        assert ([ComponentRecordOf(cs[0])] + rest)[1..] == rest;
      } else {
        assert [] + rest == rest;
      }
    }
  }

  /** Loaded once or twice, a component carries what was saved of its twin. */
  lemma ComponentIsCarried(saved: seq<Component>, k: nat, live: Component, f: LevelFilter)
    requires DistinctComponents(saved) && k < |saved| && f.ShouldSaveComponent(live) && AreTwins(live, saved[k])
    ensures var records := ComponentRecordsOf(saved, f);
            var once := RestoredIn(live, records, f);
            ComponentCarries(live, once, saved[k]) && ComponentCarries(live, RestoredIn(once, records, f), saved[k])
  {
    hide FindComponentRecord, ComponentRecordsOf;
    SavedComponentIsFound(saved, f, k);
  }

  lemma ComponentsAreCarried(saved: seq<Component>, live: seq<Component>, f: LevelFilter)
    requires DistinctComponents(saved) && f.storeComponents
    ensures var records := ComponentRecordsOf(saved, f);
            var once := RestoredComponents(live, records, f);
            && CarriesComponents(live, once, saved, f)
            && CarriesComponents(live, RestoredComponents(once, records, f), saved, f)
  {
    hide ComponentRecordsOf, ComponentCarries, RestoredIn;
    var records := ComponentRecordsOf(saved, f);
    forall i | 0 <= i < |live|
      ensures var once := RestoredIn(live[i], records, f);
              var twice := RestoredIn(once, records, f);
              && (forall k :: 0 <= k < |saved| && AreTwins(live[i], saved[k]) && f.ShouldSaveComponent(live[i])
                              ==> && ComponentCarries(live[i], once, saved[k])
                                  && ComponentCarries(live[i], twice, saved[k]))
              && (!f.ShouldSaveComponent(live[i]) || (forall k :: 0 <= k < |saved| ==> !AreTwins(live[i], saved[k]))
                  ==> once == live[i] == twice)
    {
      OneComponentIsCarried(saved, live[i], f);
    }
  }

  lemma OneComponentIsCarried(saved: seq<Component>, c: Component, f: LevelFilter)
    requires DistinctComponents(saved)
    ensures var records := ComponentRecordsOf(saved, f);
            var once := RestoredIn(c, records, f);
            var twice := RestoredIn(once, records, f);
            && (forall k :: 0 <= k < |saved| && AreTwins(c, saved[k]) && f.ShouldSaveComponent(c)
                            ==> ComponentCarries(c, once, saved[k]) && ComponentCarries(c, twice, saved[k]))
            && (!f.ShouldSaveComponent(c) || (forall k :: 0 <= k < |saved| ==> !AreTwins(c, saved[k]))
                ==> once == c == twice)
  {
    hide ComponentRecordsOf, ComponentCarries, FindComponentRecord;
    forall k | 0 <= k < |saved| && AreTwins(c, saved[k]) && f.ShouldSaveComponent(c)
      ensures var records := ComponentRecordsOf(saved, f);
              var once := RestoredIn(c, records, f);
              ComponentCarries(c, once, saved[k]) && ComponentCarries(c, RestoredIn(once, records, f), saved[k])
    {
      ComponentIsCarried(saved, k, c, f);
    }
    if forall k :: 0 <= k < |saved| ==> !AreTwins(c, saved[k]) {
      OnlySavedComponentsAreFound(saved, f, c);
    }
  }

  /** Restoring from a record of `saved` carries the actor's own fields over, as its tags allow; a second time as
      well. */
  lemma FieldsAreCarried(saved: Actor, before: Actor, live: Actor, name: Name, f: LevelFilter)
    requires live.root == before.root && (live == before || MovesOnItsRoot(before, live, saved))
    ensures var after := Restored(live, Named(RecordOf(saved, f), name), f);
            && after.name == live.name && after.cls == live.cls && after.root == live.root
            && after.tags == KeptTags(saved.tags) && after.hidden == saved.hidden && after.blob == saved.blob
            && MovesOnItsRoot(before, after, saved)
  {
    hide RestoredComponents, ComponentRecordsOf, KeptTags;
    GatesSurviveTheTrip(saved, live.(tags := KeptTags(saved.tags)));
  }

  lemma RestoredPart(live: Actor, r: ActorRecord, f: LevelFilter)
    ensures Restored(live, r, f).components
            == if f.storeComponents then RestoredComponents(live.components, r.components, f) else live.components
  {
  }

  lemma PartsAreCarried(saved: Actor, live: Actor, r: ActorRecord, f: LevelFilter)
    requires r.components == if f.storeComponents then ComponentRecordsOf(saved.components, f) else []
    requires DistinctComponents(saved.components)
    ensures var once := Restored(live, r, f);
            && CarriesComponents(live.components, once.components, saved.components, f)
            && CarriesComponents(live.components, Restored(once, r, f).components, saved.components, f)
  {
    hide Restored, CarriesComponents;
    RestoredPart(live, r, f);
    RestoredPart(Restored(live, r, f), r, f);
    if f.storeComponents {
      ComponentsAreCarried(saved.components, live.components, f);
    } else {
      NotStoredIsCarried(live.components, saved.components, f);
    }
  }

  /** Saving an actor and restoring the record into any actor, on whatever root, once or twice, carries over exactly
      what its tags allow there. */
  lemma ActorRoundTrip(saved: Actor, live: Actor, name: Name, f: LevelFilter)
    ensures var r := Named(RecordOf(saved, f), name);
            var once := Restored(live, r, f);
            IsLoadedFrom(live, once, saved, f) && IsLoadedFrom(live, Restored(once, r, f), saved, f)
  {
    hide Restored, CarriesComponents, MovesOnItsRoot;
    var r := Named(RecordOf(saved, f), name);
    var once := Restored(live, r, f);
    FieldsAreCarried(saved, live, live, name, f);
    FieldsAreCarried(saved, live, once, name, f);
    if DistinctComponents(saved.components) {
      PartsAreCarried(saved, live, r, f);
    }
  }

  // What the tags decide, in so many words

  predicate IsMovable(root: RootKind) {
    root == MovableRoot || root == MovablePrimitiveRoot
  }

  /** Which tags say what is not to be saved, and what becomes of an actor loaded from the record of another: where it
      is and how it moves. */
  lemma TagsDecideMotion(saved: Actor, live: Actor, name: Name, f: LevelFilter)
    ensures var after := Restored(live, Named(RecordOf(saved, f), name), f);
            && ("!SaveTransform" in saved.tags || !IsMovable(live.root) ==>
                  after.transform == live.transform && after.linear == live.linear && after.angular == live.angular)
            && ("!SavePhysics" in saved.tags ==> after.linear == live.linear && after.angular == live.angular)
            && (live.root != MovablePrimitiveRoot ==> after.angular == live.angular)
            && ("!SaveTransform" !in saved.tags && IsMovable(saved.root) && IsMovable(live.root) ==>
                  && after.transform == saved.transform
                  && ("!SavePhysics" !in saved.tags ==> after.linear == saved.linear)
                  && ("!SavePhysics" !in saved.tags && saved.root == live.root == MovablePrimitiveRoot ==>
                        after.angular == saved.angular))
  {
    hide Restored, RecordOf, KeptTags;
    FieldsAreCarried(saved, live, live, name, f);
  }

  /** And which tags it has. */
  lemma TagsDecideTags(saved: Actor, live: Actor, name: Name, f: LevelFilter)
    ensures var after := Restored(live, Named(RecordOf(saved, f), name), f);
            && after.hidden == saved.hidden && after.blob == saved.blob
            && ("!SaveTags" !in saved.tags ==> after.tags == saved.tags)
            && ("!SaveTags" in saved.tags ==>
                  forall t :: t in after.tags <==>
                              t in saved.tags && (t == "!SaveTransform" || t == "!SavePhysics" || t == "!SaveTags"))
  {
    hide Restored, RecordOf, OnlySaveTags;
    FieldsAreCarried(saved, live, live, name, f);
  }

  /** What becomes of a component of an actor loaded from the record of an actor with one of its name and class. */
  lemma TagsDecideComponents(saved: seq<Component>, k: nat, live: Component, f: LevelFilter)
    requires DistinctComponents(saved) && k < |saved| && live.name == saved[k].name && live.cls == saved[k].cls
    ensures var after := RestoredIn(live, ComponentRecordsOf(saved, f), f);
            var was := saved[k];
            if !IsLetThrough(f.componentFilter, live.cls) then after == live
            else
              && (if || !Derives(live.cls, "/Script/Engine.SceneComponent") || "SaveTransform" !in live.tags
                     || !live.movable
                  then after.transform == live.transform
                  else "SaveTransform" in was.tags && was.movable ==> after.transform == was.transform)
              && (if "!SaveTags" in live.tags then after.tags == live.tags
                  else "!SaveTags" !in was.tags ==> after.tags == was.tags)
              && after.blob == if Derives(live.cls, "/Script/Engine.PrimitiveComponent") then live.blob else was.blob
  {
    hide IsLetThrough, Derives, ComponentRecordsOf;
    SavableComponentFollowsTheRule(f, live);
    IsChildOfMeans(live.cls, "/Script/Engine.SceneComponent");
    IsChildOfMeans(live.cls, "/Script/Engine.PrimitiveComponent");
    if f.ShouldSaveComponent(live) {
      ComponentRoundTrip(saved, k, live, f);
    }
  }

  // A root of another kind

  lemma RecordIsNamedAfter(a: Actor, f: LevelFilter)
    ensures RecordOf(a, f).base.name == a.name && RecordOf(a, f).base.cls == Some(a.cls)
            && RecordOf(a, f).base.data == a.blob
  {
  }

  /** What an actor's own record makes of a live actor of its name and class. */
  lemma RestoredFromOwnSave(saved: Actor, live: Actor, f: LevelFilter)
    requires f.ShouldSave(saved) && live.name == saved.name && live.cls == saved.cls
    ensures RestoredEntry(Some(live), SavedActors([Some(saved)], f), f)
            == Some(if saved.name != NAME_NONE && saved.blob != []
                    then Restored(live, Named(RecordOf(saved, f), saved.name), f) else live)
  {
    hide SavedActors, RecordOf, Restored, FindRecord;
    SavedOne(Some(saved), f);
    RecordIsNamedAfter(saved, f);
    var records := SavedActors([Some(saved)], f);
    assert records[0].base.Matches(live.name, live.cls);
    assert FindRecord(records, live.name, live.cls) == Some(0);
    assert Named(RecordOf(saved, f), saved.name) == RecordOf(saved, f);
  }

  lemma CarriedIfGatesAgree(saved: Actor, before: Actor, after: Actor, f: LevelFilter)
    requires IsLoadedFrom(before, after, saved, f) && before.cls == saved.cls && GatesAgree(saved, before.root)
    ensures Carries(after, saved) && LeavesGatedAlone(before, after, saved)
  {
  }

  /** A vector other than the given one, and not zero. */
  function Elsewhere(v: Vector): (r: Vector)
    ensures r != v && r != ZERO_VECTOR
  {
    v.(x := if v.x < 0.0 then 1.0 else v.x + 1.0)
  }

  /** Any actor on a root of the given kind has everything that was stored of the saved one back, and nothing else
      changed, exactly if the tags of the saved one let the same through on that root. */
  lemma CarriedIffGatesAgree(saved: Actor, root: RootKind, name: Name, f: LevelFilter)
    ensures (forall live: Actor :: live.cls == saved.cls && live.root == root ==>
               var after := Restored(live, Named(RecordOf(saved, f), name), f);
               Carries(after, saved) && LeavesGatedAlone(live, after, saved))
            <==> GatesAgree(saved, root)
  {
    hide Restored, RecordOf, Carries, LeavesGatedAlone, CarriesComponents, GatesAgree;
    var r := Named(RecordOf(saved, f), name);
    if GatesAgree(saved, root) {
      forall live: Actor | live.cls == saved.cls && live.root == root
        ensures Carries(Restored(live, r, f), saved) && LeavesGatedAlone(live, Restored(live, r, f), saved)
      {
        ActorRoundTrip(saved, live, name, f);
        CarriedIfGatesAgree(saved, live, Restored(live, r, f), f);
      }
    } else {
      var live := saved.(root := root, angular := Elsewhere(saved.angular),
                         transform := saved.transform.(translation := Elsewhere(saved.transform.translation)));
      FieldsAreCarried(saved, live, live, name, f);
      NotCarriedElsewhere(saved, live, Restored(live, r, f));
    }
  }

  lemma NotCarriedElsewhere(saved: Actor, live: Actor, after: Actor)
    requires MovesOnItsRoot(live, after, saved) && !GatesAgree(saved, live.root)
    requires live.transform != saved.transform && live.transform != IDENTITY
    requires live.angular != saved.angular && live.angular != ZERO_VECTOR
    ensures !(Carries(after, saved) && LeavesGatedAlone(live, after, saved))
  {
  }

  const CRATE := Actor("Crate", Class("/Game/Crate", None), FixedRoot, true, [], false,
                       IDENTITY.(translation := Vector(1.0, 0.0, 0.0)), ZERO_VECTOR, ZERO_VECTOR, [], [ByteWord(1)])
  const PUSHED_CRATE := CRATE.(root := MovablePrimitiveRoot, linear := Vector(1.0, 0.0, 0.0),
                               angular := Vector(0.0, 1.0, 0.0))

  /** A fixed crate was saved, and a movable one that takes its place jumps to the origin. */
  lemma FixedRootIsNotWhereItWas(f: LevelFilter)
    requires f.ShouldSave(CRATE)
    ensures var after := RestoredEntry(Some(CRATE.(root := MovableRoot)), SavedActors([Some(CRATE)], f), f);
            after.Some? && after.value.transform == IDENTITY != CRATE.transform
  {
    hide SavedActors, RecordOf, Restored, FindRecord;
    RestoredFromOwnSave(CRATE, CRATE.(root := MovableRoot), f);
    FieldsAreCarried(CRATE, CRATE.(root := MovableRoot), CRATE.(root := MovableRoot), CRATE.name, f);
  }

  /** A moving crate was saved, and a fixed one that takes its place does not move. */
  lemma MotionNeedsItsRoot(f: LevelFilter)
    requires f.ShouldSave(PUSHED_CRATE)
    ensures var after := RestoredEntry(Some(CRATE), SavedActors([Some(PUSHED_CRATE)], f), f);
            && after.Some? && StoresAngular(PUSHED_CRATE)
            && after.value.linear == ZERO_VECTOR != PUSHED_CRATE.linear
            && after.value.angular == ZERO_VECTOR != PUSHED_CRATE.angular
  {
    hide SavedActors, RecordOf, Restored, FindRecord;
    RestoredFromOwnSave(PUSHED_CRATE, CRATE, f);
    FieldsAreCarried(PUSHED_CRATE, CRATE, CRATE, CRATE.name, f);
  }

  lemma NotStoredIsCarried(before: seq<Component>, saved: seq<Component>, f: LevelFilter)
    requires !f.storeComponents
    ensures CarriesComponents(before, before, saved, f)
  {
  }

  // Restoring twice

  /** Loading a component a second time, when its tags have already been replaced, takes nothing new. */
  ghost predicate GatedAlike(c: Component, r: ComponentRecord) {
    StoresComponentTransform(RestoredComponent(c, r)) && !StoresComponentTransform(c) && c.movable
    ==> r.transform == c.transform
  }

  /** Restoring a component twice is restoring it once exactly when its new tags let no new transform in. */
  lemma RestoringComponentTwice(c: Component, r: ComponentRecord)
    ensures RestoredComponent(RestoredComponent(c, r), r) == RestoredComponent(c, r) <==> GatedAlike(c, r)
  {
  }

  /** The components of an actor are all gated by their new tags as by their old ones. */
  ghost predicate AllGatedAlike(a: Actor, r: ActorRecord, f: LevelFilter) {
    f.storeComponents ==>
      forall i :: 0 <= i < |a.components| && f.ShouldSaveComponent(a.components[i]) ==>
        match FindComponentRecord(r.components, a.components[i].name, a.components[i].cls)
        case None => true
        case Some(j) => GatedAlike(a.components[i], r.components[j])
  }

  /** Restoring an actor twice is restoring it once exactly when that holds of its components. */
  lemma RestoringTwice(a: Actor, r: ActorRecord, f: LevelFilter)
    ensures Restored(Restored(a, r, f), r, f) == Restored(a, r, f) <==> AllGatedAlike(a, r, f)
  {
    if f.storeComponents {
      var once := RestoredComponents(a.components, r.components, f);
      var twice := RestoredComponents(once, r.components, f);
      forall i | 0 <= i < |a.components|
        ensures twice[i] == once[i] <==>
                (f.ShouldSaveComponent(a.components[i]) ==>
                   match FindComponentRecord(r.components, a.components[i].name, a.components[i].cls)
                   case None => true
                   case Some(j) => GatedAlike(a.components[i], r.components[j]))
      {
        var c := a.components[i];
        assert once[i] == RestoredIn(c, r.components, f);
        var found := FindComponentRecord(r.components, c.name, c.cls);
        if f.ShouldSaveComponent(c) && found.Some? {
          RestoringComponentTwice(c, r.components[found.value]);
        }
      }
      assert twice == once <==> forall i :: 0 <= i < |a.components| ==> twice[i] == once[i];
    }
  }

  /** After two loads nothing moves any more: a third changes nothing. */
  lemma RestoringThrice(a: Actor, r: ActorRecord, f: LevelFilter)
    ensures var twice := Restored(Restored(a, r, f), r, f);
            Restored(twice, r, f) == twice
  {
    if f.storeComponents {
      var once := RestoredComponents(a.components, r.components, f);
      var twice := RestoredComponents(once, r.components, f);
      var thrice := RestoredComponents(twice, r.components, f);
      forall i | 0 <= i < |a.components| ensures thrice[i] == twice[i] {
        assert once[i] == RestoredIn(a.components[i], r.components, f);
      }
      assert thrice == twice;
    }
  }

  lemma RestoringAnEntry(entry: Option<Actor>, records: seq<ActorRecord>, f: LevelFilter)
    ensures var once := RestoredEntry(entry, records, f);
            var twice := RestoredEntry(once, records, f);
            && RestoredEntry(twice, records, f) == twice
            && (once.Some? <==> entry.Some?)
            && (once.Some? ==> once.value.name == entry.value.name && once.value.cls == entry.value.cls
                               && f.ShouldSave(once.value) == f.ShouldSave(entry.value))
  {
    if entry.Some? && f.ShouldSave(entry.value) {
      var found := FindRecord(records, entry.value.name, entry.value.cls);
      if found.Some? && records[found.value].base.IsValid() {
        RestoringThrice(entry.value, records[found.value], f);
      }
    }
  }

  /** The actor's components are gated by their new tags as by their old ones, as far as its record goes. */
  ghost predicate Repeatable(entry: Option<Actor>, records: seq<ActorRecord>, f: LevelFilter) {
    entry.Some? && f.ShouldSave(entry.value) ==>
      match FindRecord(records, entry.value.name, entry.value.cls)
      case None => true
      case Some(j) => records[j].base.IsValid() ==> AllGatedAlike(entry.value, records[j], f)
  }

  lemma RepeatableEntry(entry: Option<Actor>, records: seq<ActorRecord>, f: LevelFilter)
    ensures RestoredEntry(RestoredEntry(entry, records, f), records, f) == RestoredEntry(entry, records, f)
            <==> Repeatable(entry, records, f)
  {
    if entry.Some? && f.ShouldSave(entry.value) {
      var found := FindRecord(records, entry.value.name, entry.value.cls);
      if found.Some? && records[found.value].base.IsValid() {
        RestoringTwice(entry.value, records[found.value], f);
      }
    }
  }

  // An actor that is not repeatable: a door whose mesh was tagged after the game had started

  const DOOR := Class("/Game/Door", None)
  const MESH := Class(SCENE_COMPONENT, None)
  const DOOR_FILTER := LevelFilter(
    ClassFilter.Marks({DOOR.path}, {}), EMPTY_MARKS, true, ClassFilter.Marks({MESH.path}, {}), EMPTY_MARKS)

  /** A door with its mesh at some place. */
  function Door(meshTags: seq<Name>, place: Vector): Actor {
    var mesh := Component("Mesh", MESH, true, meshTags, IDENTITY.(translation := place), []);
    Actor("Door", DOOR, MovableRoot, true, [], false, IDENTITY, ZERO_VECTOR, ZERO_VECTOR, [mesh], [ByteWord(1)])
  }

  const MOVED_DOOR := Door([TAG_TRANSFORM], Vector(1.0, 0.0, 0.0))
  const PLAIN_DOOR := Door([], ZERO_VECTOR)

  /** Saved with the tag that stores its mesh's transform, and loaded where it does not have it yet: a first load brings
      the tag, and a second one the transform. */
  lemma RestoringTwiceCanDiffer()
    ensures MOVED_DOOR.name == PLAIN_DOOR.name && MOVED_DOOR.cls == PLAIN_DOOR.cls
    ensures !Repeatable(Some(PLAIN_DOOR), SavedActors([Some(MOVED_DOOR)], DOOR_FILTER), DOOR_FILTER)
  {
    hide FindRecord, FindComponentRecord, SavedActors, RecordOf, ComponentRecordsOf, AllGatedAlike;
    var records := SavedActors([Some(MOVED_DOOR)], DOOR_FILTER);
    SavedOne(Some(MOVED_DOOR), DOOR_FILTER);
    DoorIsNotGatedAlike();
    assert records[0].base.Matches(PLAIN_DOOR.name, PLAIN_DOOR.cls) && records[0].base.IsValid() by {
      RecordOfDoor();
    }
    assert FindRecord(records, PLAIN_DOOR.name, PLAIN_DOOR.cls) == Some(0);
  }

  /** Saved without that tag, and loaded where its mesh has it: the mesh goes neither where it was when the door was
      saved nor stays where it is. */
  lemma UnstoredPlaceIsReset()
    ensures var saved := Door([], Vector(2.0, 0.0, 0.0));
            var after := RestoredEntry(Some(MOVED_DOOR), SavedActors([Some(saved)], DOOR_FILTER), DOOR_FILTER);
            && after.Some? && |after.value.components| == 1
            && after.value.components[0].transform == IDENTITY
            && IDENTITY != saved.components[0].transform && IDENTITY != MOVED_DOOR.components[0].transform
  {
    hide FindRecord, FindComponentRecord, SavedActors, RecordOf, Restored;
    var saved := Door([], Vector(2.0, 0.0, 0.0));
    RestoredFromOwnSave(saved, MOVED_DOOR, DOOR_FILTER);
    ActorRoundTrip(saved, MOVED_DOOR, saved.name, DOOR_FILTER);
    assert IsChildOf(MESH, SCENE_COMPONENT) && DOOR_FILTER.ShouldSaveComponent(MOVED_DOOR.components[0]);
    assert AreTwins(MOVED_DOOR.components[0], saved.components[0]);
    assert Vector(2.0, 0.0, 0.0).x != ZERO_VECTOR.x && MOVED_DOOR.components[0].transform.translation.x == 1.0;
  }

  lemma RecordOfDoor()
    ensures var r := RecordOf(MOVED_DOOR, DOOR_FILTER);
            && r.base == ObjectRecord("Door", Some(DOOR), [ByteWord(1)], [])
            && r.components == [ComponentRecordOf(MOVED_DOOR.components[0])]
  {
    hide ComponentRecordOf;
    var cs := MOVED_DOOR.components;
    assert cs[1..] == [];
    assert ComponentRecordsOf(cs[1..], DOOR_FILTER) == [];
    assert DOOR_FILTER.ShouldSaveComponent(cs[0]);
  }

  lemma DoorIsNotGatedAlike()
    ensures !AllGatedAlike(PLAIN_DOOR, RecordOf(MOVED_DOOR, DOOR_FILTER), DOOR_FILTER)
  {
    hide FindComponentRecord, RecordOf, ComponentRecordsOf;
    RecordOfDoor();
    var c, r := PLAIN_DOOR.components[0], ComponentRecordOf(MOVED_DOOR.components[0]);
    var records := RecordOf(MOVED_DOOR, DOOR_FILTER).components;
    assert records[0].base.Matches(c.name, c.cls);
    assert FindComponentRecord(records, c.name, c.cls) == Some(0);
    assert IsChildOf(MESH, SCENE_COMPONENT);
    assert r.base.tags == [TAG_TRANSFORM] && TAG_TRANSFORM in RestoredComponent(c, r).tags;
    assert r.transform.translation.x == 1.0 && c.transform.translation.x == 0.0;
    assert !GatedAlike(c, r);
    assert DOOR_FILTER.ShouldSaveComponent(c);
  }
}
