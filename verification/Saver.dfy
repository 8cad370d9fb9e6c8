/** Saving: actors are mapped to records by chunk tasks that run concurrently and are then dumped in order. */
module Saver {
  import opened Engine
  import opened Actors
  import ClassFilter

  /** The record of a component. */
  function ComponentRecordOf(c: Component): ComponentRecord {
    ComponentRecord(
      ObjectRecord(
        c.name, Some(c.cls),
        if IsChildOf(c.cls, PRIMITIVE_COMPONENT) then [] else c.blob,
        if StoresComponentTags(c) then c.tags else []),
      if StoresComponentTransform(c) && c.movable then c.transform else IDENTITY)
  }

  function ComponentRecordsOf(cs: seq<Component>, f: LevelFilter): seq<ComponentRecord> {
    if cs == [] then []
    else (if f.ShouldSaveComponent(cs[0]) then [ComponentRecordOf(cs[0])] else [])
         + ComponentRecordsOf(cs[1..], f)
  }

  /** The record of an actor: what its tags gate out keeps the record's default. */
  function RecordOf(a: Actor, f: LevelFilter): ActorRecord {
    var physics := StoresTransform(a) && StoresPhysics(a);
    ActorRecord(
      ObjectRecord(a.name, Some(a.cls), a.blob, KeptTags(a.tags)),
      a.hidden, a.wasLoaded,
      if StoresTransform(a) then a.transform else IDENTITY,
      if physics then a.linear else ZERO_VECTOR,
      if physics && a.root.MovablePrimitiveRoot? then a.angular else ZERO_VECTOR,
      if f.storeComponents then ComponentRecordsOf(a.components, f) else [])
  }

  /** The records of an actor array: its savable actors, in array order. */
  function SavedActors(actors: ActorArray, f: LevelFilter): seq<ActorRecord> {
    if actors == [] then []
    else (if actors[0].Some? && f.ShouldSave(actors[0].value) then [RecordOf(actors[0].value, f)] else [])
         + SavedActors(actors[1..], f)
  }

  lemma SavedNone(f: LevelFilter)
    ensures SavedActors([], f) == []
  {
  }

  lemma {:induction false} SavedActorsSplit(a: ActorArray, b: ActorArray, f: LevelFilter)
    ensures SavedActors(a + b, f) == SavedActors(a, f) + SavedActors(b, f)
  {
    hide RecordOf;
    if a == [] {
      assert a + b == b;
    } else {
      assert (a + b)[1..] == a[1..] + b;
      SavedActorsSplit(a[1..], b, f);
    }
  }

  lemma {:induction false} ComponentRecordsSplit(a: seq<Component>, b: seq<Component>, f: LevelFilter)
    ensures ComponentRecordsOf(a + b, f) == ComponentRecordsOf(a, f) + ComponentRecordsOf(b, f)
  {
    hide ComponentRecordOf;
    if a == [] {
      assert a + b == b;
    } else {
      assert (a + b)[1..] == a[1..] + b;
      ComponentRecordsSplit(a[1..], b, f);
    }
  }

  /** Of one tag, and so, tag by tag, of any, it is told whether it is a save tag. */
  lemma SaveTagOrNot(tag: Name)
    ensures OnlySaveTags([tag])
            == if tag == "!SaveTransform" || tag == "!SavePhysics" || tag == "!SaveTags" then [tag] else []
  {
    assert [tag][1..] == [];
  }

  lemma {:induction false} OnlySaveTagsSplit(a: seq<Name>, b: seq<Name>)
    ensures OnlySaveTags(a + b) == OnlySaveTags(a) + OnlySaveTags(b)
  {
    if a == [] {
      assert a + b == b;
    } else {
      assert (a + b)[1..] == a[1..] + b;
      OnlySaveTagsSplit(a[1..], b);
    }
  }

  /** One more actor extends the records of a range by its own record, if it is savable. */
  lemma SavedActorsNext(actors: ActorArray, start: nat, done: nat, f: LevelFilter)
    requires start + done < |actors|
    ensures SavedActors(actors[start..start + done + 1], f)
            == SavedActors(actors[start..start + done], f)
               + if actors[start + done].Some? && f.ShouldSave(actors[start + done].value)
                 then [RecordOf(actors[start + done].value, f)] else []
  {
    var last := [actors[start + done]];
    assert actors[start..start + done + 1] == actors[start..start + done] + last;
    SavedActorsSplit(actors[start..start + done], last, f);
    assert last[1..] == [];
  }

  /** Nothing is lost, invented or reordered: `at` lists, in order, the array positions the records come from. */
  ghost predicate SavedFrom(records: seq<ActorRecord>, at: seq<nat>, actors: ActorArray, f: LevelFilter)
  {
    && |at| == |records|
    && (forall j, k :: 0 <= j < k < |at| ==> at[j] < at[k])
    && (forall j :: 0 <= j < |at| ==>
          at[j] < |actors| && actors[at[j]].Some? && f.ShouldSave(actors[at[j]].value)
          && records[j] == RecordOf(actors[at[j]].value, f))
    && (forall i :: 0 <= i < |actors| && actors[i].Some? && f.ShouldSave(actors[i].value) ==> i in at)
  }

  /** One more entry: its record follows the others if it is savable. */
  lemma SavedFromNext(records: seq<ActorRecord>, at: seq<nat>, init: ActorArray, last: Option<Actor>, f: LevelFilter)
    requires SavedFrom(records, at, init, f)
    ensures if last.Some? && f.ShouldSave(last.value)
            then SavedFrom(records + [RecordOf(last.value, f)], at + [|init|], init + [last], f)
            else SavedFrom(records, at, init + [last], f)
  {
    hide RecordOf;
    var actors := init + [last];
    forall i | 0 <= i < |init| && actors[i].Some? && f.ShouldSave(actors[i].value)
      ensures i in at
    {
      assert init[i] == actors[i];
    }
    assert (at + [|init|])[|at|] == |init|;
  }

  lemma SavedOne(entry: Option<Actor>, f: LevelFilter)
    ensures SavedActors([entry], f) == if entry.Some?
            && f.ShouldSave(entry.value) then [RecordOf(entry.value, f)] else []
  {
    hide RecordOf;
    assert SavedActors([entry][1..], f) == [];
  }

  lemma SavedFromNone(f: LevelFilter)
    ensures SavedFrom([], [], [], f)
  {
  }

  /** The records are in order-preserving bijection with the savable actors. */
  lemma {:induction false} SavedActorsAreExactlyTheSavable(actors: ActorArray, f: LevelFilter) returns (at: seq<nat>)
    ensures SavedFrom(SavedActors(actors, f), at, actors, f)
  {
    hide RecordOf, SavedFrom, SavedActors;
    if actors == [] {
      at := [];
      SavedNone(f);
      SavedFromNone(f);
    } else {
      var init, last := actors[..|actors| - 1], actors[|actors| - 1];
      assert actors == init + [last];
      at := SavedActorsAreExactlyTheSavable(init, f);
      SavedActorsSplit(init, [last], f);
      SavedOne(last, f);
      SavedFromNext(SavedActors(init, f), at, init, last, f);
      if last.Some? && f.ShouldSave(last.value) {
        at := at + [|init|];
      } else {
        assert SavedActors(init, f) + [] == SavedActors(init, f);
      }
    }
  }

  /** Saved are the live actors whose class the rule of class filters lets through, inherited marks included, and no
      others: each under its name and class, with its own data. */
  lemma SavedAreThoseLetThrough(actors: ActorArray, f: LevelFilter) returns (at: seq<nat>)
    ensures var records := SavedActors(actors, f);
            && |at| == |records|
            && (forall j, k :: 0 <= j < k < |at| ==> at[j] < at[k])
            && (forall i: nat :: i in at
                                 <==> i < |actors| && actors[i].Some?
                                      && IsLetThrough(f.actorFilter, actors[i].value.cls))
            && forall j :: 0 <= j < |at| ==>
                 && at[j] < |actors| && actors[at[j]].Some?
                 && records[j].base.name == actors[at[j]].value.name
                 && records[j].base.cls == Some(actors[at[j]].value.cls)
                 && records[j].base.data == actors[at[j]].value.blob
                 && records[j].hidden == actors[at[j]].value.hidden
                 && records[j].procedural == actors[at[j]].value.wasLoaded
  {
    hide SavedActors, IsLetThrough, LevelFilter.ShouldSave;
    at := SavedActorsAreExactlyTheSavable(actors, f);
    forall i: nat | i < |actors| && actors[i].Some?
      ensures f.ShouldSave(actors[i].value) <==> IsLetThrough(f.actorFilter, actors[i].value.cls)
    {
      SavableFollowsTheRule(f, actors[i].value);
    }
  }

  /** As what is baked has it: with the filter baked over the loaded classes, saved are the live actors of baked
      classes. */
  method BakeAndSave(actors: ActorArray, f: LevelFilter, filter: ClassFilter.ClassFilter, loaded: set<Class>)
    returns (ghost at: seq<nat>)
    requires filter.View() == f.actorFilter && IsRegistry(loaded)
    requires forall i :: 0 <= i < |actors| && actors[i].Some? ==> actors[i].value.cls in loaded
    modifies filter`bakedAllowedClasses
    ensures SavedFrom(SavedActors(actors, f), at, actors, f)
    ensures forall i: nat ::
              i in at <==> i < |actors| && actors[i].Some? && actors[i].value.cls in filter.bakedAllowedClasses
  {
    hide SavedActors, RecordOf;
    filter.BakeAllowedClasses(loaded);
    at := SavedActorsAreExactlyTheSavable(actors, f);
  }

  /** Stored of an actor are its components that the rule of class filters lets through, and none if the filter stores
      none; each under its name and class. */
  lemma StoredComponentsAreThoseLetThrough(a: Actor, f: LevelFilter)
    ensures forall n: Name, c: Class ::
              HasComponentRecord(RecordOf(a, f).components, n, c)
              <==> f.storeComponents && HasComponent(a.components, f, n, c)
  {
    hide IsLetThrough, ComponentRecordsOf;
    if f.storeComponents {
      forall n: Name, c: Class
        ensures HasComponentRecord(ComponentRecordsOf(a.components, f), n, c) <==> HasComponent(a.components, f, n, c)
      {
        ComponentsAreThoseLetThrough(a.components, f, n, c);
      }
    }
  }

  ghost predicate HasComponentRecord(records: seq<ComponentRecord>, n: Name, c: Class) {
    exists j :: 0 <= j < |records| && records[j].base.name == n && records[j].base.cls == Some(c)
  }

  ghost predicate HasComponent(cs: seq<Component>, f: LevelFilter, n: Name, c: Class) {
    exists k :: 0 <= k < |cs| && cs[k].name == n && cs[k].cls == c && IsLetThrough(f.componentFilter, c)
  }

  lemma OneMoreRecord(r: ComponentRecord, rest: seq<ComponentRecord>, n: Name, c: Class)
    ensures HasComponentRecord([r] + rest, n, c)
            <==> (r.base.name == n && r.base.cls == Some(c)) || HasComponentRecord(rest, n, c)
  {
    var records := [r] + rest;
    assert records[0] == r && forall j :: 0 <= j < |rest| ==> records[j + 1] == rest[j];
    assert forall j :: 1 <= j < |records| ==> records[j] == rest[j - 1];
  }

  lemma OneMoreComponent(cs: seq<Component>, f: LevelFilter, n: Name, c: Class)
    requires cs != []
    ensures HasComponent(cs, f, n, c)
            <==> || (cs[0].name == n && cs[0].cls == c && IsLetThrough(f.componentFilter, c))
                 || HasComponent(cs[1..], f, n, c)
  {
    hide IsLetThrough;
    assert forall k :: 0 <= k < |cs[1..]| ==> cs[k + 1] == cs[1..][k];
    assert forall k :: 1 <= k < |cs| ==> cs[k] == cs[1..][k - 1];
  }

  lemma {:induction false} ComponentsAreThoseLetThrough(cs: seq<Component>, f: LevelFilter, n: Name, c: Class)
    ensures HasComponentRecord(ComponentRecordsOf(cs, f), n, c) <==> HasComponent(cs, f, n, c)
  {
    hide IsLetThrough, HasComponent, HasComponentRecord, LevelFilter.ShouldSaveComponent;
    if cs == [] {
      assert !HasComponentRecord([], n, c) && !HasComponent(cs, f, n, c) by {
        NoComponents(f, n, c);
      }
    } else {
      ComponentsAreThoseLetThrough(cs[1..], f, n, c);
      SavableComponentFollowsTheRule(f, cs[0]);
      OneMoreComponent(cs, f, n, c);
      OneMoreRecord(ComponentRecordOf(cs[0]), ComponentRecordsOf(cs[1..], f), n, c);
      assert [] + ComponentRecordsOf(cs[1..], f) == ComponentRecordsOf(cs[1..], f);
    }
  }

  lemma NoComponents(f: LevelFilter, n: Name, c: Class)
    ensures !HasComponentRecord([], n, c) && !HasComponent([], f, n, c)
  {
  }

  method SerializeActorComponents(components: seq<Component>, f: LevelFilter) returns (records: seq<ComponentRecord>)
    ensures records == ComponentRecordsOf(components, f)
  {
    records := [];
    for i := 0 to |components|
      invariant records == ComponentRecordsOf(components[..i], f)
    {
      var c := components[i];
      ComponentRecordsSplit(components[..i], [c], f);
      assert components[..i + 1] == components[..i] + [c];
      if f.ShouldSaveComponent(c) {
        var record := EMPTY_COMPONENT;
        record := record.(base := record.base.(name := c.name, cls := Some(c.cls)));
        if StoresComponentTransform(c) {
          if c.movable {
            record := record.(transform := c.transform);
          }
        }
        if StoresComponentTags(c) {
          record := record.(base := record.base.(tags := c.tags));
        }
        if !IsChildOf(c.cls, PRIMITIVE_COMPONENT) {
          record := record.(base := record.base.(data := c.blob));
        }
        records := records + [record];
      }
    }
    assert components[..|components|] == components;
  }

  method SerializeSaveTags(tags: seq<Name>) returns (kept: seq<Name>)
    ensures kept == OnlySaveTags(tags)
  {
    kept := [];
    for i := 0 to |tags|
      invariant kept == OnlySaveTags(tags[..i])
    {
      OnlySaveTagsSplit(tags[..i], [tags[i]]);
      assert tags[..i + 1] == tags[..i] + [tags[i]];
      if IsSaveTag(tags[i]) {
        kept := kept + [tags[i]];
      }
    }
    assert tags[..|tags|] == tags;
  }

  method SerializeActor(a: Actor, f: LevelFilter) returns (record: ActorRecord)
    ensures record == RecordOf(a, f)
  {
    hide OnlySaveTags, ComponentRecordsOf;
    record := EMPTY_ACTOR.(base := ObjectRecord(a.name, Some(a.cls), [], []));
    record := record.(hidden := a.hidden, procedural := a.wasLoaded);
    if StoresTags(a) {
      record := record.(base := record.base.(tags := a.tags));
    } else {
      var tags := SerializeSaveTags(a.tags);
      record := record.(base := record.base.(tags := tags));
    }
    if StoresTransform(a) {
      record := record.(transform := a.transform);
      if StoresPhysics(a) {
        if a.root.MovablePrimitiveRoot? {
          record := record.(linear := a.linear, angular := a.angular);
        } else {
          record := record.(linear := a.linear);
        }
      }
    }
    if f.storeComponents {
      var components := SerializeActorComponents(a.components, f);
      record := record.(components := components);
    }
    record := record.(base := record.base.(data := a.blob));
  }

  /** Everything saved in a slot. */
  class SlotData {
    var mapName: Name
    var timeSeconds: real
    var storeGameInstance: bool
    var gameInstance: ObjectRecord
    var generalFilter: LevelFilter
    var mainLevel: LevelRecord
    var subLevels: seq<LevelRecord>

    function View(): Slot
      reads this
    {
      Slot(mapName, timeSeconds, storeGameInstance, gameInstance, generalFilter, mainLevel, subLevels)
    }

    constructor ()
      ensures View() == EMPTY_SLOT
    {
      mapName, timeSeconds := NAME_NONE, 0.0;
      storeGameInstance, gameInstance, generalFilter := false, EMPTY_OBJECT, EMPTY_FILTER;
      mainLevel, subLevels := EMPTY_LEVEL.(name := PERSISTENT_NAME), [];
    }

    /** Whatever a slot holds, as read from a file or taken from the world. */
    method Assign(s: Slot)
      modifies this
      ensures View() == s
    {
      mapName, timeSeconds := s.mapName, s.timeSeconds;
      storeGameInstance, gameInstance := s.storeGameInstance, s.gameInstance;
      generalFilter, mainLevel, subLevels := s.generalFilter, s.mainLevel, s.subLevels;
    }

    method CleanRecords(keepSublevels: bool)
      modifies this`gameInstance, this`mainLevel, this`subLevels
      ensures View() == CleanedSlot(old(View()), keepSublevels)
    {
      gameInstance := EMPTY_OBJECT;
      mainLevel := Cleaned(mainLevel);
      if !keepSublevels {
        subLevels := [];
      }
    }
  }

  /** A slot without what was saved of the game instance and the main level, and of the sub-levels unless they are
      kept. */
  function CleanedSlot(s: Slot, keepSublevels: bool): Slot {
    s.(gameInstance := EMPTY_OBJECT, mainLevel := Cleaned(s.mainLevel), subLevels := if keepSublevels then s.subLevels
       else [])
  }

  /** A level record without its actors; its name and filter stay. */
  function Cleaned(r: LevelRecord): LevelRecord {
    r.(levelScript := EMPTY_ACTOR, actors := [])
  }

  function FilterOf(general: LevelFilter, r: LevelRecord): LevelFilter {
    if r.overridesFilter then r.filter else general
  }

  /** The first level record with a given name. */
  function FindLevel(levels: seq<LevelRecord>, name: Name): (r: Option<nat>)
    ensures r.Some? ==> r.value < |levels| && levels[r.value].name == name
                        && forall k :: 0 <= k < r.value ==> levels[k].name != name
    ensures r.None? ==> forall k :: 0 <= k < |levels| ==> levels[k].name != name
  {
    FindFirst(levels, (r: LevelRecord) => r.name == name)
  }

  lemma FindLevelAppended(levels: seq<LevelRecord>, name: Name)
    ensures FindLevel(levels + [EMPTY_LEVEL.(name := name)], name).Some?
  {
    assert (levels + [EMPTY_LEVEL.(name := name)])[|levels|].name == name;
  }

  lemma FindLevelStable(levels: seq<LevelRecord>, more: LevelRecord, name: Name)
    requires FindLevel(levels, name).Some?
    ensures FindLevel(levels + [more], name) == FindLevel(levels, name)
  {
    var k := FindLevel(levels, name).value;
    assert (levels + [more])[k] == levels[k];
    assert forall j :: 0 <= j < k ==> (levels + [more])[j] == levels[j];
  }

  lemma SameNamesFindTheSame(a: seq<LevelRecord>, b: seq<LevelRecord>)
    requires |a| == |b| && forall k :: 0 <= k < |a| ==> a[k].name == b[k].name
    ensures forall name :: FindLevel(a, name) == FindLevel(b, name)
  {
    hide FindLevel;
    forall name
      ensures FindLevel(a, name) == FindLevel(b, name)
    {
      var i, k := FindLevel(a, name), FindLevel(b, name);
      assert i.Some? ==> b[i.value].name == name;
      assert k.Some? ==> a[k.value].name == name;
    }
  }
}
