/** Live actors and components, the level filter, and the records they are saved into. */
module Actors {
  import opened Engine
  import ClassFilter

  datatype Vector = Vector(x: real, y: real, z: real)

  const ZERO_VECTOR := Vector(0.0, 0.0, 0.0)

  /** A transform, kept as its translation, rotation and scale. */
  datatype Transform = Transform(translation: Vector, rotation: Vector, scale: Vector)

  const IDENTITY := Transform(ZERO_VECTOR, ZERO_VECTOR, Vector(1.0, 1.0, 1.0))

  /** One unit read from or written to an archive. */
  datatype Word =
    | ByteWord(byte: nat)
    | BoolWord(flag: bool)
    | CountWord(count: nat)
    | NameWord(name: Name)
    | ClassWord(path: string)
    | TransformWord(transform: Transform)
    | VectorWord(vector: Vector)
    | FilterWord(filter: LevelFilter)
    | NumberWord(number: int)
    | RealWord(amount: real)
    | TextWord(text: string)

  /** What an object serializes itself into; opaque to the save system. */
  type Blob = seq<Word>

  const TAG_NO_TRANSFORM: Name := "!SaveTransform"
  const TAG_NO_PHYSICS: Name := "!SavePhysics"
  const TAG_NO_TAGS: Name := "!SaveTags"
  const TAG_TRANSFORM: Name := "SaveTransform"

  const SCENE_COMPONENT := "/Script/Engine.SceneComponent"
  const PRIMITIVE_COMPONENT := "/Script/Engine.PrimitiveComponent"

  /** The root component of an actor, as far as saving cares. */
  datatype RootKind = NoRoot | FixedRoot | MovableRoot | MovablePrimitiveRoot

  datatype Component = Component(
    name: Name, cls: Class, movable: bool, tags: seq<Name>, transform: Transform, blob: Blob)

  datatype Actor = Actor(
    name: Name, cls: Class, root: RootKind, wasLoaded: bool, tags: seq<Name>, hidden: bool,
    transform: Transform, linear: Vector, angular: Vector, components: seq<Component>, blob: Blob)

  /** The entries of a level's actor array; destroying an actor leaves an empty entry. */
  type ActorArray = seq<Option<Actor>>

  datatype LevelFilter = LevelFilter(
    actorFilter: ClassFilter.Marks, loadActorFilter: ClassFilter.Marks, storeComponents: bool,
    componentFilter: ClassFilter.Marks, loadComponentFilter: ClassFilter.Marks)
  {
    predicate ShouldSave(a: Actor) {
      ClassFilter.Allows(actorFilter, a.cls)
    }

    predicate ShouldSaveComponent(c: Component) {
      ClassFilter.Allows(componentFilter, c.cls)
    }
  }

  /** A class is let through by the closest class with a mark, itself or above it. */
  ghost predicate IsLetThrough(m: ClassFilter.Marks, c: Class) {
    exists a :: ClassFilter.IsClosestMarked(m, c, a) && a.path in m.allowed
  }

  /** What is savable follows the rule of class filters, inherited marks included. */
  lemma SavableFollowsTheRule(f: LevelFilter, a: Actor)
    ensures f.ShouldSave(a) <==> IsLetThrough(f.actorFilter, a.cls)
  {
    ClassFilter.AllowsIffClosestMarkedIsAllowed(f.actorFilter, a.cls);
  }

  lemma SavableComponentFollowsTheRule(f: LevelFilter, c: Component)
    ensures f.ShouldSaveComponent(c) <==> IsLetThrough(f.componentFilter, c.cls)
  {
    ClassFilter.AllowsIffClosestMarkedIsAllowed(f.componentFilter, c.cls);
  }

  const EMPTY_MARKS := ClassFilter.Marks({}, {})
  const EMPTY_FILTER := LevelFilter(EMPTY_MARKS, EMPTY_MARKS, false, EMPTY_MARKS, EMPTY_MARKS)

  predicate IsSaveTag(tag: Name) {
    tag == TAG_NO_TRANSFORM || tag == TAG_NO_PHYSICS || tag == TAG_NO_TAGS
  }

  predicate StoresTransform(a: Actor) {
    (a.root.MovableRoot? || a.root.MovablePrimitiveRoot?) && TAG_NO_TRANSFORM !in a.tags
  }

  predicate StoresPhysics(a: Actor) {
    TAG_NO_PHYSICS !in a.tags
  }

  predicate StoresTags(a: Actor) {
    TAG_NO_TAGS !in a.tags
  }

  predicate StoresComponentTransform(c: Component) {
    IsChildOf(c.cls, SCENE_COMPONENT) && TAG_TRANSFORM in c.tags
  }

  predicate StoresComponentTags(c: Component) {
    TAG_NO_TAGS !in c.tags
  }

  /** The save tags among `tags`, in order. */
  function OnlySaveTags(tags: seq<Name>): (r: seq<Name>)
    ensures forall t :: t in r <==> t in tags && IsSaveTag(t)
  {
    if tags == [] then []
    else (if IsSaveTag(tags[0]) then [tags[0]] else []) + OnlySaveTags(tags[1..])
  }

  /** The tags of an actor that reach its record. */
  function KeptTags(tags: seq<Name>): seq<Name> {
    if TAG_NO_TAGS in tags then OnlySaveTags(tags) else tags
  }

  /** Once an actor carries the tags its record kept, it is gated as the saved one would be on its root. */
  lemma GatesSurviveTheTrip(saved: Actor, live: Actor)
    requires live.tags == KeptTags(saved.tags)
    ensures StoresTransform(live) == StoresTransform(saved.(root := live.root))
    ensures StoresPhysics(live) == StoresPhysics(saved)
    ensures StoresTags(live) == StoresTags(saved)
    ensures KeptTags(live.tags) == live.tags
  {
    OnlySaveTagsIdempotent(saved.tags);
  }

  lemma {:induction false} OnlySaveTagsIdempotent(tags: seq<Name>)
    ensures OnlySaveTags(OnlySaveTags(tags)) == OnlySaveTags(tags)
  {
    if tags != [] {
      var rest := OnlySaveTags(tags[1..]);
      OnlySaveTagsIdempotent(tags[1..]);
      if IsSaveTag(tags[0]) {
        assert ([tags[0]] + rest)[1..] == rest;
      } else {
        assert [] + rest == rest;
      }
    }
  }

  // Records

  datatype ObjectRecord = ObjectRecord(name: Name, cls: Option<Class>, data: Blob, tags: seq<Name>)
  {
    predicate IsValid() {
      name != NAME_NONE && cls.Some? && |data| > 0
    }

    /** Whether this is the record of a live object with the given name and class. */
    predicate Matches(otherName: Name, otherClass: Class) {
      name == otherName && cls == Some(otherClass)
    }
  }

  const EMPTY_OBJECT := ObjectRecord(NAME_NONE, None, [], [])

  datatype ComponentRecord = ComponentRecord(base: ObjectRecord, transform: Transform)

  const EMPTY_COMPONENT := ComponentRecord(EMPTY_OBJECT, IDENTITY)

  datatype ActorRecord = ActorRecord(
    base: ObjectRecord, hidden: bool, procedural: bool, transform: Transform,
    linear: Vector, angular: Vector, components: seq<ComponentRecord>)

  const EMPTY_ACTOR := ActorRecord(EMPTY_OBJECT, false, false, IDENTITY, ZERO_VECTOR, ZERO_VECTOR, [])

  /** A record under another name: the one its actor got. */
  function Named(r: ActorRecord, name: Name): ActorRecord {
    r.(base := r.base.(name := name))
  }

  datatype LevelRecord = LevelRecord(
    name: Name, overridesFilter: bool, filter: LevelFilter, levelScript: ActorRecord, actors: seq<ActorRecord>)

  const PERSISTENT_NAME: Name := "Persistent"
  const EMPTY_LEVEL := LevelRecord(NAME_NONE, false, EMPTY_FILTER, EMPTY_ACTOR, [])

  /** The value of everything a slot stores. */
  datatype Slot = Slot(
    mapName: Name, timeSeconds: real, storeGameInstance: bool, gameInstance: ObjectRecord, generalFilter: LevelFilter,
    mainLevel: LevelRecord, subLevels: seq<LevelRecord>)

  const EMPTY_SLOT := Slot(
    NAME_NONE, 0.0, false, EMPTY_OBJECT, EMPTY_FILTER, EMPTY_LEVEL.(name := PERSISTENT_NAME), [])

  /** Position of the first record matching an actor's name and class. */
  function FindRecord(records: seq<ActorRecord>, name: Name, cls: Class): (r: Option<nat>)
    ensures r.Some? ==> r.value < |records| && records[r.value].base.Matches(name, cls)
    ensures r.Some? ==> forall j :: 0 <= j < r.value ==> !records[j].base.Matches(name, cls)
    ensures r.None? ==> forall j :: 0 <= j < |records| ==> !records[j].base.Matches(name, cls)
  {
    FindFirst(records, (r: ActorRecord) => r.base.Matches(name, cls))
  }

  function FindComponentRecord(records: seq<ComponentRecord>, name: Name, cls: Class): (r: Option<nat>)
    ensures r.Some? ==> r.value < |records| && records[r.value].base.Matches(name, cls)
    ensures r.Some? ==> forall j :: 0 <= j < r.value ==> !records[j].base.Matches(name, cls)
    ensures r.None? ==> forall j :: 0 <= j < |records| ==> !records[j].base.Matches(name, cls)
  {
    FindFirst(records, (r: ComponentRecord) => r.base.Matches(name, cls))
  }
}
