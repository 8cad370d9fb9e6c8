/** The format records are written in, and what reading it back gives. */
module Codec {
  import opened Engine
  import opened Actors

  /** Finds the loaded class at a path, if there is one. */
  type Resolver = string -> Option<Class>

  /** The outcome of reading: a value and the words left, or an archive error. */
  datatype Read<+T> = Fail | Got(value: T, rest: seq<Word>)

  const NO_CLASS_PATH := "None"

  /** How small counts as not moving. */
  const NEARLY_ZERO: real := 0.0001

  predicate NearlyZero(v: Vector) {
    -NEARLY_ZERO <= v.x <= NEARLY_ZERO && -NEARLY_ZERO <= v.y <= NEARLY_ZERO && -NEARLY_ZERO <= v.z <= NEARLY_ZERO
  }

  predicate IsMoving(r: ActorRecord) {
    !NearlyZero(r.linear) || !NearlyZero(r.angular)
  }

  // Writing

  function EncodeBlob(b: Blob): seq<Word> {
    [CountWord(|b|)] + b
  }

  function NameWords(tags: seq<Name>): seq<Word> {
    if tags == [] then [] else [NameWord(tags[0])] + NameWords(tags[1..])
  }

  function EncodeTags(tags: seq<Name>): seq<Word> {
    [CountWord(|tags|)] + NameWords(tags)
  }

  function ClassPath(cls: Option<Class>): string {
    if cls.Some? then cls.value.path else NO_CLASS_PATH
  }

  function EncodeObject(r: ObjectRecord): seq<Word> {
    [NameWord(r.name)]
    + (if r.name != NAME_NONE then [ClassWord(ClassPath(r.cls))] else [])
    + (if r.cls.Some? then EncodeBlob(r.data) + EncodeTags(r.tags) else [])
  }

  function EncodeComponent(r: ComponentRecord): seq<Word> {
    EncodeObject(r.base) + if r.base.cls.Some? then [TransformWord(r.transform)] else []
  }

  function ComponentWords(rs: seq<ComponentRecord>): seq<Word> {
    if rs == [] then [] else EncodeComponent(rs[0]) + ComponentWords(rs[1..])
  }

  function EncodeComponents(rs: seq<ComponentRecord>): seq<Word> {
    [CountWord(|rs|)] + ComponentWords(rs)
  }

  function EncodeMotion(r: ActorRecord): seq<Word> {
    [BoolWord(IsMoving(r))] + if IsMoving(r) then [VectorWord(r.linear), VectorWord(r.angular)] else []
  }

  function EncodeActor(r: ActorRecord): seq<Word> {
    EncodeObject(r.base)
    + if r.base.cls.None? then []
      else [BoolWord(r.hidden), BoolWord(r.procedural), TransformWord(r.transform)]
           + (EncodeMotion(r) + EncodeComponents(r.components))
  }

  function ActorWords(rs: seq<ActorRecord>): seq<Word> {
    if rs == [] then [] else EncodeActor(rs[0]) + ActorWords(rs[1..])
  }

  function EncodeActors(rs: seq<ActorRecord>): seq<Word> {
    [CountWord(|rs|)] + ActorWords(rs)
  }

  function EncodeLevel(r: LevelRecord): seq<Word> {
    [NameWord(r.name), BoolWord(r.overridesFilter)]
    + ((if r.overridesFilter then [FilterWord(r.filter)] else [])
       + (EncodeActor(r.levelScript) + EncodeActors(r.actors)))
  }

  // Reading. Each reads over a record, so what the format leaves out keeps the value it had.

  function DecodeBlob(ws: seq<Word>): Read<Blob> {
    if ws == [] || !ws[0].CountWord? || ws[0].count > |ws| - 1 then Fail
    else Got(ws[1..1 + ws[0].count], ws[1 + ws[0].count..])
  }

  function DecodeNames(n: nat, ws: seq<Word>): Read<seq<Name>> {
    if n == 0 then Got([], ws)
    else if ws == [] || !ws[0].NameWord? then Fail
    else match DecodeNames(n - 1, ws[1..])
         case Fail => Fail
         case Got(names, rest) => Got([ws[0].name] + names, rest)
  }

  function DecodeTags(ws: seq<Word>): Read<seq<Name>> {
    if ws == [] || !ws[0].CountWord? then Fail else DecodeNames(ws[0].count, ws[1..])
  }

  function DecodeClass(name: Name, ws: seq<Word>, resolve: Resolver): Read<Option<Class>> {
    if name == NAME_NONE then Got(None, ws)
    else if ws == [] || !ws[0].ClassWord? then Fail
    else Got(resolve(ws[0].path), ws[1..])
  }

  function DecodeContents(r: ObjectRecord, ws: seq<Word>): Read<ObjectRecord> {
    match DecodeBlob(ws)
    case Fail => Fail
    case Got(data, rest) =>
      match DecodeTags(rest)
      case Fail => Fail
      case Got(tags, rest) => Got(r.(data := data, tags := tags), rest)
  }

  function DecodeObject(r: ObjectRecord, ws: seq<Word>, resolve: Resolver): Read<ObjectRecord> {
    if ws == [] || !ws[0].NameWord? then Fail
    else match DecodeClass(ws[0].name, ws[1..], resolve)
         case Fail => Fail
         case Got(cls, rest) =>
           var named := r.(name := ws[0].name, cls := cls);
           if cls.None? then Got(named, rest) else DecodeContents(named, rest)
  }

  function DecodeComponent(r: ComponentRecord, ws: seq<Word>, resolve: Resolver): Read<ComponentRecord> {
    match DecodeObject(r.base, ws, resolve)
    case Fail => Fail
    case Got(base, rest) =>
      if base.cls.None? then Got(r.(base := base), rest)
      else if rest == [] || !rest[0].TransformWord? then Fail
      else Got(ComponentRecord(base, rest[0].transform), rest[1..])
  }

  function DecodeComponentList(n: nat, ws: seq<Word>, resolve: Resolver): Read<seq<ComponentRecord>> {
    if n == 0 then Got([], ws)
    else match DecodeComponent(EMPTY_COMPONENT, ws, resolve)
         case Fail => Fail
         case Got(first, rest) =>
           match DecodeComponentList(n - 1, rest, resolve)
           case Fail => Fail
           case Got(others, rest) => Got([first] + others, rest)
  }

  function DecodeComponents(ws: seq<Word>, resolve: Resolver): Read<seq<ComponentRecord>> {
    if ws == [] || !ws[0].CountWord? then Fail else DecodeComponentList(ws[0].count, ws[1..], resolve)
  }

  /** Reads the motion of an actor, whose velocities stay as they were if it does not move. */
  function DecodeMotion(r: ActorRecord, ws: seq<Word>): Read<ActorRecord> {
    if ws == [] || !ws[0].BoolWord? then Fail
    else if !ws[0].flag then Got(r, ws[1..])
    else if |ws| < 3 || !ws[1].VectorWord? || !ws[2].VectorWord? then Fail
    else Got(r.(linear := ws[1].vector, angular := ws[2].vector), ws[3..])
  }

  function DecodeActorRest(r: ActorRecord, ws: seq<Word>, resolve: Resolver): Read<ActorRecord> {
    if |ws| < 3 || !ws[0].BoolWord? || !ws[1].BoolWord? || !ws[2].TransformWord? then Fail
    else match DecodeMotion(r.(hidden := ws[0].flag, procedural := ws[1].flag, transform := ws[2].transform), ws[3..])
         case Fail => Fail
         case Got(moved, rest) =>
           match DecodeComponents(rest, resolve)
           case Fail => Fail
           case Got(components, rest) => Got(moved.(components := components), rest)
  }

  function DecodeActor(r: ActorRecord, ws: seq<Word>, resolve: Resolver): Read<ActorRecord> {
    match DecodeObject(r.base, ws, resolve)
    case Fail => Fail
    case Got(base, rest) =>
      if base.cls.None? then Got(r.(base := base), rest) else DecodeActorRest(r.(base := base), rest, resolve)
  }

  function DecodeActorList(n: nat, ws: seq<Word>, resolve: Resolver): Read<seq<ActorRecord>> {
    if n == 0 then Got([], ws)
    else match DecodeActor(EMPTY_ACTOR, ws, resolve)
         case Fail => Fail
         case Got(first, rest) =>
           match DecodeActorList(n - 1, rest, resolve)
           case Fail => Fail
           case Got(others, rest) => Got([first] + others, rest)
  }

  function DecodeActors(ws: seq<Word>, resolve: Resolver): Read<seq<ActorRecord>> {
    if ws == [] || !ws[0].CountWord? then Fail else DecodeActorList(ws[0].count, ws[1..], resolve)
  }

  function DecodeLevelActors(r: LevelRecord, ws: seq<Word>, resolve: Resolver): Read<LevelRecord> {
    match DecodeActor(r.levelScript, ws, resolve)
    case Fail => Fail
    case Got(script, rest) =>
      match DecodeActors(rest, resolve)
      case Fail => Fail
      case Got(actors, rest) => Got(r.(levelScript := script, actors := actors), rest)
  }

  function DecodeLevel(r: LevelRecord, ws: seq<Word>, resolve: Resolver): Read<LevelRecord> {
    if |ws| < 2 || !ws[0].NameWord? || !ws[1].BoolWord? then Fail
    else
      var named := r.(name := ws[0].name, overridesFilter := ws[1].flag);
      if !ws[1].flag then DecodeLevelActors(named, ws[2..], resolve)
      else if |ws| < 3 || !ws[2].FilterWord? then Fail
      else DecodeLevelActors(named.(filter := ws[2].filter), ws[3..], resolve)
  }

  // What a record keeps on the trip, and which records survive it

  function KeptObject(r: ObjectRecord): ObjectRecord {
    if r.cls.Some? then r else ObjectRecord(r.name, None, [], [])
  }

  function KeptComponent(r: ComponentRecord): ComponentRecord {
    if r.base.cls.Some? then r else ComponentRecord(KeptObject(r.base), IDENTITY)
  }

  function KeptComponents(rs: seq<ComponentRecord>): (kept: seq<ComponentRecord>)
    ensures |kept| == |rs| && forall i :: 0 <= i < |rs| ==> kept[i] == KeptComponent(rs[i])
  {
    if rs == [] then [] else [KeptComponent(rs[0])] + KeptComponents(rs[1..])
  }

  /** An actor's record keeps everything; only if it hardly moves are both its velocities dropped. */
  function KeptActor(r: ActorRecord): ActorRecord {
    if r.base.cls.None? then EMPTY_ACTOR.(base := KeptObject(r.base))
    else r.(linear := if IsMoving(r) then r.linear else ZERO_VECTOR,
            angular := if IsMoving(r) then r.angular else ZERO_VECTOR,
            components := KeptComponents(r.components))
  }

  function KeptActors(rs: seq<ActorRecord>): (kept: seq<ActorRecord>)
    ensures |kept| == |rs| && forall i :: 0 <= i < |rs| ==> kept[i] == KeptActor(rs[i])
  {
    if rs == [] then [] else [KeptActor(rs[0])] + KeptActors(rs[1..])
  }

  function KeptLevel(r: LevelRecord): LevelRecord {
    LevelRecord(r.name, r.overridesFilter, if r.overridesFilter then r.filter else EMPTY_FILTER,
                KeptActor(r.levelScript), KeptActors(r.actors))
  }

  /** A path names one class, or none that is loaded; no class is called "no class". */
  predicate Names(resolve: Resolver, cls: Option<Class>) {
    resolve(NO_CLASS_PATH).None? && (cls.Some? ==> resolve(cls.value.path) in {None, cls})
  }

  /** A record with a class has a name too, and the reader can resolve the class. */
  predicate Readable(r: ObjectRecord, resolve: Resolver) {
    r.cls.Some? ==> r.name != NAME_NONE && resolve(r.cls.value.path) == r.cls
  }

  predicate ReadableComponents(rs: seq<ComponentRecord>, resolve: Resolver) {
    forall i :: 0 <= i < |rs| ==> Readable(rs[i].base, resolve)
  }

  predicate ReadableActor(r: ActorRecord, resolve: Resolver) {
    Readable(r.base, resolve) && (r.base.cls.Some? ==> ReadableComponents(r.components, resolve))
  }

  predicate ReadableActors(rs: seq<ActorRecord>, resolve: Resolver) {
    forall i :: 0 <= i < |rs| ==> ReadableActor(rs[i], resolve)
  }

  predicate NamesComponents(rs: seq<ComponentRecord>, resolve: Resolver) {
    forall i :: 0 <= i < |rs| ==> Names(resolve, rs[i].base.cls)
  }

  predicate NamesActor(r: ActorRecord, resolve: Resolver) {
    Names(resolve, r.base.cls) && NamesComponents(r.components, resolve)
  }

  predicate NamesActors(rs: seq<ActorRecord>, resolve: Resolver) {
    forall i :: 0 <= i < |rs| ==> NamesActor(rs[i], resolve)
  }

  // The round trip, from the inside out

  lemma CountFirst(n: nat, ws: seq<Word>, s: seq<Word>)
    ensures ([CountWord(n)] + ws + s)[0] == CountWord(n)
    ensures ([CountWord(n)] + ws + s)[1..] == ws + s
  {
  }

  lemma BlobRoundTrip(b: Blob, s: seq<Word>)
    ensures DecodeBlob(EncodeBlob(b) + s) == Got(b, s)
  {
    var ws := EncodeBlob(b) + s;
    assert ws[1..1 + |b|] == b && ws[1 + |b|..] == s;
  }

  lemma {:induction false} NamesRoundTrip(tags: seq<Name>, s: seq<Word>)
    ensures DecodeNames(|tags|, NameWords(tags) + s) == Got(tags, s)
  {
    if tags == [] {
      assert NameWords(tags) + s == s;
    } else {
      var ws := NameWords(tags) + s;
      assert ws[1..] == NameWords(tags[1..]) + s;
      NamesRoundTrip(tags[1..], s);
      assert [tags[0]] + tags[1..] == tags;
    }
  }

  lemma ContentsRoundTrip(r: ObjectRecord, into: ObjectRecord, s: seq<Word>)
    requires r.name == into.name && r.cls == into.cls
    ensures DecodeContents(into, EncodeBlob(r.data) + EncodeTags(r.tags) + s) == Got(r, s)
  {
    var tagWords := EncodeTags(r.tags) + s;
    assert EncodeBlob(r.data) + EncodeTags(r.tags) + s == EncodeBlob(r.data) + tagWords;
    BlobRoundTrip(r.data, tagWords);
    assert tagWords[1..] == NameWords(r.tags) + s;
    NamesRoundTrip(r.tags, s);
  }

  /** Reading fails, or stops in front of contents it did not expect. */
  predicate Stuck<T>(read: Read<T>, s: seq<Word>) {
    read.Got? ==> |read.rest| > |s| && read.rest[0].CountWord?
  }

  /** The words of an object record: its name, its class if it has a name, and its contents if it has a class. */
  lemma ObjectWords(r: ObjectRecord, s: seq<Word>)
    ensures var ws := EncodeObject(r) + s;
            var contents := if r.cls.Some? then EncodeBlob(r.data) + EncodeTags(r.tags) + s else s;
            && |ws| > 0 && ws[0] == NameWord(r.name)
            && (r.name != NAME_NONE ==> |ws| > 1 && ws[1] == ClassWord(ClassPath(r.cls)) && ws[1..][1..] == contents)
            && (r.name == NAME_NONE ==> ws[1..] == contents)
  {
    hide EncodeBlob, EncodeTags;
  }

  /** An object record is read back, and nothing else consumed, if it is readable; otherwise the reader gets stuck. */
  lemma ObjectRoundTrip(r: ObjectRecord, s: seq<Word>, resolve: Resolver)
    requires Names(resolve, r.cls)
    ensures var read := DecodeObject(EMPTY_OBJECT, EncodeObject(r) + s, resolve);
            if Readable(r, resolve) then read == Got(KeptObject(r), s)
            else read.Got? && read.value.cls.None? && Stuck(read, s)
  {
    hide EncodeTags, DecodeContents, EncodeObject;
    ObjectWords(r, s);
    if !Readable(r, resolve) {
      assert (EncodeBlob(r.data) + EncodeTags(r.tags) + s)[0].CountWord?;
    } else if r.cls.Some? {
      ContentsRoundTrip(r, EMPTY_OBJECT.(name := r.name, cls := r.cls), s);
    }
  }

  lemma ComponentRoundTrip(r: ComponentRecord, s: seq<Word>, resolve: Resolver)
    requires Names(resolve, r.base.cls)
    ensures var read := DecodeComponent(EMPTY_COMPONENT, EncodeComponent(r) + s, resolve);
            if Readable(r.base, resolve) then read == Got(KeptComponent(r), s) else Stuck(read, s)
  {
    var tail := if r.base.cls.Some? then [TransformWord(r.transform)] else [];
    assert EncodeComponent(r) + s == EncodeObject(r.base) + (tail + s);
    ObjectRoundTrip(r.base, tail + s, resolve);
    if r.base.cls.None? {
      assert tail + s == s;
    } else {
      assert (tail + s)[1..] == s;
    }
  }

  lemma NoComponentAtACount(n: nat, ws: seq<Word>, resolve: Resolver)
    requires ws != [] && ws[0].CountWord?
    ensures DecodeComponentList(n, ws, resolve) == if n == 0 then Got([], ws) else Fail
  {
  }

  /** A list of components is read back exactly when each of them is readable. */
  lemma {:induction false} ComponentListRoundTrip(rs: seq<ComponentRecord>, s: seq<Word>, resolve: Resolver)
    requires NamesComponents(rs, resolve)
    ensures var read := DecodeComponentList(|rs|, ComponentWords(rs) + s, resolve);
            if ReadableComponents(rs, resolve) then read == Got(KeptComponents(rs), s) else Stuck(read, s)
  {
    hide EncodeComponent, DecodeComponent, KeptComponent;
    if rs == [] {
      assert ComponentWords(rs) + s == s;
    } else {
      var rest := ComponentWords(rs[1..]) + s;
      assert ComponentWords(rs) + s == EncodeComponent(rs[0]) + rest;
      ComponentRoundTrip(rs[0], rest, resolve);
      assert ReadableComponents(rs, resolve)
             <==> Readable(rs[0].base, resolve) && ReadableComponents(rs[1..], resolve) by {
        assert forall i :: 1 <= i < |rs| ==> rs[i] == rs[1..][i - 1];
      }
      if Readable(rs[0].base, resolve) {
        ComponentListRoundTrip(rs[1..], s, resolve);
      } else {
        var read := DecodeComponent(EMPTY_COMPONENT, EncodeComponent(rs[0]) + rest, resolve);
        if read.Got? {
          NoComponentAtACount(|rs| - 1, read.rest, resolve);
        }
      }
    }
  }

  lemma ComponentsRoundTrip(rs: seq<ComponentRecord>, s: seq<Word>, resolve: Resolver)
    requires NamesComponents(rs, resolve)
    ensures var read := DecodeComponents(EncodeComponents(rs) + s, resolve);
            if ReadableComponents(rs, resolve) then read == Got(KeptComponents(rs), s) else Stuck(read, s)
  {
    CountFirst(|rs|, ComponentWords(rs), s);
    ComponentListRoundTrip(rs, s, resolve);
  }

  lemma MotionRoundTrip(r: ActorRecord, into: ActorRecord, s: seq<Word>)
    requires into.linear == into.angular == ZERO_VECTOR
    ensures DecodeMotion(into, EncodeMotion(r) + s)
            == Got(into.(linear := if IsMoving(r) then r.linear else ZERO_VECTOR,
                         angular := if IsMoving(r) then r.angular else ZERO_VECTOR), s)
  {
    var ws := EncodeMotion(r) + s;
    if IsMoving(r) {
      assert ws[3..] == s;
    } else {
      assert ws[1..] == s;
    }
  }

  lemma ActorRestRoundTrip(r: ActorRecord, s: seq<Word>, resolve: Resolver)
    requires NamesComponents(r.components, resolve) && r.base.cls.Some?
    ensures var ws := [BoolWord(r.hidden), BoolWord(r.procedural), TransformWord(r.transform)]
                      + (EncodeMotion(r) + EncodeComponents(r.components)) + s;
            var read := DecodeActorRest(EMPTY_ACTOR.(base := r.base), ws, resolve);
            if ReadableComponents(r.components, resolve) then read == Got(KeptActor(r), s) else Stuck(read, s)
  {
    hide EncodeMotion, EncodeComponents, DecodeMotion, DecodeComponents, IsMoving;
    var flags := [BoolWord(r.hidden), BoolWord(r.procedural), TransformWord(r.transform)];
    var tail := EncodeComponents(r.components) + s;
    var ws := flags + (EncodeMotion(r) + EncodeComponents(r.components)) + s;
    assert ws == flags + (EncodeMotion(r) + tail);
    assert ws[3..] == EncodeMotion(r) + tail;
    var into := EMPTY_ACTOR.(base := r.base, hidden := r.hidden, procedural := r.procedural, transform := r.transform);
    MotionRoundTrip(r, into, tail);
    ComponentsRoundTrip(r.components, s, resolve);
  }

  /** An actor record is read back, up to velocities too small to store, exactly when it and its components are
      readable. */
  lemma ActorRoundTrip(r: ActorRecord, s: seq<Word>, resolve: Resolver)
    requires NamesActor(r, resolve)
    ensures var read := DecodeActor(EMPTY_ACTOR, EncodeActor(r) + s, resolve);
            if ReadableActor(r, resolve) then read == Got(KeptActor(r), s) else Stuck(read, s)
  {
    var tail := if r.base.cls.None? then []
                else [BoolWord(r.hidden), BoolWord(r.procedural), TransformWord(r.transform)]
                     + (EncodeMotion(r) + EncodeComponents(r.components));
    assert EncodeActor(r) + s == EncodeObject(r.base) + (tail + s);
    ObjectRoundTrip(r.base, tail + s, resolve);
    if r.base.cls.Some? {
      ActorRestRoundTrip(r, s, resolve);
    } else {
      assert tail + s == s;
    }
  }

  /** Beyond what counts as nearly zero. */
  predicate IsBeyond(v: Vector) {
    v.x < -0.0001 || v.x > 0.0001 || v.y < -0.0001 || v.y > 0.0001 || v.z < -0.0001 || v.z > 0.0001
  }

  /** Both velocities of an actor come back if any coordinate of either counts, and neither does otherwise; everything
      else of it comes back. */
  ghost predicate KeepsActor(r: ActorRecord, read: ActorRecord) {
    && read.base == r.base && read.hidden == r.hidden && read.procedural == r.procedural
    && read.transform == r.transform && |read.components| == |r.components|
    && (forall i :: 0 <= i < |r.components| && r.components[i].base.cls.Some? ==> read.components[i] == r.components[i])
    && if IsBeyond(r.linear) || IsBeyond(r.angular) then read.linear == r.linear && read.angular == r.angular
       else read.linear == ZERO_VECTOR && read.angular == ZERO_VECTOR
  }

  lemma KeptActorKeeps(r: ActorRecord)
    requires r.base.cls.Some?
    ensures KeepsActor(r, KeptActor(r))
  {
    assert !IsBeyond(ZERO_VECTOR);
  }

  /** So it is with what is read of an actor from the file. */
  lemma MotionSurvivesTheFile(r: ActorRecord, s: seq<Word>, resolve: Resolver)
    requires NamesActor(r, resolve) && ReadableActor(r, resolve) && r.base.cls.Some?
    ensures var read := DecodeActor(EMPTY_ACTOR, EncodeActor(r) + s, resolve);
            read.Got? && read.rest == s && KeepsActor(r, read.value)
  {
    hide EncodeActor, DecodeActor;
    ActorRoundTrip(r, s, resolve);
    KeptActorKeeps(r);
  }

  lemma NoActorAtACount(n: nat, ws: seq<Word>, resolve: Resolver)
    requires ws != [] && ws[0].CountWord?
    ensures DecodeActorList(n, ws, resolve) == if n == 0 then Got([], ws) else Fail
  {
  }

  lemma {:induction false} ActorListRoundTrip(rs: seq<ActorRecord>, s: seq<Word>, resolve: Resolver)
    requires NamesActors(rs, resolve)
    ensures var read := DecodeActorList(|rs|, ActorWords(rs) + s, resolve);
            if ReadableActors(rs, resolve) then read == Got(KeptActors(rs), s) else Stuck(read, s)
  {
    hide EncodeActor, DecodeActor, KeptActor;
    if rs == [] {
      assert ActorWords(rs) + s == s;
    } else {
      var rest := ActorWords(rs[1..]) + s;
      assert ActorWords(rs) + s == EncodeActor(rs[0]) + rest;
      ActorRoundTrip(rs[0], rest, resolve);
      assert ReadableActors(rs, resolve) <==> ReadableActor(rs[0], resolve) && ReadableActors(rs[1..], resolve) by {
        assert forall i :: 1 <= i < |rs| ==> rs[i] == rs[1..][i - 1];
      }
      if ReadableActor(rs[0], resolve) {
        ActorListRoundTrip(rs[1..], s, resolve);
      } else {
        var read := DecodeActor(EMPTY_ACTOR, EncodeActor(rs[0]) + rest, resolve);
        if read.Got? {
          NoActorAtACount(|rs| - 1, read.rest, resolve);
        }
      }
    }
  }

  /** The actors of a level are read back exactly when all of them are readable. */
  lemma ActorsRoundTrip(rs: seq<ActorRecord>, s: seq<Word>, resolve: Resolver)
    requires NamesActors(rs, resolve)
    ensures var read := DecodeActors(EncodeActors(rs) + s, resolve);
            if ReadableActors(rs, resolve) then read == Got(KeptActors(rs), s) else Stuck(read, s)
    ensures DecodeActors(EncodeActors(rs) + s, resolve) == Got(KeptActors(rs), s) <==> ReadableActors(rs, resolve)
  {
    CountFirst(|rs|, ActorWords(rs), s);
    ActorListRoundTrip(rs, s, resolve);
  }

  /** A level record whose script record is readable is read back exactly when its actors are readable. */
  lemma LevelRoundTrip(r: LevelRecord, s: seq<Word>, resolve: Resolver)
    requires NamesActor(r.levelScript, resolve) && NamesActors(r.actors, resolve)
             && ReadableActor(r.levelScript, resolve)
    ensures var read := DecodeLevel(EMPTY_LEVEL, EncodeLevel(r) + s, resolve);
            if ReadableActors(r.actors, resolve) then read == Got(KeptLevel(r), s) else Stuck(read, s)
  {
    hide EncodeActor, DecodeActor, EncodeActors, DecodeActors, KeptActor, KeptActors;
    var head := [NameWord(r.name), BoolWord(r.overridesFilter)];
    var filter := if r.overridesFilter then [FilterWord(r.filter)] else [];
    var tail := EncodeActors(r.actors) + s;
    var ws := EncodeLevel(r) + s;
    assert ws == head + (filter + (EncodeActor(r.levelScript) + tail));
    if r.overridesFilter {
      assert ws[2] == FilterWord(r.filter) && ws[3..] == EncodeActor(r.levelScript) + tail;
    } else {
      assert ws[2..] == EncodeActor(r.levelScript) + tail;
    }
    ActorRoundTrip(r.levelScript, tail, resolve);
    ActorsRoundTrip(r.actors, s, resolve);
  }

  function LevelWords(rs: seq<LevelRecord>): seq<Word> {
    if rs == [] then [] else EncodeLevel(rs[0]) + LevelWords(rs[1..])
  }

  function EncodeLevels(rs: seq<LevelRecord>): seq<Word> {
    [CountWord(|rs|)] + LevelWords(rs)
  }

  function EncodeSlot(d: Slot): seq<Word> {
    [NameWord(d.mapName), RealWord(d.timeSeconds), BoolWord(d.storeGameInstance)]
    + (EncodeObject(d.gameInstance)
       + ([FilterWord(d.generalFilter)] + (EncodeLevel(d.mainLevel) + EncodeLevels(d.subLevels))))
  }

  function DecodeLevelList(n: nat, ws: seq<Word>, resolve: Resolver): Read<seq<LevelRecord>> {
    if n == 0 then Got([], ws)
    else match DecodeLevel(EMPTY_LEVEL, ws, resolve)
         case Fail => Fail
         case Got(first, rest) =>
           match DecodeLevelList(n - 1, rest, resolve)
           case Fail => Fail
           case Got(others, rest) => Got([first] + others, rest)
  }

  function DecodeLevels(ws: seq<Word>, resolve: Resolver): Read<seq<LevelRecord>> {
    if ws == [] || !ws[0].CountWord? then Fail else DecodeLevelList(ws[0].count, ws[1..], resolve)
  }

  function DecodeSlotLevels(d: Slot, ws: seq<Word>, resolve: Resolver): Read<Slot> {
    match DecodeLevel(d.mainLevel, ws, resolve)
    case Fail => Fail
    case Got(mainLevel, rest) =>
      match DecodeLevels(rest, resolve)
      case Fail => Fail
      case Got(subLevels, rest) => Got(d.(mainLevel := mainLevel, subLevels := subLevels), rest)
  }

  function DecodeSlotRest(d: Slot, ws: seq<Word>, resolve: Resolver): Read<Slot> {
    match DecodeObject(d.gameInstance, ws, resolve)
    case Fail => Fail
    case Got(gameInstance, rest) =>
      if rest == [] || !rest[0].FilterWord? then Fail
      else DecodeSlotLevels(d.(gameInstance := gameInstance, generalFilter := rest[0].filter), rest[1..], resolve)
  }

  function DecodeSlot(d: Slot, ws: seq<Word>, resolve: Resolver): Read<Slot> {
    if |ws| < 3 || !ws[0].NameWord? || !ws[1].RealWord? || !ws[2].BoolWord? then Fail
    else DecodeSlotRest(d.(mapName := ws[0].name, timeSeconds := ws[1].amount, storeGameInstance := ws[2].flag),
                        ws[3..], resolve)
  }

  function KeptLevels(rs: seq<LevelRecord>): (kept: seq<LevelRecord>)
    ensures |kept| == |rs| && forall i :: 0 <= i < |rs| ==> kept[i] == KeptLevel(rs[i])
  {
    if rs == [] then [] else [KeptLevel(rs[0])] + KeptLevels(rs[1..])
  }

  function KeptSlot(d: Slot): Slot {
    d.(gameInstance := KeptObject(d.gameInstance), mainLevel := KeptLevel(d.mainLevel),
       subLevels := KeptLevels(d.subLevels))
  }

  predicate GoodLevel(r: LevelRecord, resolve: Resolver) {
    && NamesActor(r.levelScript, resolve) && NamesActors(r.actors, resolve)
    && ReadableActor(r.levelScript, resolve) && ReadableActors(r.actors, resolve)
  }

  predicate GoodSlot(d: Slot, resolve: Resolver) {
    && Names(resolve, d.gameInstance.cls) && Readable(d.gameInstance, resolve)
    && GoodLevel(d.mainLevel, resolve)
    && forall i :: 0 <= i < |d.subLevels| ==> GoodLevel(d.subLevels[i], resolve)
  }

  lemma {:induction false} LevelListRoundTrip(rs: seq<LevelRecord>, s: seq<Word>, resolve: Resolver)
    requires forall i :: 0 <= i < |rs| ==> GoodLevel(rs[i], resolve)
    ensures DecodeLevelList(|rs|, LevelWords(rs) + s, resolve) == Got(KeptLevels(rs), s)
  {
    hide EncodeLevel, DecodeLevel, KeptLevel;
    if rs == [] {
      assert LevelWords(rs) + s == s;
    } else {
      var rest := LevelWords(rs[1..]) + s;
      assert LevelWords(rs) + s == EncodeLevel(rs[0]) + rest;
      LevelRoundTrip(rs[0], rest, resolve);
      LevelListRoundTrip(rs[1..], s, resolve);
    }
  }

  lemma LevelsRoundTrip(rs: seq<LevelRecord>, s: seq<Word>, resolve: Resolver)
    requires forall i :: 0 <= i < |rs| ==> GoodLevel(rs[i], resolve)
    ensures DecodeLevels(EncodeLevels(rs) + s, resolve) == Got(KeptLevels(rs), s)
  {
    CountFirst(|rs|, LevelWords(rs), s);
    LevelListRoundTrip(rs, s, resolve);
  }

  /** Only the name of a level record is overwritten before it is read, so the main level reads like any other. */
  lemma MainLevelReadsAlike(r: LevelRecord, ws: seq<Word>, resolve: Resolver)
    requires r == EMPTY_LEVEL.(name := r.name)
    ensures DecodeLevel(r, ws, resolve) == DecodeLevel(EMPTY_LEVEL, ws, resolve)
  {
  }

  lemma SlotLevelsRoundTrip(d: Slot, into: Slot, s: seq<Word>, resolve: Resolver)
    requires GoodSlot(d, resolve) && into.mainLevel == EMPTY_SLOT.mainLevel
    ensures DecodeSlotLevels(into, EncodeLevel(d.mainLevel) + (EncodeLevels(d.subLevels) + s), resolve)
            == Got(into.(mainLevel := KeptLevel(d.mainLevel), subLevels := KeptLevels(d.subLevels)), s)
  {
    var levels := EncodeLevels(d.subLevels) + s;
    MainLevelReadsAlike(EMPTY_SLOT.mainLevel, EncodeLevel(d.mainLevel) + levels, resolve);
    LevelRoundTrip(d.mainLevel, levels, resolve);
    LevelsRoundTrip(d.subLevels, s, resolve);
  }

  lemma SlotRestRoundTrip(d: Slot, into: Slot, s: seq<Word>, resolve: Resolver)
    requires GoodSlot(d, resolve) && into.mainLevel == EMPTY_SLOT.mainLevel && into.gameInstance == EMPTY_OBJECT
    ensures DecodeSlotRest(into, EncodeObject(d.gameInstance) + ([FilterWord(d.generalFilter)]
                                   + (EncodeLevel(d.mainLevel) + (EncodeLevels(d.subLevels) + s))), resolve)
            == Got(into.(gameInstance := KeptObject(d.gameInstance), generalFilter := d.generalFilter,
                         mainLevel := KeptLevel(d.mainLevel), subLevels := KeptLevels(d.subLevels)), s)
  {
    var levels := EncodeLevel(d.mainLevel) + (EncodeLevels(d.subLevels) + s);
    var filtered := [FilterWord(d.generalFilter)] + levels;
    ObjectRoundTrip(d.gameInstance, filtered, resolve);
    assert filtered[1..] == levels;
    SlotLevelsRoundTrip(
      d, into.(gameInstance := KeptObject(d.gameInstance), generalFilter := d.generalFilter), s, resolve);
  }

  function SlotTail(d: Slot, s: seq<Word>): seq<Word> {
    EncodeObject(d.gameInstance) + ([FilterWord(d.generalFilter)]
                                    + (EncodeLevel(d.mainLevel) + (EncodeLevels(d.subLevels) + s)))
  }

  lemma SlotWords(d: Slot, s: seq<Word>)
    ensures var ws := EncodeSlot(d) + s;
            && |ws| >= 3 && ws[3..] == SlotTail(d, s)
            && ws[0] == NameWord(d.mapName) && ws[1] == RealWord(d.timeSeconds)
            && ws[2] == BoolWord(d.storeGameInstance)
  {
    hide EncodeObject, EncodeLevel, EncodeLevels;
    var head := [NameWord(d.mapName), RealWord(d.timeSeconds), BoolWord(d.storeGameInstance)];
    assert EncodeSlot(d) + s == head + SlotTail(d, s);
  }

  /** A whole slot, read back from what was written, followed by anything. */
  lemma SlotRoundTrip(d: Slot, s: seq<Word>, resolve: Resolver)
    requires GoodSlot(d, resolve)
    ensures DecodeSlot(EMPTY_SLOT, EncodeSlot(d) + s, resolve) == Got(KeptSlot(d), s)
  {
    SlotWords(d, s);
    SlotRestRoundTrip(
      d, EMPTY_SLOT.(mapName := d.mapName, timeSeconds := d.timeSeconds, storeGameInstance := d.storeGameInstance), s,
        resolve);
  }

  /** So it is with all of a slot that a save makes: its levels come back under their names and filters, and with their
      actors. */
  lemma SlotSurvivesTheFile(d: Slot, s: seq<Word>, resolve: Resolver)
    requires GoodSlot(d, resolve) && d.gameInstance.cls.Some?
    ensures var read := DecodeSlot(EMPTY_SLOT, EncodeSlot(d) + s, resolve);
            && read.Got? && read.rest == s
            && read.value.mapName == d.mapName && read.value.timeSeconds == d.timeSeconds
            && read.value.storeGameInstance == d.storeGameInstance && read.value.gameInstance == d.gameInstance
            && read.value.generalFilter == d.generalFilter
            && KeepsLevel(d.mainLevel, read.value.mainLevel) && |read.value.subLevels| == |d.subLevels|
            && forall k :: 0 <= k < |d.subLevels| ==> KeepsLevel(d.subLevels[k], read.value.subLevels[k])
  {
    hide EncodeSlot, DecodeSlot, KeepsLevel, KeptLevel;
    SlotRoundTrip(d, s, resolve);
    KeptLevelKeeps(d.mainLevel);
    forall k | 0 <= k < |d.subLevels|
      ensures KeepsLevel(d.subLevels[k], KeptLevel(d.subLevels[k]))
    {
      KeptLevelKeeps(d.subLevels[k]);
    }
  }

  ghost predicate KeepsLevel(r: LevelRecord, read: LevelRecord) {
    && read.name == r.name && read.overridesFilter == r.overridesFilter
    && (r.overridesFilter ==> read.filter == r.filter)
    && (r.levelScript.base.cls.Some? ==> KeepsActor(r.levelScript, read.levelScript))
    && |read.actors| == |r.actors|
    && forall j :: 0 <= j < |r.actors| && r.actors[j].base.cls.Some? ==> KeepsActor(r.actors[j], read.actors[j])
  }

  lemma KeptLevelKeeps(r: LevelRecord)
    ensures KeepsLevel(r, KeptLevel(r))
  {
    hide KeptActor, KeepsActor;
    if r.levelScript.base.cls.Some? {
      KeptActorKeeps(r.levelScript);
    }
    forall j | 0 <= j < |r.actors| && r.actors[j].base.cls.Some?
      ensures KeepsActor(r.actors[j], KeptActor(r.actors[j]))
    {
      KeptActorKeeps(r.actors[j]);
    }
  }
}
