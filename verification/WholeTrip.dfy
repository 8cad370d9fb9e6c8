/** The whole trip: a world saved by concurrent tasks, written to a file, read back, and restored into a changed
    level. */
module WholeTrip {
  import opened Engine
  import opened Actors
  import opened Saver
  import opened WorldSaving
  import opened Codec
  import opened SaveFiles
  import opened Levels
  import opened Loading
  import opened RoundTrip
  import opened Restoring

  /** An actor as the file keeps it: at rest, if what its record says of its motion is next to nothing. */
  function Settled(a: Actor, f: LevelFilter): Actor {
    if IsMoving(RecordOf(a, f)) then a else a.(linear := ZERO_VECTOR, angular := ZERO_VECTOR)
  }

  function AllSettled(actors: ActorArray, f: LevelFilter): (settled: ActorArray)
    ensures |settled| == |actors|
    ensures forall i :: 0 <= i < |actors| ==>
              settled[i] == if actors[i].Some? then Some(Settled(actors[i].value, f)) else None
  {
    seq(|actors|, i requires 0 <= i < |actors| => if actors[i].Some? then Some(Settled(actors[i].value, f)) else None)
  }

  lemma {:induction false} ComponentsAreKept(cs: seq<Component>, f: LevelFilter)
    ensures KeptComponents(ComponentRecordsOf(cs, f)) == ComponentRecordsOf(cs, f)
  {
    if cs != [] {
      ComponentsAreKept(cs[1..], f);
      var rest := ComponentRecordsOf(cs[1..], f);
      if f.ShouldSaveComponent(cs[0]) {
        assert ([ComponentRecordOf(cs[0])] + rest)[1..] == rest;
      } else {
        assert [] + rest == rest;
      }
    }
  }

  /** What the file keeps of an actor's record is the record of the settled actor. */
  lemma SettledIsKept(a: Actor, f: LevelFilter)
    ensures RecordOf(Settled(a, f), f) == KeptActor(RecordOf(a, f))
    ensures f.ShouldSave(Settled(a, f)) == f.ShouldSave(a)
  {
    hide KeptTags, OnlySaveTags, ComponentRecordsOf;
    ComponentsAreKept(a.components, f);
    if f.storeComponents {
      assert RecordOf(a, f).components == ComponentRecordsOf(a.components, f);
    } else {
      assert KeptComponents([]) == [];
    }
  }

  /** An actor is put to rest exactly if no coordinate of what is stored of its motion counts. */
  lemma RestMeansNoMotion(a: Actor, f: LevelFilter)
    ensures Settled(a, f)
            == if (StoresLinear(a) && IsBeyond(a.linear)) || (StoresAngular(a) && IsBeyond(a.angular)) then a
               else a.(linear := ZERO_VECTOR, angular := ZERO_VECTOR)
  {
    hide ComponentRecordsOf;
    assert !IsBeyond(ZERO_VECTOR);
  }

  lemma {:induction false} AllSettledAreKept(actors: ActorArray, f: LevelFilter)
    ensures SavedActors(AllSettled(actors, f), f) == KeptActors(SavedActors(actors, f))
  {
    hide RecordOf, Settled, KeptActor, LevelFilter.ShouldSave;
    if actors != [] {
      if actors[0].Some? {
        SettledIsKept(actors[0].value, f);
      }
      AllSettledAreKept(actors[1..], f);
      assert AllSettled(actors, f)[1..] == AllSettled(actors[1..], f);
      var rest := SavedActors(actors[1..], f);
      if actors[0].Some? && f.ShouldSave(actors[0].value) {
        var first := RecordOf(actors[0].value, f);
        assert ([first] + rest)[1..] == rest;
      } else {
        assert [] + rest == rest;
      }
    }
  }

  /** What the file keeps of a saved level are the records of its settled actors, under the same filter. */
  lemma FileKeepsTheLevel(general: LevelFilter, was: LevelRecord, actors: ActorArray)
    ensures var f := FilterOf(general, was);
            var kept := KeptLevel(SavedLevel(general, was, actors));
            kept.actors == SavedActors(AllSettled(actors, f), f) && FilterOf(general, kept) == f
  {
    AllSettledAreKept(actors, FilterOf(general, was));
  }

  // What was saved of a level

  /** The filter a streaming level is saved under: its record's own, if it has a record that overrides the general
      one. */
  function StreamingFilter(was: Slot, name: Name): LevelFilter {
    match FindLevel(was.subLevels, name)
    case None => was.generalFilter
    case Some(k) => FilterOf(was.generalFilter, was.subLevels[k])
  }

  /** Saving keeps the names of the records there were. */
  lemma NamesStay(was: Slot, now: Slot, streaming: seq<StreamingLevel>, k: nat)
    requires SubLevelsSaved(was.generalFilter, was.subLevels, now.subLevels, streaming) && k < |was.subLevels|
    ensures now.subLevels[k].name == was.subLevels[k].name
  {
    hide SavedActors, FindLevel;
    if IsLoadedRecord(now.subLevels, streaming, k) {
      var i :| 0 <= i < |streaming| && streaming[i].loaded && FindLevel(now.subLevels, streaming[i].name) == Some(k);
    }
  }

  /** The record a loaded streaming level was saved into: the one it had, if any. */
  lemma StreamingLevelIsSaved(was: Slot, now: Slot, streaming: seq<StreamingLevel>, i: nat)
    returns (k: nat, before: LevelRecord)
    requires SubLevelsSaved(was.generalFilter, was.subLevels, now.subLevels, streaming)
    requires i < |streaming| && streaming[i].loaded
    ensures FindLevel(now.subLevels, streaming[i].name) == Some(k)
    ensures now.subLevels[k] == SavedLevel(was.generalFilter, before, streaming[i].actors)
    ensures FilterOf(was.generalFilter, before) == StreamingFilter(was, streaming[i].name)
  {
    hide SavedLevel, FindLevel;
    var name := streaming[i].name;
    k := FindLevel(now.subLevels, name).value;
    before := if k < |was.subLevels| then was.subLevels[k] else EMPTY_LEVEL.(name := name);
    forall j: nat | j < |was.subLevels|
      ensures now.subLevels[j].name == was.subLevels[j].name
    {
      NamesStay(was, now, streaming, j);
    }
    var found := FindLevel(was.subLevels, name);
    assert found.Some? ==> now.subLevels[found.value].name == name;
    assert k < |was.subLevels| ==> found == Some(k);
  }

  /** An actor that spun or moved when its level was saved does so again once that is loaded from the file, provided its
      root is one that can and its tags do not forbid it: even if it only spun in place. */
  lemma MotionComesBack(actors: ActorArray, before: ActorArray, ready: ActorArray, after: ActorArray,
                        home: map<nat, nat>, taken: set<Name>, spawning: Spawning, f: LevelFilter, i: nat)
    requires IsRestoration(AllSettled(actors, f), before, ready, after, home, taken, spawning, f) && i in home
    requires i < |actors| && actors[i].Some? && actors[i].value.blob != []
    requires actors[i].value.root == MovablePrimitiveRoot
    requires "!SaveTransform" !in actors[i].value.tags && "!SavePhysics" !in actors[i].value.tags
    requires home[i] < |ready| && ready[home[i]].Some? && ready[home[i]].value.root == MovablePrimitiveRoot
    requires IsBeyond(actors[i].value.linear) || IsBeyond(actors[i].value.angular)
    ensures home[i] < |after| && after[home[i]].Some?
    ensures after[home[i]].value.linear == actors[i].value.linear
            && after[home[i]].value.angular == actors[i].value.angular
  {
    hide GotReady, KeepsNames, RestoresInPlace, LevelFilter.ShouldSave, CarriesComponents, RecordOf, IsBeyond;
    RestMeansNoMotion(actors[i].value, f);
  }

  // Records made by a save can be read back

  predicate IsResolvableComponent(c: Component, resolve: Resolver) {
    c.name != NAME_NONE && resolve(c.cls.path) == Some(c.cls)
  }

  /** The reader can make sense of what is saved of an actor: it and its components have names, and their classes are
      loaded. */
  predicate IsResolvable(a: Actor, f: LevelFilter, resolve: Resolver) {
    && a.name != NAME_NONE && resolve(a.cls.path) == Some(a.cls)
    && (f.storeComponents ==>
          forall i :: 0 <= i < |a.components| && f.ShouldSaveComponent(a.components[i])
                      ==> IsResolvableComponent(a.components[i], resolve))
  }

  predicate AreResolvable(actors: ActorArray, f: LevelFilter, resolve: Resolver) {
    forall i :: 0 <= i < |actors| && actors[i].Some? && f.ShouldSave(actors[i].value)
                ==> IsResolvable(actors[i].value, f, resolve)
  }

  /** The reader can make sense of all that is saved of a world into a slot. */
  predicate IsResolvableWorld(was: Slot, persistent: ActorArray, streaming: seq<StreamingLevel>, resolve: Resolver) {
    && resolve(NO_CLASS_PATH).None?
    && AreResolvable(persistent, FilterOf(was.generalFilter, was.mainLevel), resolve)
    && forall i :: 0 <= i < |streaming| && streaming[i].loaded
                   ==> AreResolvable(streaming[i].actors, StreamingFilter(was, streaming[i].name), resolve)
  }

  lemma {:induction false} SavedComponentsAreGood(cs: seq<Component>, f: LevelFilter, resolve: Resolver)
    requires resolve(NO_CLASS_PATH).None?
    requires forall i :: 0 <= i < |cs| && f.ShouldSaveComponent(cs[i]) ==> IsResolvableComponent(cs[i], resolve)
    ensures ReadableComponents(ComponentRecordsOf(cs, f), resolve)
            && NamesComponents(ComponentRecordsOf(cs, f), resolve)
  {
    if cs != [] {
      SavedComponentsAreGood(cs[1..], f, resolve);
    }
  }

  lemma {:induction false} SavedActorsAreGood(actors: ActorArray, f: LevelFilter, resolve: Resolver)
    requires resolve(NO_CLASS_PATH).None? && AreResolvable(actors, f, resolve)
    ensures ReadableActors(SavedActors(actors, f), resolve) && NamesActors(SavedActors(actors, f), resolve)
  {
    if actors != [] {
      SavedActorsAreGood(actors[1..], f, resolve);
      if actors[0].Some? && f.ShouldSave(actors[0].value) && f.storeComponents {
        SavedComponentsAreGood(actors[0].value.components, f, resolve);
      }
    }
  }

  lemma SavedLevelIsGood(general: LevelFilter, was: LevelRecord, actors: ActorArray, resolve: Resolver)
    requires resolve(NO_CLASS_PATH).None? && AreResolvable(actors, FilterOf(general, was), resolve)
    ensures GoodLevel(SavedLevel(general, was, actors), resolve)
  {
    SavedActorsAreGood(actors, FilterOf(general, was), resolve);
  }

  /** A slot saved from a world whose saved classes are all loaded can be read back. */
  lemma SavedSlotIsGood(was: Slot, now: Slot, persistent: ActorArray, streaming: seq<StreamingLevel>, resolve: Resolver)
    requires IsResolvableWorld(was, persistent, streaming, resolve)
    requires forall k :: 0 <= k < |was.subLevels| ==> GoodLevel(was.subLevels[k], resolve)
    requires Names(resolve, now.gameInstance.cls) && Readable(now.gameInstance, resolve)
    requires now.mainLevel == SavedLevel(was.generalFilter, was.mainLevel, persistent)
    requires SubLevelsSaved(was.generalFilter, was.subLevels, now.subLevels, streaming)
    ensures GoodSlot(now, resolve)
  {
    hide SavedLevel, GoodLevel, AreResolvable, FindLevel, StreamingFilter;
    SavedLevelIsGood(was.generalFilter, was.mainLevel, persistent, resolve);
    forall k | 0 <= k < |now.subLevels|
      ensures GoodLevel(now.subLevels[k], resolve)
    {
      if IsLoadedRecord(now.subLevels, streaming, k) {
        var i :| 0 <= i < |streaming| && streaming[i].loaded && FindLevel(now.subLevels, streaming[i].name) == Some(k);
        var k', before := StreamingLevelIsSaved(was, now, streaming, i);
        SavedLevelIsGood(was.generalFilter, before, streaming[i].actors, resolve);
      }
    }
  }

  // What is read back

  /** The record of a loaded streaming level is found in what is read back, as a save of its settled actors. */
  lemma StreamingLevelComesBack(was: Slot, now: Slot, streaming: seq<StreamingLevel>, i: nat)
    requires SubLevelsSaved(was.generalFilter, was.subLevels, now.subLevels, streaming)
    requires i < |streaming| && streaming[i].loaded
    ensures var back := KeptLevels(now.subLevels);
            var found := FindLevel(back, streaming[i].name);
            var f := StreamingFilter(was, streaming[i].name);
            && found.Some? && FilterOf(was.generalFilter, back[found.value]) == f
            && back[found.value].actors == SavedActors(AllSettled(streaming[i].actors, f), f)
  {
    hide SavedLevel, FindLevel, SavedActors;
    var k, before := StreamingLevelIsSaved(was, now, streaming, i);
    SameNamesFindTheSame(now.subLevels, KeptLevels(now.subLevels));
    FileKeepsTheLevel(was.generalFilter, before, streaming[i].actors);
  }

  /** The slot a save starts from, under the filter it saves with. */
  ghost function Before(slot: SlotData, settings: SlotSettings): Slot
    reads slot
  {
    slot.View().(generalFilter := settings.filter)
  }

  /** A world is saved into a slot, which is written to a file and read back. */
  method SaveAndReadBack(saver: WorldSaver, settings: SlotSettings, persistent: ActorArray,
                         streaming: seq<StreamingLevel>, workers: nat, info: Blob, zip: Zip, compressed: bool,
                         default: File, resolve: Resolver, suffix: seq<Word>)
    returns (back: Slot)
    requires saver.tasks == [] && DistinctNames(streaming)
    requires IsResolvableWorld(Before(saver.slot, settings), persistent, streaming, resolve)
    requires forall k :: 0 <= k < |saver.slot.subLevels| ==> GoodLevel(saver.slot.subLevels[k], resolve)
    requires saver.gameInstance.Some? ==>
               Names(resolve, saver.gameInstance.value.cls) && Readable(saver.gameInstance.value, resolve)
    requires Inverts(zip) && default.fileTypeTag == FILE_TYPE_TAG && default.fileVersion >= ADDED_CUSTOM_VERSIONS
    modifies saver`tasks, saver.slot
    ensures back == KeptSlot(saver.slot.View()) && back.generalFilter == settings.filter
    ensures back.mainLevel == KeptLevel(SavedLevel(settings.filter, old(saver.slot.mainLevel), persistent))
    ensures SubLevelsSaved(settings.filter, old(saver.slot.subLevels), saver.slot.subLevels, streaming)
  {
    hide KeptLevel, SavedLevel, SavedActors, GoodLevel, SubLevelsSaved, AreResolvable;
    ghost var was := Before(saver.slot, settings);
    saver.SerializeSlot(persistent, streaming, workers, true, settings);
    SavedSlotIsGood(was, saver.slot.View(), persistent, streaming, resolve);
    var backInfo;
    back, backInfo :=
      SaveAndLoad(saver.slot.View(), info, "SlotInfo", "SlotData", zip, compressed, default, resolve, suffix);
  }

  // Which record a level is loaded from

  /** The loaded one among the streaming levels with a given name. */
  function FindStreaming(streaming: seq<StreamingLevel>, name: Name): (r: Option<nat>)
    ensures r.Some? ==> r.value < |streaming| && streaming[r.value].loaded && streaming[r.value].name == name
    ensures r.None? ==> forall i :: 0 <= i < |streaming| && streaming[i].loaded ==> streaming[i].name != name
  {
    FindFirst(streaming, (level: StreamingLevel) => level.loaded && level.name == name)
  }

  /** A world as it was when it was saved: the slot before the save, the levels there were, and what an earlier save had
      found in levels that were not loaded any more. */
  datatype Past = Past(was: Slot, persistent: ActorArray, streaming: seq<StreamingLevel>, earlier: Name -> ActorArray)
  {
    /** The filter of a level; the main level has no name here. */
    function FilterFor(name: Option<Name>): LevelFilter {
      match name
      case None => FilterOf(was.generalFilter, was.mainLevel)
      case Some(n) => StreamingFilter(was, n)
    }

    /** What the record of a level was made from, if it has one. */
    function SavedOf(name: Option<Name>): Option<ActorArray> {
      match name
      case None => Some(persistent)
      case Some(n) =>
        match FindStreaming(streaming, n)
        case Some(i) => Some(streaming[i].actors)
        case None => if FindLevel(was.subLevels, n).Some? then Some(earlier(n)) else None
    }

    /** What a file keeps of that. */
    function KeptOf(name: Option<Name>): Option<ActorArray> {
      match SavedOf(name)
      case None => None
      case Some(actors) => Some(AllSettled(actors, FilterFor(name)))
    }

    /** The record of a level that was not loaded comes from an earlier save of it. */
    predicate HasRecordFromASave(name: Option<Name>) {
      name.Some? && FindStreaming(streaming, name.value).None? && FindLevel(was.subLevels, name.value).Some? ==>
        was.subLevels[FindLevel(was.subLevels, name.value).value].actors
        == SavedActors(earlier(name.value), FilterFor(name))
    }

    /** The world has been saved into a slot, and this is what has been read back. */
    ghost predicate IsReadBack(back: Slot, now: Slot) {
      && back.generalFilter == was.generalFilter && back.subLevels == KeptLevels(now.subLevels)
      && back.mainLevel == KeptLevel(SavedLevel(was.generalFilter, was.mainLevel, persistent))
      && SubLevelsSaved(was.generalFilter, was.subLevels, now.subLevels, streaming)
    }
  }

  /** A level that was not loaded still has the record it had, if any. */
  lemma UnloadedKeepsItsRecord(past: Past, now: Slot, name: Name)
    requires SubLevelsSaved(past.was.generalFilter, past.was.subLevels, now.subLevels, past.streaming)
    requires FindStreaming(past.streaming, name).None?
    ensures var k := FindLevel(now.subLevels, name);
            && k == FindLevel(past.was.subLevels, name)
            && (k.Some? ==> now.subLevels[k.value] == past.was.subLevels[k.value])
  {
    hide SavedLevel, FindLevel, FindStreaming;
    forall k: nat | k < |past.was.subLevels|
      ensures now.subLevels[k].name == past.was.subLevels[k].name
    {
      NamesStay(past.was, now, past.streaming, k);
    }
    var k, before := FindLevel(now.subLevels, name), FindLevel(past.was.subLevels, name);
    assert k.Some? ==> !IsLoadedRecord(now.subLevels, past.streaming, k.value);
    assert before.Some? ==> now.subLevels[before.value].name == name;
  }

  lemma RecordComesBack(general: LevelFilter, r: LevelRecord, earlier: ActorArray)
    requires r.actors == SavedActors(earlier, FilterOf(general, r))
    ensures var f := FilterOf(general, r);
            FilterOf(general, KeptLevel(r)) == f && KeptLevel(r).actors == SavedActors(AllSettled(earlier, f), f)
  {
    AllSettledAreKept(earlier, FilterOf(general, r));
  }

  /** Whatever level has a record among those read back: it is the save of its settled actors, this one or an earlier
      one; and if nothing was saved of it ever, it has none. */
  lemma LevelComesBack(past: Past, back: Slot, now: Slot, name: Name)
    requires past.IsReadBack(back, now) && past.HasRecordFromASave(Some(name))
    ensures var found := FindLevel(back.subLevels, name);
            var kept := past.KeptOf(Some(name));
            var f := past.FilterFor(Some(name));
            && (found.Some? <==> kept.Some?)
            && (found.None? ==> f == back.generalFilter)
            && (found.Some? ==> FilterOf(back.generalFilter, back.subLevels[found.value]) == f
                                && back.subLevels[found.value].actors == SavedActors(kept.value, f))
  {
    hide SavedLevel, FindLevel, SavedActors, SubLevelsSaved, FindStreaming;
    var i := FindStreaming(past.streaming, name);
    if i.Some? {
      StreamingLevelComesBack(past.was, now, past.streaming, i.value);
    } else {
      UnloadedKeepsItsRecord(past, now, name);
      SameNamesFindTheSame(now.subLevels, back.subLevels);
      var k := FindLevel(now.subLevels, name);
      if k.Some? {
        RecordComesBack(past.was.generalFilter, now.subLevels[k.value], past.earlier(name));
      }
    }
  }

  /** The entry of a level, under the record found for it: its own for the main level, one by name for another. */
  method EntryOf(back: Slot, level: Level, name: Option<Name>) returns (e: LevelEntry)
    ensures e.level == level
    ensures name.None?
            ==> e == LevelEntry(level, Some(back.mainLevel.actors), FilterOf(back.generalFilter, back.mainLevel))
    ensures name.Some? ==>
              var found := FindLevel(back.subLevels, name.value);
              e == if found.None? then LevelEntry(level, None, back.generalFilter)
                   else LevelEntry(level, Some(back.subLevels[found.value].actors),
                                   FilterOf(back.generalFilter, back.subLevels[found.value]))
  {
    hide FindLevel;
    if name.None? {
      e := LevelEntry(level, Some(back.mainLevel.actors), FilterOf(back.generalFilter, back.mainLevel));
    } else {
      var found := FindLevel(back.subLevels, name.value);
      e := LevelEntry(level, None, back.generalFilter);
      if found.Some? {
        e := LevelEntry(level, Some(back.subLevels[found.value].actors),
                        FilterOf(back.generalFilter, back.subLevels[found.value]));
      }
    }
  }

  // Levels at the time of the load

  /** A level loaded at the time of the load; the main one has no name here. */
  datatype LiveLevel = LiveLevel(name: Option<Name>, level: Level)

  ghost function LevelsIn(live: seq<LiveLevel>): set<Level> {
    set k | 0 <= k < |live| :: live[k].level
  }

  /** Levels a load can run on: distinct and valid, with records from saves of actors with names of their own. */
  ghost predicate AreLive(live: seq<LiveLevel>, past: Past)
    reads LevelsIn(live)
  {
    && live != []
    && (forall k :: 0 <= k < |live| ==>
          && live[k].level.Valid() && past.HasRecordFromASave(live[k].name)
          && (past.SavedOf(live[k].name).Some? ==> DistinctActors(past.SavedOf(live[k].name).value)))
    && (forall j, k :: 0 <= j < k < |live| ==> live[j].level != live[k].level)
  }

  /** The actors of the live levels. */
  ghost function ActorsIn(live: seq<LiveLevel>): (actors: seq<ActorArray>)
    reads LevelsIn(live)
    ensures |actors| == |live| && forall k :: 0 <= k < |live| ==> actors[k] == live[k].level.actors
  {
    seq(|live|, k requires 0 <= k < |live| reads LevelsIn(live) => live[k].level.actors)
  }

  /** What a file keeps of what was saved of the live levels. */
  ghost function KeptIn(live: seq<LiveLevel>, past: Past): (saved: seq<Option<ActorArray>>)
    ensures |saved| == |live| && forall k :: 0 <= k < |live| ==> saved[k] == past.KeptOf(live[k].name)
  {
    seq(|live|, k requires 0 <= k < |live| => past.KeptOf(live[k].name))
  }

  function OrNothing(saved: Option<ActorArray>): ActorArray {
    if saved.Some? then saved.value else []
  }

  /** What was saved of some levels, with nothing where nothing was. */
  ghost function AllSaved(saved: seq<Option<ActorArray>>): (all: seq<ActorArray>)
    ensures |all| == |saved| && forall k :: 0 <= k < |saved| ==> all[k] == OrNothing(saved[k])
  {
    seq(|saved|, k requires 0 <= k < |saved| => OrNothing(saved[k]))
  }

  /** An entry is loaded from what was saved of its level, if anything was. */
  ghost predicate LoadsWhatWasSaved(e: LevelEntry, saved: Option<ActorArray>) {
    (e.records.Some? <==> saved.Some?) && ComesFrom(e, OrNothing(saved))
  }

  /** The entry of a live level comes with what was saved of it. */
  method LiveEntry(back: Slot, l: LiveLevel, ghost past: Past, ghost now: Slot) returns (e: LevelEntry)
    requires past.IsReadBack(back, now) && past.HasRecordFromASave(l.name)
    requires past.SavedOf(l.name).Some? ==> DistinctActors(past.SavedOf(l.name).value)
    ensures e.level == l.level && e.filter == past.FilterFor(l.name) && LoadsWhatWasSaved(e, past.KeptOf(l.name))
  {
    hide SavedLevel, KeptLevel, SavedActors, FindLevel, SubLevelsSaved, FindStreaming, StreamingFilter;
    e := EntryOf(back, l.level, l.name);
    if l.name.None? {
      FileKeepsTheLevel(past.was.generalFilter, past.was.mainLevel, past.persistent);
    } else {
      LevelComesBack(past, back, now, l.name.value);
    }
  }

  /** The entries of the live levels. */
  method EntriesOf(back: Slot, live: seq<LiveLevel>, ghost past: Past, ghost now: Slot)
    returns (entries: seq<LevelEntry>)
    requires AreLive(live, past) && past.IsReadBack(back, now)
    ensures |entries| == |live|
    ensures forall k :: 0 <= k < |live| ==>
              && entries[k].level == live[k].level && entries[k].filter == past.FilterFor(live[k].name)
              && LoadsWhatWasSaved(entries[k], past.KeptOf(live[k].name))
  {
    hide Past.IsReadBack, Past.KeptOf, Past.SavedOf, Past.FilterFor, Past.HasRecordFromASave, LoadsWhatWasSaved,
         DistinctActors;
    entries := [];
    for i := 0 to |live|
      invariant |entries| == i
      invariant forall k :: 0 <= k < i ==>
                  && entries[k].level == live[k].level && entries[k].filter == past.FilterFor(live[k].name)
                  && LoadsWhatWasSaved(entries[k], past.KeptOf(live[k].name))
    {
      var e := LiveEntry(back, live[i], past, now);
      entries := entries + [e];
    }
  }

  lemma EntriesAreLive(entries: seq<LevelEntry>, live: seq<LiveLevel>, past: Past)
    requires AreLive(live, past) && |entries| == |live|
    requires forall k :: 0 <= k < |live| ==> entries[k].level == live[k].level
    ensures DistinctLevels(entries) && AllValid(entries) && LevelsOf(entries) == LevelsIn(live)
    ensures ActorsOf(entries) == ActorsIn(live) && entries != []
  {
    hide Past.HasRecordFromASave, Past.SavedOf, DistinctActors;
    forall level
      ensures level in LevelsOf(entries) <==> level in LevelsIn(live)
    {
      if level in LevelsIn(live) {
        var k :| 0 <= k < |live| && live[k].level == level;
        assert entries[k].level == level;
      }
    }
  }

  // The load

  /** Whether a load is done in one go, or over a number of frames of a clock. */
  datatype Pace = AtOnce | InFrames(at: Clock, maxFrameMs: real, frames: nat)
  {
    /** As many frames that get their first actor done as there are levels, actors in them and actors saved of them; a
        load in one go needs none. */
    ghost predicate IsEnough(before: seq<ActorArray>, saved: seq<Option<ActorArray>>)
      requires |before| == |saved|
    {
      InFrames? ==> FittingFrames(at, maxFrameMs, 0, frames) >= WorkFrom(before, AllSaved(saved), 0)
    }

    /** A load over frames ends at the first level without a record. */
    ghost predicate Reaches(saved: seq<Option<ActorArray>>, k: nat) {
      AtOnce? || forall i :: 0 <= i < k && i < |saved| ==> saved[i].Some?
    }
  }

  /** A level after the load: as it was if nothing was saved of it, what was saved of it if the load got there, and
      otherwise ready for it. */
  twostate predicate HasEnded(level: Level, new saved: Option<ActorArray>, new reached: bool, new ready: ActorArray,
                              new home: map<nat, nat>, new f: LevelFilter)
    reads level
  {
    match saved
    case None => level.actors == old(level.actors)
    case Some(actors) =>
      if reached then IsRestored(level, actors, ready, home, f)
      else level.actors == ready && WasReadied(level, actors, ready, home, f)
  }

  /** A load over frames that has dealt with the levels before the first without a record has reached those. */
  lemma ReachedIsDone(pace: Pace, saved: seq<Option<ActorArray>>, done: nat, k: nat)
    requires pace.InFrames? && k < |saved| && done <= |saved| && forall i :: 0 <= i < done ==> saved[i].Some?
    requires done < |saved| ==> saved[done].None?
    ensures saved[k].Some? ==> (pace.Reaches(saved, k) <==> k < done)
  {
  }

  /** Loads a world in one go. */
  method LoadAtOnce(entries: seq<LevelEntry>, ghost saved: seq<Option<ActorArray>>)
    returns (ghost homes: seq<map<nat, nat>>, ghost ready: seq<ActorArray>)
    requires DistinctLevels(entries) && AllValid(entries) && |saved| == |entries|
    requires forall k :: 0 <= k < |entries| ==> LoadsWhatWasSaved(entries[k], saved[k])
    modifies LevelsOf(entries)
    ensures |homes| == |ready| == |entries|
    ensures forall k :: 0 <= k < |entries| ==>
              HasEnded(entries[k].level, saved[k], true, ready[k], homes[k], entries[k].filter)
  {
    hide IsRestoration, IsReadied, AllValid, ComesFrom;
    homes, ready := LoadSavedWorld(entries, AllSaved(saved));
  }

  /** Loads a world over some frames. */
  method LoadInFrames(entries: seq<LevelEntry>, ghost saved: seq<Option<ActorArray>>, pace: Pace)
    returns (loaded: bool, ghost homes: seq<map<nat, nat>>, ghost ready: seq<ActorArray>)
    requires DistinctLevels(entries) && AllValid(entries) && |saved| == |entries| && entries != [] && pace.InFrames?
    requires forall k :: 0 <= k < |entries| ==> LoadsWhatWasSaved(entries[k], saved[k])
    modifies LevelsOf(entries)
    ensures |homes| == |ready| == |entries|
    ensures pace.IsEnough(old(ActorsOf(entries)), saved) ==> loaded
    ensures loaded ==>
              forall k :: 0 <= k < |entries| ==>
                HasEnded(entries[k].level, saved[k], pace.Reaches(saved, k), ready[k], homes[k], entries[k].filter)
  {
    hide IsRestoration, IsReadied, AllValid, ComesFrom, FittingFrames, WorkFrom, FrameLoader.Valid, Pace.Reaches,
         LoadedLevels;
    var loader;
    loader, homes, ready :=
      LoadSavedWorldInFrames(entries, AllSaved(saved), pace.at, pace.maxFrameMs, pace.frames);
    loaded := loader.state.Finished?;
    if loaded {
      forall k | 0 <= k < |entries|
        ensures saved[k].Some? ==> (pace.Reaches(saved, k) <==> k < LoadedLevels(loader))
      {
        ReachedIsDone(pace, saved, LoadedLevels(loader), k);
      }
    }
  }

  /** Loads a world at some pace. */
  method LoadAtPace(entries: seq<LevelEntry>, ghost saved: seq<Option<ActorArray>>, pace: Pace)
    returns (loaded: bool, ghost homes: seq<map<nat, nat>>, ghost ready: seq<ActorArray>)
    requires DistinctLevels(entries) && AllValid(entries) && |saved| == |entries| && entries != []
    requires forall k :: 0 <= k < |entries| ==> LoadsWhatWasSaved(entries[k], saved[k])
    modifies LevelsOf(entries)
    ensures |homes| == |ready| == |entries|
    ensures pace.IsEnough(old(ActorsOf(entries)), saved) ==> loaded
    ensures loaded ==>
              forall k :: 0 <= k < |entries| ==>
                HasEnded(entries[k].level, saved[k], pace.Reaches(saved, k), ready[k], homes[k], entries[k].filter)
  {
    hide HasEnded, AllValid, LoadsWhatWasSaved, FittingFrames, WorkFrom;
    if pace.AtOnce? {
      homes, ready := LoadAtOnce(entries, saved);
      loaded := true;
    } else {
      loaded, homes, ready := LoadInFrames(entries, saved, pace);
    }
  }

  /** Loads all live levels from what was read back. */
  method Restore(back: Slot, live: seq<LiveLevel>, pace: Pace, ghost past: Past, ghost now: Slot)
    returns (loaded: bool, ghost homes: seq<map<nat, nat>>, ghost ready: seq<ActorArray>)
    requires AreLive(live, past) && past.IsReadBack(back, now)
    modifies LevelsIn(live)
    ensures |homes| == |ready| == |live|
    ensures pace.IsEnough(old(ActorsIn(live)), KeptIn(live, past)) ==> loaded
    ensures loaded ==>
              forall k :: 0 <= k < |live| ==>
                HasEnded(live[k].level, past.KeptOf(live[k].name), pace.Reaches(KeptIn(live, past), k), ready[k],
                         homes[k], past.FilterFor(live[k].name))
  {
    hide Past.IsReadBack, Past.KeptOf, Past.FilterFor, AreLive, Pace.IsEnough, Pace.Reaches, IsRestoration, IsReadied,
         LoadsWhatWasSaved;
    var entries := EntriesOf(back, live, past, now);
    EntriesAreLive(entries, live, past);
    loaded, homes, ready := LoadAtPace(entries, KeptIn(live, past), pace);
  }

  /**
   * A world is saved, however its tasks interleave; the slot is written to a file and read back, compressed or not; the
   * levels loaded by then, whatever has become of them, are loaded from what was read, in one go or over enough frames
   * of any clock. Each is then the level that was last saved, with barely moving actors at rest.
   */
  method SaveAndRestore(saver: WorldSaver, settings: SlotSettings, persistent: ActorArray,
                        streaming: seq<StreamingLevel>, workers: nat, info: Blob, zip: Zip, compressed: bool,
                        default: File, resolve: Resolver, suffix: seq<Word>, live: seq<LiveLevel>, pace: Pace,
                        ghost past: Past)
    returns (loaded: bool, ghost homes: seq<map<nat, nat>>, ghost ready: seq<ActorArray>)
    requires saver.tasks == [] && DistinctNames(streaming)
    requires past.was == Before(saver.slot, settings) && past.persistent == persistent && past.streaming == streaming
    requires IsResolvableWorld(past.was, persistent, streaming, resolve)
    requires forall k :: 0 <= k < |saver.slot.subLevels| ==> GoodLevel(saver.slot.subLevels[k], resolve)
    requires saver.gameInstance.Some? ==>
               Names(resolve, saver.gameInstance.value.cls) && Readable(saver.gameInstance.value, resolve)
    requires Inverts(zip) && default.fileTypeTag == FILE_TYPE_TAG && default.fileVersion >= ADDED_CUSTOM_VERSIONS
    requires AreLive(live, past)
    modifies saver`tasks, saver.slot, LevelsIn(live)
    ensures |homes| == |ready| == |live|
    ensures pace.IsEnough(old(ActorsIn(live)), KeptIn(live, past)) ==> loaded
    ensures loaded ==>
              forall k :: 0 <= k < |live| ==>
                HasEnded(live[k].level, past.KeptOf(live[k].name), pace.Reaches(KeptIn(live, past), k), ready[k],
                         homes[k], past.FilterFor(live[k].name))
  {
    hide SavedLevel, KeptLevel, KeptLevels, SavedActors, SubLevelsSaved, IsRestoration, IsReadied, IsResolvableWorld,
         GoodLevel, Pace.IsEnough, Pace.Reaches, Past.KeptOf, Past.FilterFor, AreLive;
    var back := SaveAndReadBack(
      saver, settings, persistent, streaming, workers, info, zip, compressed, default, resolve, suffix);
    loaded, homes, ready := Restore(back, live, pace, past, saver.slot.View());
  }
}
