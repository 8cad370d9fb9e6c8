/** A level saved, then changed in any way, then loaded, is the level that was saved. */
module RoundTrip {
  import opened Engine
  import opened Actors
  import opened Levels
  import opened Saver
  import opened Restoring
  import opened Reconciling
  import opened Loading

  ghost predicate IsSaved(saved: ActorArray, i: nat, f: LevelFilter) {
    i < |saved| && saved[i].Some? && f.ShouldSave(saved[i].value)
  }

  ghost predicate IsHome(home: map<nat, nat>, s: nat) {
    exists i :: i in home && home[i] == s
  }

  /** The live actor at `s` can stand for the `i`th saved one. */
  ghost predicate StandsFor(saved: ActorArray, i: nat, live: ActorArray, s: nat, f: LevelFilter) {
    IsSaved(saved, i, f) && IsSaved(live, s, f) && live[s].value.cls == saved[i].value.cls
  }

  /** `home` sends every saved actor to a live actor of its own and of its class, and to nothing else savable. */
  ghost predicate IsBijection(saved: ActorArray, live: ActorArray, home: map<nat, nat>, f: LevelFilter) {
    && (forall i :: i in home <==> IsSaved(saved, i, f))
    && (forall i :: i in home ==> StandsFor(saved, i, live, home[i], f))
    && (forall i, k :: i in home && k in home && i != k ==> home[i] != home[k])
    && (forall s :: IsSaved(live, s, f) ==> IsHome(home, s))
  }

  /** An actor keeps its name unless that was taken before the load, or went to another actor during it. */
  ghost predicate KeepsNames(saved: ActorArray, live: ActorArray, home: map<nat, nat>, taken: set<Name>,
                             f: LevelFilter)
    requires IsBijection(saved, live, home, f)
  {
    forall i :: i in home ==>
      || live[home[i]].value.name == saved[i].value.name
      || saved[i].value.name in taken
      || exists k :: k in home && k != i && live[home[k]].value.name == saved[i].value.name
  }

  /** Who is already there under the right name and class is restored in place, and what the filter excludes is not
      touched. */
  ghost predicate RestoresInPlace(saved: ActorArray, before: ActorArray, live: ActorArray, home: map<nat, nat>,
                                  f: LevelFilter)
    requires IsBijection(saved, live, home, f)
  {
    && |before| <= |live|
    && (forall s :: 0 <= s < |before| && before[s].Some? && !f.ShouldSave(before[s].value) ==> live[s] == before[s])
    && (forall i, s :: i in home && 0 <= s < |before| && before[s].Some?
                       && before[s].value.name == saved[i].value.name && before[s].value.cls == saved[i].value.cls
                       ==> home[i] == s)
  }

  /** An actor respawned for a saved one: as its class constructs it, where the saved one was if that was stored. */
  ghost predicate IsRespawned(saved: Actor, live: Option<Actor>, spawning: Spawning) {
    && live.Some?
    && live.value
       == spawning.Spawned(saved.cls, live.value.name, if StoresTransform(saved) then saved.transform else IDENTITY)
  }

  /** It is there under a name and its class, and at the place that was stored: where the saved one was, if that could
      move and no tag forbade it. */
  lemma RespawnedInPlace(saved: Actor, live: Option<Actor>, spawning: Spawning)
    requires IsRespawned(saved, live, spawning)
    ensures live.value.cls == saved.cls
    ensures (saved.root.MovableRoot? || saved.root.MovablePrimitiveRoot?) && "!SaveTransform" !in saved.tags
            ==> live.value.transform == saved.transform
  {
  }

  /** Who was there stays, unless it is savable and stands for no saved actor: then it is gone. */
  ghost predicate StaysOrGoes(before: ActorArray, ready: ActorArray, home: map<nat, nat>, f: LevelFilter, s: nat) {
    s < |before| ==>
      && s < |ready|
      && ready[s] == if IsSaved(before, s, f) && !IsHome(home, s) then None else before[s]
  }

  /** A saved actor whose home was not there has been respawned. */
  ghost predicate IsThereOrRespawned(saved: ActorArray, before: ActorArray, ready: ActorArray, home: map<nat, nat>,
                                     spawning: Spawning, i: nat)
  {
    i in home && home[i] >= |before| ==>
      && i < |saved| && saved[i].Some? && home[i] < |ready|
      && IsRespawned(saved[i].value, ready[home[i]], spawning)
  }

  /** A level has got ready to load: savable actors that stand for no saved one are gone, all others that were there are
      as they were, and those that have joined them have been respawned, each for a saved one. */
  ghost predicate GotReady(saved: ActorArray, before: ActorArray, ready: ActorArray, home: map<nat, nat>,
                           spawning: Spawning, f: LevelFilter)
  {
    && |before| <= |ready| <= |before| + |saved|
    && (forall s: nat :: StaysOrGoes(before, ready, home, f, s))
    && (forall s :: |before| <= s < |ready| ==> IsHome(home, s))
    && (forall i: nat :: IsThereOrRespawned(saved, before, ready, home, spawning, i))
  }

  /** All that getting ready has to do with a level for the actors saved of it: but for the names respawned actors get,
      this settles `ready`. */
  ghost predicate IsReadied(saved: ActorArray, before: ActorArray, ready: ActorArray, home: map<nat, nat>,
                            taken: set<Name>, spawning: Spawning, f: LevelFilter)
  {
    && IsBijection(saved, ready, home, f)
    && GotReady(saved, before, ready, home, spawning, f)
    && KeepsNames(saved, ready, home, taken, f)
    && RestoresInPlace(saved, before, ready, home, f)
  }

  /** A live actor carries what was saved of the one it stands for over what it was when its level was ready to load; if
      the saved one had no data, it is as it was. */
  ghost predicate CarriesOne(saved: Actor, ready: Option<Actor>, after: Option<Actor>, f: LevelFilter) {
    && ready.Some? && after.Some?
    && if saved.blob == [] then after == ready else IsLoadedFrom(ready.value, after.value, saved, f)
  }

  /** Every actor that stands for a saved one carries it, and all else is as it was. */
  ghost predicate CarriesSaved(saved: ActorArray, ready: ActorArray, after: ActorArray, home: map<nat, nat>,
                               f: LevelFilter)
    requires IsBijection(saved, ready, home, f)
  {
    && |after| == |ready|
    && (forall i :: i in home ==> CarriesOne(saved[i].value, ready[home[i]], after[home[i]], f))
    && (forall s :: 0 <= s < |ready| && !IsHome(home, s) ==> after[s] == ready[s])
  }

  /** A level has got ready, and has then been loaded from what was saved of it. */
  ghost predicate IsRestoration(saved: ActorArray, before: ActorArray, ready: ActorArray, after: ActorArray,
                                home: map<nat, nat>, taken: set<Name>, spawning: Spawning, f: LevelFilter)
  {
    && IsReadied(saved, before, ready, home, taken, spawning, f)
    && CarriesSaved(saved, ready, after, home, f)
  }

  /** Loading changes neither who is who nor what is not to be loaded. */
  lemma CarriedStaysItself(saved: Actor, ready: Option<Actor>, after: Option<Actor>, f: LevelFilter)
    requires CarriesOne(saved, ready, after, f)
    ensures after.value.name == ready.value.name && after.value.cls == ready.value.cls
    ensures f.ShouldSave(after.value) == f.ShouldSave(ready.value)
  {
  }

  lemma HomeStays(saved: ActorArray, ready: ActorArray, after: ActorArray, home: map<nat, nat>, f: LevelFilter, i: nat)
    requires IsBijection(saved, ready, home, f) && CarriesSaved(saved, ready, after, home, f) && i in home
    ensures StandsFor(saved, i, after, home[i], f) && after[home[i]].value.name == ready[home[i]].value.name
  {
    hide CarriesOne, LevelFilter.ShouldSave, IsHome;
    CarriesBoth(saved[i].value, ready[home[i]], after[home[i]], f);
    CarriedStaysItself(saved[i].value, ready[home[i]], after[home[i]], f);
  }

  lemma BijectionStays(saved: ActorArray, ready: ActorArray, after: ActorArray, home: map<nat, nat>, f: LevelFilter)
    requires IsBijection(saved, ready, home, f) && CarriesSaved(saved, ready, after, home, f)
    ensures IsBijection(saved, after, home, f)
  {
    hide CarriesOne, LevelFilter.ShouldSave, IsHome;
    forall i | i in home
      ensures StandsFor(saved, i, after, home[i], f)
    {
      HomeStays(saved, ready, after, home, f, i);
    }
    forall s: nat | IsSaved(after, s, f)
      ensures IsHome(home, s)
    {
      assert !IsHome(home, s) ==> IsSaved(ready, s, f);
    }
  }

  lemma NamesStay(saved: ActorArray, ready: ActorArray, after: ActorArray, home: map<nat, nat>, taken: set<Name>,
                  f: LevelFilter)
    requires IsBijection(saved, ready, home, f) && CarriesSaved(saved, ready, after, home, f)
    requires KeepsNames(saved, ready, home, taken, f) && IsBijection(saved, after, home, f)
    ensures KeepsNames(saved, after, home, taken, f)
  {
    hide CarriesOne, LevelFilter.ShouldSave, IsHome, CarriesSaved;
    forall i | i in home
      ensures after[home[i]].value.name == ready[home[i]].value.name
    {
      HomeStays(saved, ready, after, home, f, i);
    }
  }

  lemma PlacesStay(saved: ActorArray, before: ActorArray, ready: ActorArray, after: ActorArray, home: map<nat, nat>,
                   f: LevelFilter)
    requires IsBijection(saved, ready, home, f) && CarriesSaved(saved, ready, after, home, f)
    requires RestoresInPlace(saved, before, ready, home, f) && IsBijection(saved, after, home, f)
    ensures RestoresInPlace(saved, before, after, home, f)
  {
    hide CarriesOne, LevelFilter.ShouldSave;
    forall s: nat | s < |before| && before[s].Some? && !f.ShouldSave(before[s].value)
      ensures after[s] == before[s]
    {
      assert ready[s] == before[s] && !IsSaved(ready, s, f);
      assert !IsHome(home, s);
    }
  }

  /** So the bijection, the names and the places are there after the load, and all who have joined are to be saved. */
  lemma RestorationMeans(saved: ActorArray, before: ActorArray, ready: ActorArray, after: ActorArray,
                         home: map<nat, nat>, taken: set<Name>, spawning: Spawning, f: LevelFilter)
    requires IsRestoration(saved, before, ready, after, home, taken, spawning, f)
    ensures IsBijection(saved, after, home, f)
    ensures KeepsNames(saved, after, home, taken, f) && RestoresInPlace(saved, before, after, home, f)
    ensures forall s: nat :: |before| <= s < |after| ==> IsSaved(after, s, f)
  {
    hide CarriesOne, LevelFilter.ShouldSave, IsRespawned, KeepsNames, RestoresInPlace;
    BijectionStays(saved, ready, after, home, f);
    NamesStay(saved, ready, after, home, taken, f);
    PlacesStay(saved, before, ready, after, home, f);
    forall s: nat | |before| <= s < |after|
      ensures IsSaved(after, s, f)
    {
      assert IsHome(home, s);
    }
  }

  /** Every actor with data has come back with all that was stored of it, and with nothing else changed, if its tags let
      the same through on the root it has now. */
  lemma ComesBackInFull(saved: ActorArray, before: ActorArray, ready: ActorArray, after: ActorArray,
                        home: map<nat, nat>, taken: set<Name>, spawning: Spawning, f: LevelFilter, i: nat)
    requires IsRestoration(saved, before, ready, after, home, taken, spawning, f)
    requires i in home && saved[i].value.blob != [] && GatesAgree(saved[i].value, ready[home[i]].value.root)
    ensures after[home[i]].Some? && Carries(after[home[i]].value, saved[i].value)
            && LeavesGatedAlone(ready[home[i]].value, after[home[i]].value, saved[i].value)
  {
    hide Carries, LeavesGatedAlone, IsLoadedFrom, LevelFilter.ShouldSave, GotReady, KeepsNames, RestoresInPlace;
    CarriedIfGatesAgree(saved[i].value, ready[home[i]].value, after[home[i]].value, f);
  }

  lemma CarriesBoth(saved: Actor, ready: Option<Actor>, after: Option<Actor>, f: LevelFilter)
    requires CarriesOne(saved, ready, after, f)
    ensures ready.Some? && after.Some?
  {
  }

  // An actor without data

  /** Whether a saved actor comes back is settled by its having a name and data: only then does its record restore every
      live actor of its name and class. */
  lemma RestoredIffItHasData(saved: Actor, f: LevelFilter)
    requires f.ShouldSave(saved)
    ensures (forall live: Actor :: live.name == saved.name && live.cls == saved.cls ==>
               var after := RestoredEntry(Some(live), SavedActors([Some(saved)], f), f);
               after.Some? && IsLoadedFrom(live, after.value, saved, f))
            <==> saved.name != NAME_NONE && saved.blob != []
  {
    hide SavedActors, RecordOf, IsLoadedFrom, Restored, FindRecord;
    if saved.name != NAME_NONE && saved.blob != [] {
      forall live: Actor | live.name == saved.name && live.cls == saved.cls
        ensures var after := RestoredEntry(Some(live), SavedActors([Some(saved)], f), f);
                after.Some? && IsLoadedFrom(live, after.value, saved, f)
      {
        RestoredFromOwnSave(saved, live, f);
        ActorRoundTrip(saved, live, saved.name, f);
      }
    } else {
      var live := saved.(hidden := !saved.hidden);
      RestoredFromOwnSave(saved, live, f);
      HiddenIsNotCarried(saved, live, f);
    }
  }

  lemma HiddenIsNotCarried(saved: Actor, live: Actor, f: LevelFilter)
    requires live.hidden != saved.hidden
    ensures !IsLoadedFrom(live, live, saved, f)
  {
  }

  // One level's trip

  /** An entry loaded once, or twice by two frames of a split load. */
  ghost predicate IsLoaded(entry: Option<Actor>, after: Option<Actor>, records: seq<ActorRecord>, f: LevelFilter) {
    var once := RestoredEntry(entry, records, f);
    after == once || after == RestoredEntry(once, records, f)
  }

  lemma OnlySavableLoaded(entry: Option<Actor>, after: Option<Actor>, records: seq<ActorRecord>, f: LevelFilter)
    requires IsLoaded(entry, after, records, f) && !(entry.Some? && f.ShouldSave(entry.value))
    ensures after == entry
  {
  }

  /** One trip: the actors saved, where their records come from, the records and the level once prepared, and who owns
      what. */
  datatype Trip = Trip(
    saved: ActorArray, at: seq<nat>, records: seq<ActorRecord>, before: ActorArray, prepared: ActorArray,
    owner: map<nat, nat>, taken: set<Name>, spawning: Spawning, f: LevelFilter)
  {
    /** Everything known once a level has been saved, and prepared from the records. */
    ghost predicate Valid() {
      && DistinctActors(saved) && DistinctActors(prepared) && DistinctActors(before)
      && SavedFrom(SavedActors(saved, f), at, saved, f)
      && SameButNames(SavedActors(saved, f), records)
      && Reconciled(owner, records, prepared, f)
      && Survived(before, prepared, owner, f)
      && KeepsMatched(before, SavedActors(saved, f), owner, |before|)
      && (forall j :: j in owner && owner[j] < |before| ==> records[j] == SavedActors(saved, f)[j])
      && RenamedOnlyIfTaken(SavedActors(saved, f), records, taken, owner)
      && Joined(before, prepared, records, owner, spawning)
    }

    /** Whoever was there once the level was prepared has been loaded, once or twice. */
    ghost predicate EndsAs(after: ActorArray) {
      && |after| == |prepared|
      && forall s :: 0 <= s < |after| ==> IsLoaded(prepared[s], after[s], records, f)
    }

    /** Every record has an owner, and comes from a place of its own. */
    lemma RecordsAreOwned()
      requires Valid()
      ensures forall j :: 0 <= j < |at| ==> j in owner
      ensures forall j, k :: 0 <= j < k < |at| ==> at[j] < at[k]
    {
      hide Survived, KeepsMatched, RenamedOnlyIfTaken, DistinctActors, SavedActors, RecordOf, Joined;
    }

    /** The saved actor that record `j` was made from lives at the record's owner. */
    ghost function Home(): (home: map<nat, nat>)
      requires Valid()
      ensures forall j :: 0 <= j < |at| ==> at[j] in home && home[at[j]] == owner[j]
      ensures forall i :: i in home ==> i in at
    {
      RecordsAreOwned();
      HomeOf(at, owner)
    }

    ghost function RecordFrom(i: nat): (j: nat)
      requires i in at
      ensures j < |at| && at[j] == i
    {
      PositionIn(at, i)
    }
  }

  ghost function PositionIn(at: seq<nat>, i: nat): (j: nat)
    requires i in at
    ensures j < |at| && at[j] == i
  {
    var j :| 0 <= j < |at| && at[j] == i;
    j
  }

  ghost function HomeOf(at: seq<nat>, owner: map<nat, nat>): (home: map<nat, nat>)
    requires forall j :: 0 <= j < |at| ==> j in owner
    requires forall j, k :: 0 <= j < k < |at| ==> at[j] < at[k]
    ensures forall j :: 0 <= j < |at| ==> at[j] in home && home[at[j]] == owner[j]
    ensures forall i :: i in home ==> i in at
  {
    map i | i in at :: owner[PositionIn(at, i)]
  }

  /** An actor whose record is found, under whatever name, is restored from it. */
  lemma RestoredFromItsRecord(live: Actor, was: Actor, after: Option<Actor>, records: seq<ActorRecord>, j: nat,
                              f: LevelFilter)
    requires live.cls == was.cls && f.ShouldSave(live)
    requires was.name != NAME_NONE && live.name != NAME_NONE
    requires FindRecord(records, live.name, live.cls) == Some(j)
    requires records[j] == Named(RecordOf(was, f), records[j].base.name)
    requires IsLoaded(Some(live), after, records, f)
    ensures CarriesOne(was, Some(live), after, f)
  {
    hide FindRecord, LevelFilter.ShouldSave, RecordOf, Restored, IsLoadedFrom;
    RecordIsNamedAfter(was, f);
    assert records[j].base.Matches(live.name, live.cls);
    ActorRoundTrip(was, live, records[j].base.name, f);
    RestoredKeeps(live, records[j], f);
  }

  lemma RestoredKeeps(a: Actor, r: ActorRecord, f: LevelFilter)
    ensures var after := Restored(a, r, f); after.name == a.name && after.cls == a.cls
    ensures f.ShouldSave(Restored(a, r, f)) == f.ShouldSave(a)
  {
  }

  /** The record of a saved actor is that of the live actor that owns it. */
  lemma OwnersMatch(t: Trip, j: nat)
    requires t.Valid() && j < |t.at|
    ensures IsRecordOf(t.records, j, t.prepared, t.owner[j]) && t.f.ShouldSave(t.prepared[t.owner[j]].value)
    ensures t.prepared[t.owner[j]].value.name == t.records[j].base.name
    ensures var live, was := t.prepared[t.owner[j]].value, t.saved[t.at[j]].value;
            && live.cls == was.cls && was.name != NAME_NONE && live.name != NAME_NONE
            && t.records[j] == Named(RecordOf(was, t.f), t.records[j].base.name)
  {
    hide RecordOf, Joined, Survived, KeepsMatched, RenamedOnlyIfTaken, SavedActors;
    RecordIsNamedAfter(t.saved[t.at[j]].value, t.f);
    assert t.records[j].base.cls == SavedActors(t.saved, t.f)[j].base.cls;
  }

  lemma OwnersFindTheirRecord(t: Trip, j: nat)
    requires t.Valid() && j < |t.at|
    requires IsRecordOf(t.records, j, t.prepared, t.owner[j])
    ensures var live := t.prepared[t.owner[j]].value; FindRecord(t.records, live.name, live.cls) == Some(j)
  {
    hide RecordOf, FindRecord, Joined, Survived, KeepsMatched, RenamedOnlyIfTaken, SavedActors, SavedFrom, SameButNames;
    var live := t.prepared[t.owner[j]].value;
    ReconciledNamesAreDistinct(t.owner, t.records, t.prepared, t.f);
    var found := FindRecord(t.records, live.name, live.cls);
    assert found.Some? && t.records[found.value].base.name == t.records[j].base.name;
  }

  /** The record of a saved actor is found by the live actor that owns it, which it restores. */
  lemma OwnerIsRestored(t: Trip, after: ActorArray, j: nat)
    requires t.Valid() && t.EndsAs(after) && j < |t.at|
    ensures IsRecordOf(t.records, j, t.prepared, t.owner[j])
    ensures CarriesOne(t.saved[t.at[j]].value, t.prepared[t.owner[j]], after[t.owner[j]], t.f)
  {
    hide RecordOf, RestoredEntry, CarriesOne, Survived, KeepsMatched, RenamedOnlyIfTaken, DistinctActors, IsLoaded,
         SavedActors, Joined;
    OwnersMatch(t, j);
    OwnersFindTheirRecord(t, j);
    RestoredFromItsRecord(
      t.prepared[t.owner[j]].value, t.saved[t.at[j]].value, after[t.owner[j]], t.records, j, t.f);
  }

  lemma EverySavedHasAHome(t: Trip, i: nat)
    requires t.Valid()
    ensures i in t.Home() <==> IsSaved(t.saved, i, t.f)
  {
    hide SavedActors, RecordOf, RenamedOnlyIfTaken, KeepsMatched, DistinctActors, Survived, Reconciled, Joined;
  }

  /** Home sends saved actors to savable live ones. */
  lemma HomeIsInto(t: Trip, i: nat)
    requires t.Valid() && i in t.Home()
    ensures StandsFor(t.saved, i, t.prepared, t.Home()[i], t.f)
  {
    hide Trip.Valid, LevelFilter.ShouldSave;
    EverySavedHasAHome(t, i);
    OwnersMatch(t, t.RecordFrom(i));
  }

  /** What owns a record is the home of the actor it was made from. */
  lemma OwnedIsHome(t: Trip, s: nat)
    requires t.Valid()
    ensures HasOwnedRecord(t.owner, s) <==> IsHome(t.Home(), s)
  {
    hide SavedActors, RecordOf, RenamedOnlyIfTaken, KeepsMatched, DistinctActors, Survived, Joined;
    if HasOwnedRecord(t.owner, s) {
      var j :| j in t.owner && t.owner[j] == s;
      assert t.at[j] in t.Home() && t.Home()[t.at[j]] == s;
    }
    if i :| i in t.Home() && t.Home()[i] == s {
      t.RecordsAreOwned();
      assert t.owner[t.RecordFrom(i)] == s;
    }
  }

  /** And to every one of them. */
  lemma HomeIsOnto(t: Trip, s: nat)
    requires t.Valid() && IsSaved(t.prepared, s, t.f)
    ensures IsHome(t.Home(), s)
  {
    hide SavedActors, RenamedOnlyIfTaken, KeepsMatched, DistinctActors, Survived, Joined, IsHome;
    assert HasOwnedRecord(t.owner, s);
    OwnedIsHome(t, s);
  }

  lemma HomesAreApart(t: Trip, i: nat, k: nat)
    requires t.Valid() && i in t.Home() && k in t.Home() && i != k
    ensures t.Home()[i] != t.Home()[k]
  {
    hide SavedActors, RecordOf, RenamedOnlyIfTaken, KeepsMatched, DistinctActors, Survived, Joined;
    assert t.RecordFrom(i) != t.RecordFrom(k);
  }

  lemma HomeIsBijection(t: Trip)
    requires t.Valid()
    ensures IsBijection(t.saved, t.prepared, t.Home(), t.f)
  {
    hide Trip.Valid, IsSaved, StandsFor, IsHome;
    var home := t.Home();
    forall i: nat
      ensures i in home <==> IsSaved(t.saved, i, t.f)
      ensures i in home ==> StandsFor(t.saved, i, t.prepared, home[i], t.f)
    {
      EverySavedHasAHome(t, i);
      if i in home {
        HomeIsInto(t, i);
      }
    }
    forall i, k | i in home && k in home && i != k
      ensures home[i] != home[k]
    {
      HomesAreApart(t, i, k);
    }
    forall s: nat | IsSaved(t.prepared, s, t.f)
      ensures IsHome(home, s)
    {
      HomeIsOnto(t, s);
    }
  }

  /** There are no more records than actors. */
  lemma {:induction false} NoMoreRecords(actors: ActorArray, f: LevelFilter)
    ensures |SavedActors(actors, f)| <= |actors|
  {
    hide RecordOf;
    if actors != [] {
      NoMoreRecords(actors[1..], f);
    }
  }

  /** Whoever joined was respawned for the actor whose home it is. */
  lemma JoinedIsRespawned(t: Trip, j: nat)
    requires t.Valid() && j < |t.at| && t.owner[j] >= |t.before|
    ensures t.owner[j] < |t.prepared| && IsRespawned(t.saved[t.at[j]].value, t.prepared[t.owner[j]], t.spawning)
  {
    hide RecordOf, Survived, KeepsMatched, RenamedOnlyIfTaken, SavedActors, DistinctActors, Spawning.Spawned,
         SavedFrom, SameButNames;
    OwnersMatch(t, j);
    NamesOnTheWay(t, j);
    RecordedTransform(t.saved[t.at[j]].value, t.f);
    assert t.records[j].base.cls == Some(t.prepared[t.owner[j]].value.cls);
  }

  lemma RecordedTransform(a: Actor, f: LevelFilter)
    ensures RecordOf(a, f).transform == if StoresTransform(a) then a.transform else IDENTITY
  {
  }

  lemma HomeStaysOrGoes(t: Trip, s: nat)
    requires t.Valid()
    ensures StaysOrGoes(t.before, t.prepared, t.Home(), t.f, s)
  {
    hide SavedActors, SavedFrom, Reconciled, RenamedOnlyIfTaken, KeepsMatched, HasOwnedRecord, Joined, IsHome,
         SameButNames, DistinctActors;
    OwnedIsHome(t, s);
  }

  lemma ReadySize(t: Trip)
    requires t.Valid()
    ensures |t.before| <= |t.prepared| <= |t.before| + |t.saved|
    ensures forall s :: |t.before| <= s < |t.prepared| ==> IsHome(t.Home(), s)
  {
    hide SavedActors, SavedFrom, Reconciled, RenamedOnlyIfTaken, KeepsMatched, HasOwnedRecord, IsHome, DistinctActors,
         Survived, SpawnedFor;
    NoMoreRecords(t.saved, t.f);
    forall s | |t.before| <= s < |t.prepared|
      ensures IsHome(t.Home(), s)
    {
      OwnedIsHome(t, s);
    }
  }

  lemma HomeIsRespawned(t: Trip, i: nat)
    requires t.Valid()
    ensures IsThereOrRespawned(t.saved, t.before, t.prepared, t.Home(), t.spawning, i)
  {
    hide Trip.Valid, IsRespawned;
    if i in t.Home() && t.Home()[i] >= |t.before| {
      EverySavedHasAHome(t, i);
      JoinedIsRespawned(t, t.RecordFrom(i));
    }
  }

  lemma HomeGotReady(t: Trip)
    requires t.Valid()
    ensures GotReady(t.saved, t.before, t.prepared, t.Home(), t.spawning, t.f)
  {
    hide Trip.Valid, IsHome, StaysOrGoes, IsThereOrRespawned;
    ReadySize(t);
    forall s: nat
      ensures StaysOrGoes(t.before, t.prepared, t.Home(), t.f, s)
    {
      HomeStaysOrGoes(t, s);
    }
    forall i: nat
      ensures IsThereOrRespawned(t.saved, t.before, t.prepared, t.Home(), t.spawning, i)
    {
      HomeIsRespawned(t, i);
    }
  }

  /** Record `j` was made under its actor's name, and its owner bears the record's. */
  lemma NamesOnTheWay(t: Trip, j: nat)
    requires t.Valid() && j < |t.at|
    ensures t.at[j] in t.Home() && t.Home()[t.at[j]] == t.owner[j] < |t.prepared| && t.prepared[t.owner[j]].Some?
    ensures t.prepared[t.owner[j]].value.name == t.records[j].base.name
    ensures j < |SavedActors(t.saved, t.f)| && t.at[j] < |t.saved| && t.saved[t.at[j]].Some?
    ensures SavedActors(t.saved, t.f)[j].base.name == t.saved[t.at[j]].value.name
    ensures SavedActors(t.saved, t.f)[j].base.cls == Some(t.saved[t.at[j]].value.cls)
  {
    hide SavedActors, RecordOf, RenamedOnlyIfTaken, KeepsMatched, DistinctActors, Survived, Joined;
    OwnersMatch(t, j);
    RecordIsNamedAfter(t.saved[t.at[j]].value, t.f);
  }

  /** If the record of a saved actor was renamed to make way for another, that other now has the name. */
  lemma NameWentToAnother(t: Trip, j: nat)
    requires t.Valid() && IsBijection(t.saved, t.prepared, t.Home(), t.f) && j < |t.at|
    requires NameOfAnother(t.records, t.owner, j, t.saved[t.at[j]].value.name)
    ensures exists k :: k in t.Home() && k != t.at[j]
                        && t.prepared[t.Home()[k]].value.name == t.saved[t.at[j]].value.name
  {
    hide SavedActors, RecordOf, RenamedOnlyIfTaken, KeepsMatched, DistinctActors, Survived, Joined;
    var k :| k in t.owner && k < |t.records| && k != j && t.records[k].base.name == t.saved[t.at[j]].value.name;
    NamesOnTheWay(t, k);
    assert t.at[k] != t.at[j];
  }

  lemma HomeKeepsName(t: Trip, j: nat)
    requires t.Valid() && IsBijection(t.saved, t.prepared, t.Home(), t.f) && j < |t.at|
    ensures t.at[j] in t.Home()
    ensures var name := t.saved[t.at[j]].value.name;
            || t.prepared[t.Home()[t.at[j]]].value.name == name
            || name in t.taken
            || exists k :: k in t.Home() && k != t.at[j] && t.prepared[t.Home()[k]].value.name == name
  {
    hide SavedActors, RecordOf, Reconciled, Survived, KeepsMatched, NameOfAnother, Joined;
    NamesOnTheWay(t, j);
    if NameOfAnother(t.records, t.owner, j, t.saved[t.at[j]].value.name) {
      NameWentToAnother(t, j);
    }
  }

  lemma HomeKeepsNames(t: Trip)
    requires t.Valid() && IsBijection(t.saved, t.prepared, t.Home(), t.f)
    ensures KeepsNames(t.saved, t.prepared, t.Home(), t.taken, t.f)
  {
    hide Trip.Valid, LevelFilter.ShouldSave;
    forall i | i in t.Home()
      ensures || t.prepared[t.Home()[i]].value.name == t.saved[i].value.name
              || t.saved[i].value.name in t.taken
              || exists k :: k in t.Home() && k != i && t.prepared[t.Home()[k]].value.name == t.saved[i].value.name
    {
      HomeKeepsName(t, t.RecordFrom(i));
    }
  }

  /** Whoever among the actors already there owns a record made under its own name owns that record only. */
  lemma OwnsNoOther(t: Trip, j: nat, k: nat, s: nat)
    requires t.Valid() && j < |t.at|
    requires s < |t.before| && t.before[s].Some? && t.before[s].value.name == t.saved[t.at[j]].value.name
    requires k in t.owner && t.owner[k] == s
    ensures k == j
  {
    hide SavedActors, RecordOf, RenamedOnlyIfTaken, KeepsMatched, Joined;
    NamesOnTheWay(t, k);
    assert IsRecordOf(t.records, k, t.prepared, s);
    assert t.saved[t.at[k]].value.name == t.saved[t.at[j]].value.name;
  }

  /** A live actor with the name and class of a saved one owns its record. */
  lemma InPlace(t: Trip, j: nat, s: nat)
    requires t.Valid() && j < |t.at|
    requires s < |t.before| && t.before[s].Some?
    requires t.before[s].value.name == t.saved[t.at[j]].value.name
             && t.before[s].value.cls == t.saved[t.at[j]].value.cls
    ensures t.owner[j] == s
  {
    hide SavedActors, RecordOf, RenamedOnlyIfTaken, Joined, Survived, DistinctActors;
    NamesOnTheWay(t, j);
    assert IsRecordOf(SavedActors(t.saved, t.f), j, t.before, s);
    var k :| k in t.owner && t.owner[k] == s;
    OwnsNoOther(t, j, k, s);
  }

  lemma HomeRestoresInPlace(t: Trip)
    requires t.Valid() && IsBijection(t.saved, t.prepared, t.Home(), t.f)
    requires GotReady(t.saved, t.before, t.prepared, t.Home(), t.spawning, t.f)
    ensures RestoresInPlace(t.saved, t.before, t.prepared, t.Home(), t.f)
  {
    hide Trip.Valid, IsThereOrRespawned, LevelFilter.ShouldSave, IsHome;
    forall i, s | i in t.Home() && 0 <= s < |t.before| && t.before[s].Some?
                  && t.before[s].value.name == t.saved[i].value.name && t.before[s].value.cls == t.saved[i].value.cls
      ensures t.Home()[i] == s
    {
      InPlace(t, t.RecordFrom(i), s);
    }
    forall s: nat | s < |t.before| && t.before[s].Some? && !t.f.ShouldSave(t.before[s].value)
      ensures t.prepared[s] == t.before[s]
    {
      assert StaysOrGoes(t.before, t.prepared, t.Home(), t.f, s);
    }
  }

  /** A valid trip has got its level ready. */
  lemma TripGetsReady(t: Trip)
    requires t.Valid()
    ensures IsReadied(t.saved, t.before, t.prepared, t.Home(), t.taken, t.spawning, t.f)
  {
    hide Trip.Valid, GotReady, KeepsNames, RestoresInPlace;
    HomeIsBijection(t);
    HomeGotReady(t);
    HomeKeepsNames(t);
    HomeRestoresInPlace(t);
  }

  lemma OthersStay(t: Trip, after: ActorArray, s: nat)
    requires t.Valid() && t.EndsAs(after) && s < |t.prepared| && !IsHome(t.Home(), s)
    ensures after[s] == t.prepared[s]
  {
    hide Trip.Valid, IsLoaded, LevelFilter.ShouldSave, IsHome;
    if IsSaved(t.prepared, s, t.f) {
      HomeIsOnto(t, s);
    }
    OnlySavableLoaded(t.prepared[s], after[s], t.records, t.f);
  }

  lemma HomeCarriesSaved(t: Trip, after: ActorArray)
    requires t.Valid() && t.EndsAs(after) && IsBijection(t.saved, t.prepared, t.Home(), t.f)
    ensures CarriesSaved(t.saved, t.prepared, after, t.Home(), t.f)
  {
    hide Trip.Valid, CarriesOne, IsLoaded, LevelFilter.ShouldSave, IsHome;
    forall i | i in t.Home()
      ensures CarriesOne(t.saved[i].value, t.prepared[t.Home()[i]], after[t.Home()[i]], t.f)
    {
      OwnerIsRestored(t, after, t.RecordFrom(i));
    }
    forall s: nat | s < |t.prepared| && !IsHome(t.Home(), s)
      ensures after[s] == t.prepared[s]
    {
      OthersStay(t, after, s);
    }
  }

  /** A valid trip is a restoration. */
  lemma TripRestores(t: Trip, after: ActorArray)
    requires t.Valid() && t.EndsAs(after)
    ensures IsRestoration(t.saved, t.before, t.prepared, after, t.Home(), t.taken, t.spawning, t.f)
  {
    hide Trip.Valid, Trip.EndsAs, CarriesSaved, GotReady, KeepsNames, RestoresInPlace;
    TripGetsReady(t);
    HomeCarriesSaved(t, after);
  }

  /** A level entry comes with the records a save made of a level of the same kind. */
  ghost predicate ComesFrom(e: LevelEntry, saved: ActorArray) {
    e.records.Some? ==>
      e.records.value == SavedActors(saved, e.filter) && DistinctActors(saved)
  }

  /** What is known of a level once it has been prepared; without a record it is as it was. */
  ghost predicate IsPrepared(e: LevelEntry, e': LevelEntry, saved: ActorArray, before: ActorArray, taken: set<Name>,
                             now: ActorArray, t: Trip)
  {
    if e.records.None? then e' == e && now == before
    else
      && e' == e.(records := Some(t.records))
      && t == Trip(saved, t.at, t.records, before, now, t.owner, taken, e.level.spawning, e.filter) && t.Valid()
  }

  /** The first half of loading a level: its actors are reconciled with the records. */
  method PrepareEntry(e: LevelEntry, ghost saved: ActorArray) returns (e': LevelEntry, ghost t: Trip)
    requires e.level.Valid() && ComesFrom(e, saved)
    modifies e.level
    ensures e.level.Valid()
    ensures IsPrepared(e, e', saved, old(e.level.actors), NamesOf(old(e.level.actors))
                       + old(e.level.garbage), e.level.actors, t)
  {
    var level := e.level;
    ghost var before, taken := level.actors, NamesOf(level.actors) + level.garbage;
    ghost var at := SavedActorsAreExactlyTheSavable(saved, e.filter);
    e' := e;
    ghost var renamed, owner := [], map[];
    if e.records.Some? {
      var records;
      records, owner := PrepareLevel(level, e.records.value, e.filter);
      e', renamed := e.(records := Some(records)), records;
    }
    t := Trip(saved, at, renamed, before, level.actors, owner, taken, level.spawning, e.filter);
  }

  /** Loading what has been prepared, once or twice, completes the trip. */
  lemma LoadedIsRestored(e: LevelEntry, e': LevelEntry, saved: ActorArray, before: ActorArray, taken: set<Name>,
                         now: ActorArray, t: Trip, after: ActorArray)
    requires IsPrepared(e, e', saved, before, taken, now, t) && e.records.Some? && t.EndsAs(after)
    ensures IsRestoration(saved, before, now, after, t.Home(), taken, e.level.spawning, e.filter)
  {
    hide Trip.Valid, Trip.EndsAs, IsRestoration;
    TripRestores(t, after);
  }

  /** A prepared level is ready to load. */
  lemma PreparedIsReadied(e: LevelEntry, e': LevelEntry, saved: ActorArray, before: ActorArray, taken: set<Name>,
                          now: ActorArray, t: Trip)
    requires IsPrepared(e, e', saved, before, taken, now, t) && e.records.Some?
    ensures IsReadied(saved, before, now, t.Home(), taken, e.level.spawning, e.filter)
  {
    hide Trip.Valid, IsReadied;
    TripGetsReady(t);
  }

  /** A level is what was saved of it, whatever it was before the load. */
  twostate predicate IsRestored(level: Level, new saved: ActorArray, new ready: ActorArray, new home: map<nat, nat>,
                                new f: LevelFilter)
    reads level
  {
    IsRestoration(saved, old(level.actors), ready, level.actors, home,
                  NamesOf(old(level.actors)) + old(level.garbage), level.spawning, f)
  }

  /** What a level was when ready to load, given what it was before. */
  twostate predicate WasReadied(level: Level, new saved: ActorArray, new ready: ActorArray, new home: map<nat, nat>,
                                new f: LevelFilter)
    reads level
  {
    IsReadied(saved, old(level.actors), ready, home,
              NamesOf(old(level.actors)) + old(level.garbage), level.spawning, f)
  }

  /** The synchronous load loads once. */
  lemma LoadedOnce(t: Trip)
    ensures t.EndsAs(RestoredLevel(t.prepared, t.records, t.f))
  {
  }

  /** The split load loads once or twice. */
  lemma LoadedInFrames(t: Trip, e: LevelEntry, after: ActorArray, redone: set<nat>)
    requires e.records == Some(t.records) && e.filter == t.f
    requires PartlyLoaded(e, t.prepared, after, |t.prepared|, redone)
    ensures t.EndsAs(after)
  {
    hide RestoredEntry;
  }

  /**
   * Loads a level from the records a save made of it, whatever has become of the level since. The trip restores it:
   * the savable live actors stand for the saved ones, one for one, each carrying what its tags let through.
   */
  method LoadSavedLevel(level: Level, ghost saved: ActorArray, records: seq<ActorRecord>, f: LevelFilter)
    returns (ghost home: map<nat, nat>, ghost ready: ActorArray)
    requires level.Valid() && DistinctActors(saved)
    requires records == SavedActors(saved, f)
    modifies level
    ensures level.Valid()
    ensures IsRestored(level, saved, ready, home, f)
  {
    hide SavedActors, Trip.Valid, Trip.EndsAs, IsRestoration, DistinctActors, RestoredLevel;
    ghost var before, taken := level.actors, NamesOf(level.actors) + level.garbage;
    var e := LevelEntry(level, Some(records), f);
    var e';
    ghost var t;
    e', t := PrepareEntry(e, saved);
    ready := level.actors;
    RestoredStaysValid(level.actors, e'.records.value, f);
    DeserializeLevelSync(e');
    LoadedOnce(t);
    LoadedIsRestored(e, e', saved, before, taken, ready, t, level.actors);
    home := t.Home();
  }

  /** A saved actor without data, loaded into a level that has lost it: it is there again, but as its class constructs
      it, and nothing else that was saved of it is. */
  method LoadActorWithoutData(level: Level, saved: Actor, f: LevelFilter)
    requires level.Valid() && level.actors == []
    requires f.ShouldSave(saved) && saved.name != NAME_NONE && saved.blob == []
    modifies level
    ensures |level.actors| == 1 && IsRespawned(saved, level.actors[0], level.spawning)
  {
    hide SavedActors, IsRespawned, LevelFilter.ShouldSave;
    ghost var home, ready;
    home, ready := LoadSavedLevel(level, [Some(saved)], SavedActors([Some(saved)], f), f);
    ghost var taken := NamesOf([]) + old(level.garbage);
    OnlyOneIsRespawned(saved, ready, level.actors, home, taken, level.spawning, f);
  }

  lemma OnlyOneIsRespawned(saved: Actor, ready: ActorArray, after: ActorArray, home: map<nat, nat>, taken: set<Name>,
                           spawning: Spawning, f: LevelFilter)
    requires f.ShouldSave(saved) && saved.blob == []
    requires IsRestoration([Some(saved)], [], ready, after, home, taken, spawning, f)
    ensures |after| == 1 && IsRespawned(saved, after[0], spawning)
  {
    hide IsRespawned, LevelFilter.ShouldSave;
    assert IsSaved([Some(saved)], 0, f);
    assert IsThereOrRespawned([Some(saved)], [], ready, home, spawning, 0);
  }

  ghost function TakenIn(entries: seq<LevelEntry>): (taken: seq<set<Name>>)
    reads LevelsOf(entries)
    ensures |taken| == |entries|
    ensures forall k :: 0 <= k < |entries| ==> taken[k] == NamesOf(entries[k].level.actors) + entries[k].level.garbage
  {
    seq(|entries|, k requires 0 <= k < |entries| reads LevelsOf(entries) =>
          NamesOf(entries[k].level.actors) + entries[k].level.garbage)
  }

  /** The first `n` levels have been prepared, and the others have not been touched. */
  ghost predicate PreparedSoFar(entries: seq<LevelEntry>, entries': seq<LevelEntry>, saved: seq<ActorArray>,
                                before: seq<ActorArray>, taken: seq<set<Name>>, now: seq<ActorArray>, trips: seq<Trip>,
                                n: nat)
    requires n <= |entries| == |saved| == |before| == |taken| == |now| && |entries'| == |trips| == n
  {
    && (forall k :: 0 <= k < n ==> IsPrepared(entries[k], entries'[k], saved[k], before[k], taken[k], now[k], trips[k]))
    && (forall k :: n <= k < |entries| ==> now[k] == before[k])
  }

  lemma PreparedNext(entries: seq<LevelEntry>, entries': seq<LevelEntry>, saved: seq<ActorArray>,
                     before: seq<ActorArray>, taken: seq<set<Name>>, now: seq<ActorArray>, trips: seq<Trip>,
                     e': LevelEntry, t: Trip, now': seq<ActorArray>)
    requires |entries'| == |trips| < |entries| == |saved| == |before| == |taken| == |now| == |now'|
    requires PreparedSoFar(entries, entries', saved, before, taken, now, trips, |trips|)
    requires var n := |trips|; IsPrepared(entries[n], e', saved[n], before[n], taken[n], now'[n], t)
    requires forall k :: 0 <= k < |now| && k != |trips| ==> now'[k] == now[k]
    ensures PreparedSoFar(entries, entries' + [e'], saved, before, taken, now', trips + [t], |trips| + 1)
  {
    hide IsPrepared;
  }

  /** Prepares every level of the world. */
  method PrepareAllLevels(entries: seq<LevelEntry>, ghost saved: seq<ActorArray>)
    returns (entries': seq<LevelEntry>, ghost trips: seq<Trip>)
    requires DistinctLevels(entries) && AllValid(entries) && |saved| == |entries|
    requires forall k :: 0 <= k < |entries| ==> ComesFrom(entries[k], saved[k])
    modifies LevelsOf(entries)
    ensures AllValid(entries) && |entries'| == |trips| == |entries|
    ensures PreparedSoFar(entries, entries', saved, old(ActorsOf(entries)), old(TakenIn(entries)), ActorsOf(entries),
                          trips, |entries|)
  {
    hide PreparedSoFar, IsPrepared, ComesFrom, DistinctActors, NamesOf;
    ghost var before, taken := ActorsOf(entries), TakenIn(entries);
    entries', trips := [], [];
    assert PreparedSoFar(entries, entries', saved, before, taken, before, trips, 0) by {
      NothingPreparedYet(entries, saved, before, taken);
    }
    for i := 0 to |entries|
      invariant AllValid(entries) && |entries'| == |trips| == i
      invariant PreparedSoFar(entries, entries', saved, before, taken, ActorsOf(entries), trips, i)
      invariant forall k :: i <= k < |entries| ==> ActorsOf(entries)[k] == before[k] && TakenIn(entries)[k] == taken[k]
    {
      assert entries[i].level in LevelsOf(entries);
      ghost var now := ActorsOf(entries);
      var e';
      ghost var t;
      e', t := PrepareEntry(entries[i], saved[i]);
      PreparedNext(entries, entries', saved, before, taken, now, trips, e', t, ActorsOf(entries));
      entries', trips := entries' + [e'], trips + [t];
    }
  }

  lemma NothingPreparedYet(entries: seq<LevelEntry>, saved: seq<ActorArray>, before: seq<ActorArray>,
                           taken: seq<set<Name>>)
    requires |entries| == |saved| == |before| == |taken|
    ensures PreparedSoFar(entries, [], saved, before, taken, before, [], 0)
  {
  }

  /** Prepared entries are of the same levels. */
  lemma PreparedLevelsAreTheSame(entries: seq<LevelEntry>, entries': seq<LevelEntry>)
    requires |entries'| == |entries| && forall k :: 0 <= k < |entries| ==> entries'[k].level == entries[k].level
    requires DistinctLevels(entries)
    ensures DistinctLevels(entries') && LevelsOf(entries') == LevelsOf(entries)
  {
    forall level
      ensures level in LevelsOf(entries') <==> level in LevelsOf(entries)
    {
      if level in LevelsOf(entries') {
        var k :| 0 <= k < |entries'| && entries'[k].level == level;
        assert entries[k].level in LevelsOf(entries);
      }
      if level in LevelsOf(entries) {
        var k :| 0 <= k < |entries| && entries[k].level == level;
        assert entries'[k].level in LevelsOf(entries');
      }
    }
  }

  /** Who stands for whom, level by level. */
  ghost function HomesOf(trips: seq<Trip>, entries: seq<LevelEntry>): (homes: seq<map<nat, nat>>)
    requires |trips| == |entries| && forall k :: 0 <= k < |entries| && entries[k].records.Some? ==> trips[k].Valid()
    ensures |homes| == |entries|
    ensures forall k :: 0 <= k < |entries| && entries[k].records.Some? ==> homes[k] == trips[k].Home()
  {
    seq(|entries|, k requires 0 <= k < |entries| => if entries[k].records.Some? then trips[k].Home() else map[])
  }

  /** What has become of every level once all are ready to load; a level without a record is as it was. */
  twostate predicate AllReadied(entries: seq<LevelEntry>, new saved: seq<ActorArray>, new ready: seq<ActorArray>,
                                new homes: seq<map<nat, nat>>)
    reads LevelsOf(entries)
  {
    && |saved| == |ready| == |homes| == |entries|
    && forall k :: 0 <= k < |entries| ==>
         if entries[k].records.None? then ready[k] == old(entries[k].level.actors)
         else WasReadied(entries[k].level, saved[k], ready[k], homes[k], entries[k].filter)
  }

  /**
   * Loads a world: all its levels are prepared before any is deserialized. Every level with a record is restored to
   * what was saved of it, and every other is left alone.
   */
  method LoadSavedWorld(entries: seq<LevelEntry>, ghost saved: seq<ActorArray>)
    returns (ghost homes: seq<map<nat, nat>>, ghost ready: seq<ActorArray>)
    requires DistinctLevels(entries) && AllValid(entries) && |saved| == |entries|
    requires forall k :: 0 <= k < |entries| ==> ComesFrom(entries[k], saved[k])
    modifies LevelsOf(entries)
    ensures |homes| == |ready| == |entries|
    ensures forall k :: 0 <= k < |entries| ==>
              if entries[k].records.None? then entries[k].level.actors == old(entries[k].level.actors)
              else IsRestored(entries[k].level, saved[k], ready[k], homes[k], entries[k].filter)
  {
    hide IsRestoration, Trip.Valid, Trip.EndsAs, RestoredLevel, AllValid, ComesFrom;
    ghost var before, taken := ActorsOf(entries), TakenIn(entries);
    var entries';
    ghost var trips;
    entries', trips := PrepareAllLevels(entries, saved);
    ready, homes := ActorsOf(entries), HomesOf(trips, entries);
    PreparedLevelsAreTheSame(entries, entries');
    DeserializeSync(entries');
    forall k | 0 <= k < |entries| && entries[k].records.Some?
      ensures IsRestoration(saved[k], before[k], ready[k], entries[k].level.actors, homes[k], taken[k],
                            entries[k].level.spawning, entries[k].filter)
    {
      LoadedOnce(trips[k]);
      LoadedIsRestored(entries[k], entries'[k], saved[k], before[k], taken[k], ready[k], trips[k],
                       entries[k].level.actors);
    }
  }

  /** The most a load can have to go from level `k` on: past all that were there and all that were saved. */
  function WorkFrom(before: seq<ActorArray>, saved: seq<ActorArray>, k: nat): nat
    requires |before| == |saved|
    decreases |before| - k
  {
    if k >= |before| then 0 else |before[k]| + |saved[k]| + 1 + WorkFrom(before, saved, k + 1)
  }

  lemma {:induction false} LeftIsBounded(before: seq<ActorArray>, saved: seq<ActorArray>, ready: seq<ActorArray>,
                                         k: nat)
    requires |before| == |saved| == |ready|
    requires forall i :: 0 <= i < |ready| ==> |ready[i]| <= |before[i]| + |saved[i]|
    ensures LeftFrom(ready, k) <= WorkFrom(before, saved, k)
    decreases |ready| - k
  {
    hide LiveOf;
    if k < |ready| {
      LeftIsBounded(before, saved, ready, k + 1);
    }
  }

  /** Prepares a world and loads it over some frames of any clock. */
  method LoadPreparedInFrames(entries: seq<LevelEntry>, at: Clock, maxFrameMs: real, frames: nat)
    returns (loader: FrameLoader)
    requires DistinctLevels(entries) && entries != []
    modifies LevelsOf(entries)
    ensures fresh(loader) && loader.entries == entries && loader.Valid() && loader.state != NotStarted
    ensures loader.initial == old(ActorsOf(entries)) && loader.frame == frames
    ensures loader.at == at && loader.maxFrameMs == maxFrameMs
    ensures FittingFrames(at, maxFrameMs, 0, frames) >= LeftFrom(loader.initial, 0) ==> loader.state.Finished?
  {
    hide FrameLoader.Valid, LiveOf, FittingFrames, PartlyLoaded;
    loader := new FrameLoader(entries, at, maxFrameMs);
    ghost var spec := Run(at, entries, ActorsOf(entries), maxFrameMs);
    StopIsLater(spec, 0, 0, 0, spec.LevelStart(0, 0));
    loader.DeserializeASync();
    assert loader.Left() <= LeftFrom(spec.initial, 0);
    loader.RunFrames(frames);
  }

  /** The levels a finished split load has loaded: all, or those before the first without a record. */
  ghost function LoadedLevels(loader: FrameLoader): nat
    reads loader
  {
    if loader.state == Finished(true) then |loader.entries| else loader.currentLevel
  }

  /** A level that a finished split load has loaded is the end of its trip; the others are as they were. */
  lemma FinishedInFrames(loader: FrameLoader, t: Trip, k: nat)
    requires loader.Valid() && loader.state.Finished? && k < |loader.entries|
    requires k < LoadedLevels(loader) ==>
               && loader.entries[k].records == Some(t.records) && loader.entries[k].filter == t.f
               && loader.initial[k] == t.prepared
    ensures if k < LoadedLevels(loader) then t.EndsAs(loader.entries[k].level.actors)
            else loader.entries[k].level.actors == loader.initial[k]
  {
    hide PartlyLoaded, Trip.EndsAs;
    if k < LoadedLevels(loader) {
      assert loader.Part(k, |loader.initial[k]|);
      LoadedInFrames(t, loader.entries[k], loader.entries[k].level.actors, loader.redone[k]);
    }
  }

  /** Where a finished split load ends. */
  lemma LoadsUpToAMissingRecord(loader: FrameLoader)
    requires loader.Valid() && loader.state.Finished?
    ensures LoadedLevels(loader) <= |loader.entries|
    ensures forall k :: 0 <= k < LoadedLevels(loader) ==> loader.entries[k].records.Some?
    ensures if loader.state.success then LoadedLevels(loader) == |loader.entries|
            else LoadedLevels(loader) < |loader.entries| && loader.entries[LoadedLevels(loader)].records.None?
  {
    hide PartlyLoaded;
  }

  /**
   * Loads a world over some frames, whatever the clock does. Its levels get ready, and the loader takes them from
   * there. Once it has finished, every level before the first without a record is restored to what was saved of it, and
   * the others are as they were when ready; the load has succeeded if there is no such level. It does finish, given as
   * many frames that get their first actor done as there are actors in the levels and actors saved, and levels.
   */
  method LoadSavedWorldInFrames(entries: seq<LevelEntry>, ghost saved: seq<ActorArray>, at: Clock, maxFrameMs: real,
                                frames: nat)
    returns (loader: FrameLoader, ghost homes: seq<map<nat, nat>>, ghost ready: seq<ActorArray>)
    requires DistinctLevels(entries) && AllValid(entries) && |saved| == |entries| && entries != []
    requires forall k :: 0 <= k < |entries| ==> ComesFrom(entries[k], saved[k])
    modifies LevelsOf(entries)
    ensures fresh(loader) && loader.Valid() && loader.state != NotStarted && loader.initial == ready
    ensures loader.at == at && loader.maxFrameMs == maxFrameMs && loader.frame == frames
    ensures |loader.entries| == |entries|
    ensures forall k :: 0 <= k < |entries| ==>
              loader.entries[k].level == entries[k].level && loader.entries[k].filter == entries[k].filter
    ensures AllReadied(entries, saved, ready, homes)
    ensures FittingFrames(at, maxFrameMs, 0, frames) >= WorkFrom(old(ActorsOf(entries)), saved, 0)
            ==> loader.state.Finished?
    ensures loader.state.Finished? ==>
              var done := LoadedLevels(loader);
              && done <= |entries| && (forall k :: 0 <= k < done ==> entries[k].records.Some?)
              && (if loader.state.success then done == |entries| else done < |entries| && entries[done].records.None?)
              && (forall k :: done <= k < |entries| ==> entries[k].level.actors == ready[k])
              && forall k :: 0 <= k < done ==>
                   IsRestored(entries[k].level, saved[k], ready[k], homes[k], entries[k].filter)
  {
    hide IsRestoration, IsReadied, Trip.Valid, Trip.EndsAs, FrameLoader.Valid, FittingFrames, LeftFrom, WorkFrom,
         AllValid, ComesFrom, LoadedLevels;
    ghost var before, taken := ActorsOf(entries), TakenIn(entries);
    var entries';
    ghost var trips;
    entries', trips := PrepareAllLevels(entries, saved);
    ready, homes := ActorsOf(entries), HomesOf(trips, entries);
    PreparedLevelsAreTheSame(entries, entries');
    assert ActorsOf(entries') == ready;
    WorldIsReadied(entries, entries', saved, before, taken, ready, trips);
    LeftIsBounded(before, saved, ready, 0);
    loader := LoadPreparedInFrames(entries', at, maxFrameMs, frames);
    if loader.state.Finished? {
      LoadsUpToAMissingRecord(loader);
      forall k | 0 <= k < |entries|
        ensures if k < LoadedLevels(loader)
                then IsRestoration(saved[k], before[k], ready[k], entries[k].level.actors, homes[k], taken[k],
                                   entries[k].level.spawning, entries[k].filter)
                else entries[k].level.actors == ready[k]
      {
        FinishedLevel(loader, entries, entries', saved, before, taken, ready, trips, k);
      }
    }
  }

  /** What a finished split load of a prepared world has made of a level. */
  lemma FinishedLevel(loader: FrameLoader, entries: seq<LevelEntry>, entries': seq<LevelEntry>, saved: seq<ActorArray>,
                      before: seq<ActorArray>, taken: seq<set<Name>>, ready: seq<ActorArray>, trips: seq<Trip>, k: nat)
    requires loader.Valid() && loader.state.Finished? && loader.entries == entries' && loader.initial == ready
    requires k < |entries| == |saved| == |before| == |taken| == |ready| == |entries'| == |trips|
    requires PreparedSoFar(entries, entries', saved, before, taken, ready, trips, |entries|)
    ensures if k < LoadedLevels(loader)
            then && entries[k].records.Some? && trips[k].Valid()
                 && IsRestoration(saved[k], before[k], ready[k], entries'[k].level.actors, trips[k].Home(), taken[k],
                                  entries[k].level.spawning, entries[k].filter)
            else entries'[k].level.actors == ready[k]
  {
    hide IsRestoration, Trip.Valid, Trip.EndsAs, FrameLoader.Valid, LoadedLevels;
    assert IsPrepared(entries[k], entries'[k], saved[k], before[k], taken[k], ready[k], trips[k]);
    LoadsUpToAMissingRecord(loader);
    FinishedInFrames(loader, trips[k], k);
    if k < LoadedLevels(loader) {
      LoadedIsRestored(entries[k], entries'[k], saved[k], before[k], taken[k], ready[k], trips[k],
                       entries'[k].level.actors);
    }
  }

  /** Every level of a prepared world is ready to load, and not much larger than it was. */
  lemma WorldIsReadied(entries: seq<LevelEntry>, entries': seq<LevelEntry>, saved: seq<ActorArray>,
                       before: seq<ActorArray>, taken: seq<set<Name>>, ready: seq<ActorArray>, trips: seq<Trip>)
    requires |entries| == |saved| == |before| == |taken| == |ready| == |entries'| == |trips|
    requires PreparedSoFar(entries, entries', saved, before, taken, ready, trips, |entries|)
    ensures forall k :: 0 <= k < |entries| ==>
              if entries[k].records.None? then ready[k] == before[k]
              else && trips[k].Valid()
                   && IsReadied(saved[k], before[k], ready[k], trips[k].Home(), taken[k], entries[k].level.spawning,
                                entries[k].filter)
    ensures forall k :: 0 <= k < |entries| ==> |ready[k]| <= |before[k]| + |saved[k]|
  {
    hide IsReadied, Trip.Valid;
    forall k | 0 <= k < |entries| && entries[k].records.Some?
      ensures trips[k].Valid()
      ensures IsReadied(saved[k], before[k], ready[k], trips[k].Home(), taken[k], entries[k].level.spawning,
                        entries[k].filter)
      ensures |ready[k]| <= |before[k]| + |saved[k]|
    {
      assert IsPrepared(entries[k], entries'[k], saved[k], before[k], taken[k], ready[k], trips[k]);
      PreparedIsReadied(entries[k], entries'[k], saved[k], before[k], taken[k], ready[k], trips[k]);
      ReadiedIsBounded(saved[k], before[k], ready[k], trips[k].Home(), taken[k], entries[k].level.spawning,
                       entries[k].filter);
    }
  }

  lemma ReadiedIsBounded(saved: ActorArray, before: ActorArray, ready: ActorArray, home: map<nat, nat>,
                         taken: set<Name>, spawning: Spawning, f: LevelFilter)
    requires IsReadied(saved, before, ready, home, taken, spawning, f)
    ensures |ready| <= |before| + |saved|
  {
    hide IsRespawned;
  }

  lemma RestoredStaysValid(actors: ActorArray, records: seq<ActorRecord>, f: LevelFilter)
    requires DistinctActors(actors)
    ensures DistinctActors(RestoredLevel(actors, records, f))
  {
    var after := RestoredLevel(actors, records, f);
    forall i | 0 <= i < |actors| && after[i].Some?
      ensures actors[i].Some? && after[i].value.name == actors[i].value.name
    {
      RestoringAnEntry(actors[i], records, f);
    }
  }
}
