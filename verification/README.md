# SaveExtension, modelled and proved

SaveExtension snapshots a game world into records, writes them to one slot file, and later rebuilds the world from
them. This project models its algorithms in Dafny and proves what they are for.

* **Saving** (`Saver.dfy`, `Chunks.dfy`, `WorldSaver.dfy`): levels are split into chunks that concurrent tasks filter and
  serialize; the tasks advance in an arbitrary interleaving, and are dumped in order.
* **Loading** (`Restoring.dfy`, `Levels.dfy`, `Reconciling.dfy`, `Loader.dfy`, `RoundTrip.dfy`): live actors are reconciled
  with the records by swap-removal, destruction and respawning, then restored at once or over many frames of any clock.
* **Files** (`Codec.dfy`, `Archive.dfy`, `SaveFile.dfy`): one bidirectional, nested, conditional format, read and written
  through a cursor over words, and the save file around it. `WholeTrip.dfy` puts save, file and load together.
* **The task queue** (`SaveManager.dfy`): saving, loading and level tasks run one at a time; they may finish while they
  start, and listeners may ask for more at any notification.
* **Class filters** (`Engine.dfy`, `ClassFilter.dfy`, `ClassTree.dfy`, `FilterNode.dfy`, `FilterEditor.dfy`): the baked set,
  the tree of all classes, and the editor that keeps a second account of what a filter decides.
* **Test specs** (`SpecBaking.dfy`): nested scopes flattened with an explicit stack.
* **Background tasks** (`TaskList.dfy`): completion noticed by ticking, and notified exactly once.

Code that changes state in place is a class or a loop, proved against a function of its inputs or of the old state, and the
properties are proved of that function. Threads, clocks, listeners, the engine's choice of names and what is found on disk
are nondeterministic or parameters.

Where the code does not do what one might expect, the exact condition is proved:

* A frame that runs out of time redoes its last actor. For every clock the split load equals the synchronous one if all
  actors are *repeatable*: none has a component that gains, with its restored tags, a transform that its old tags kept
  out (`Restoring.RestoringTwice`, `Loading.FrameLoader.RepeatableLoadsAlike`). For any actor that is not, there is a
  clock under which the load finishes with a different level (`Loading.LoadThatDiffers`), and a save can make the
  records for one (`Restoring.RestoringTwiceCanDiffer`, `Loading.SavedLoadThatDiffers`). Redone or not, a finished split
  load of a saved world restores what was saved (`RoundTrip.LoadSavedWorldInFrames`).
* A split level load that runs out of time is never resumed and blocks the queue; apart from that every task comes to its
  end (`SaveManagers.SaveManager.Drain`, `SaveManagers.SaveManager.Perform`).
* A level without a record is skipped by the synchronous load and fails the split one
  (`Loading.FrameLoader.SucceedsIffAllHaveRecords`).
* A record is read back if and only if a class comes with a name and can be resolved; saves make no others
  (`Codec.ActorsRoundTrip`, `WholeTrip.SavedSlotIsGood`).
* The editor's root node is never marked from the filter, and not shown. What it shows is right on a class if and only if
  nothing at or above the root decides, or some mark stands between the class and the root
  (`FilterEditor.AgreesIffShielded`, `FilterEditor.AgreesOnAllShownIff`; `FilterEditor.ShownCanDisagree` is a class shown
  blank and allowed). On classes allowed unseen a first click decides nothing (`FilterEditor.SClassFilter.ClickInStep`).
* A record without data is invalid, so its actor is respawned but not restored: a record carries a saved actor over if and
  only if that has a name and data (`RoundTrip.RestoredIffItHasData`); one without data comes back as its class
  constructs it, at the place stored (`RoundTrip.LoadActorWithoutData`).
* What is stored of an actor depends on the mobility of its root when it is saved, and what is restored on that of its
  root when it is loaded. Everything stored comes back, and nothing else changes, if and only if the tags let the same
  through on both (`Restoring.CarriedIffGatesAgree`); else an actor may jump to the origin or stay still
  (`Restoring.FixedRootIsNotWhereItWas`, `Restoring.MotionNeedsItsRoot`).
* Likewise a component whose own tags let in a transform that was not saved is reset (`Restoring.ComponentRoundTrip`,
  `Restoring.UnstoredPlaceIsReset`).

## Model

| member | source | states |
|---|---|---|
| WholeTrip.SaveAndRestore | Source/SaveExtension/Private/Serialization/SlotDataTask_Loader.cpp:234-260 | A world saved by tasks interleaved in any way, written to a file (compressed or not), read back, and loaded, in one go or over frames of any clock, into levels changed in any way, streamed in or out since, is restored level by level, from this save or, if the level was not loaded, from an earlier one: savable live actors in bijection with the saved ones of their class, barely moving actors at rest, respawned ones as their class constructs them, at the place stored, excluded actors untouched. Each actor whose data was not empty carries what its tags let through on the root it has now, components included, over what it was when its level was ready to load; one without data is as it was then. A level of which nothing was ever saved is as it was; a load over frames ends there, with the levels after it as they were when ready. The load does end, over frames, given as many that get their first actor done in time as there are levels, actors in them before and actors saved of them |
| WholeTrip.SaveAndReadBack | Source/SaveExtension/Private/Serialization/SlotDataTask_Saver.cpp:19-107 | What comes back from the file is the slot the save made, as far as records keep it, whatever the slot held before |
| WholeTrip.StreamingLevelComesBack | Source/SaveExtension/Private/Serialization/SlotDataTask.cpp:72-87 | The record of a loaded streaming level is found by name in what was read back, as the save of that level under the filter it was saved with |
| WholeTrip.SavedSlotIsGood | Source/SaveExtension/Private/Serialization/MTTask_SerializeActors.cpp:51-110 | Every slot a save makes of a world in which the classes of what is saved are loaded and its objects have names meets the condition under which the codec reads it back; what the filters exclude does not matter |
| WholeTrip.LevelComesBack | Source/SaveExtension/Private/Serialization/SlotDataTask.cpp:72-87 | For any level, loaded at the save or not: a record is found by name in what was read back if and only if something was saved of it, now or earlier, and it holds just that |
| WholeTrip.FileKeepsTheLevel | Source/SaveExtension/Private/Serialization/Records.cpp:53-76 | What a file keeps of a saved level is the save of the same actors with next-to-zero motion set to rest, under the same filter |
| WholeTrip.MotionComesBack | Source/SaveExtension/Private/Serialization/Records.cpp:66-73 | Through save, file and load: an actor moving or spinning on a root that can, with no tag against it, moves and spins as it did |
| WholeTrip.RestMeansNoMotion | Source/SaveExtension/Private/Serialization/Records.cpp:66-73 | Exactly those come to rest of whose stored velocities no coordinate is beyond 0.0001 |
| Saver.SavedActorsAreExactlyTheSavable | Source/SaveExtension/Private/Serialization/MTTask_SerializeActors.cpp:24-32 | The records of an actor array are in order-preserving bijection with its live, savable actors: none lost, invented or reordered |
| Saver.SavedAreThoseLetThrough | Source/SaveExtension/Public/LevelFilter.h:63-66 | Saved are exactly the live actors whose closest class with a mark, itself or above it, is an allowed one, so subclasses of allowed classes too: each under its own name, class, data and flags |
| Saver.BakeAndSave | Source/SaveExtension/Private/Serialization/SlotDataTask.cpp:47-63 | And, with the filter baked over the loaded classes, exactly those whose class is in the baked set |
| Saver.StoredComponentsAreThoseLetThrough | Source/SaveExtension/Private/Serialization/MTTask_SerializeActors.cpp:112-149 | Stored of an actor are exactly its components the same rule lets through, and none if the filter stores none |
| Saver.SaveTagOrNot | Source/SaveExtension/Private/LevelFilter.cpp:9-12 | The save tags are the three that forbid saving transform, physics and tags; with tags kept one by one, in order (Saver.OnlySaveTagsSplit) |
| Saver.SerializeActor | Source/SaveExtension/Private/Serialization/MTTask_SerializeActors.cpp:51-110 | The field-by-field filling yields the record that the actor's tags gate: its tags or only its save tags, transform, velocities by kind of root, components, data |
| Saver.SerializeActorComponents | Source/SaveExtension/Private/Serialization/MTTask_SerializeActors.cpp:112-149 | Exactly the components the filter saves, in order, each with the parts its tags and class let through |
| WorldSaving.WorldSaver.SerializeSlot | Source/SaveExtension/Private/Serialization/SlotDataTask_Saver.cpp:48-99 | What a save does to slot data: cleaned first and then filled, it holds the saves of the loaded levels, the records there were of the others, and the present game instance or none, never an earlier one; without authority it is left clean |
| Chunks.ChunksTile | Source/SaveExtension/Private/Serialization/SlotDataTask_Saver.cpp:235-257 | The chunks of a level cover it without gap or overlap, all but the last exactly of the chunk size, and only the first carries the game instance |
| Chunks.ChunksAreFew | Source/SaveExtension/Private/Serialization/SlotDataTask_Saver.cpp:229-233 | A level is split into at most as many chunks as it was assigned tasks |
| Chunks.ChunkIsTheLeast | Source/SaveExtension/Private/Serialization/SlotDataTask_Saver.cpp:229-233 | The chunk size is the least that is at least 40 and lets the assigned tasks cover the level |
| Chunks.TasksAreTheNearestShare | Source/SaveExtension/Private/Serialization/SlotDataTask_Saver.cpp:178-180 | A level is assigned the whole number nearest to its share of the threads, halves rounded up, and at least one |
| Chunks.ChunksContributeTheLevel | Source/SaveExtension/Private/Serialization/SlotDataTask_Saver.cpp:235-257 | Whatever the chunk size, what the chunks contribute to a record, one after the other, is the sequential save of the level |
| Chunks.TasksOverAllLevels | Source/SaveExtension/Private/Serialization/SlotDataTask_Saver.cpp:178-180 | Rounded tasks per level times the number of levels stay within the larger of the levels and the threads plus half the levels |
| WorldSaving.AllTasksAreFew | Source/SaveExtension/Private/Serialization/SlotDataTask_Saver.cpp:162-193 | All loaded levels together are split into no more chunks than that bound |
| Chunks.PlannedReceivesItsLevel | Source/SaveExtension/Private/Serialization/SlotDataTask_Saver.cpp:182-190 | Among the chunks of all levels, each level record receives exactly its own level's records |
| Chunks.UnplannedReceivesNothing | Source/SaveExtension/Private/Serialization/SlotDataTask_Saver.cpp:182-190 | A level record that no loaded level fills receives nothing |
| Chunks.CarriedIffSomeActors | Source/SaveExtension/Private/Serialization/SlotDataTask_Saver.cpp:244-252 | The game instance is stored by some chunk exactly when storing is on and some level has an actor entry |
| WorldSaving.SerializeNext | Source/SaveExtension/Private/Serialization/MTTask_SerializeActors.cpp:24-32 | One actor of a task: the records built so far stay the save of the range handled so far |
| WorldSaving.FinishedTasksBuildTheirChunks | Source/SaveExtension/Private/Serialization/MTTask_SerializeActors.cpp:16-33 | Once all tasks are finished, what they have built for a record is what their chunks contribute, however their steps were interleaved |
| WorldSaving.WorldSaver.RunTasks | Source/SaveExtension/Private/Serialization/SlotDataTask_Saver.cpp:260-280 | Advancing an arbitrary unfinished task at each step terminates with every task finished and each still the task that was scheduled |
| WorldSaving.WorldSaver.DumpAll | Source/SaveExtension/Public/Serialization/MTTask_SerializeActors.h:64-70 | Dumping in task order appends to each level record the records of its own tasks, and only those |
| WorldSaving.WorldSaver.PrepareAllLevels | Source/SaveExtension/Private/Serialization/SlotDataTask_Saver.cpp:195-207 | Each loaded streaming level has a record afterwards; existing ones stay, new ones are empty |
| WorldSaving.WorldSaver.ScheduleChunks | Source/SaveExtension/Private/Serialization/SlotDataTask_Saver.cpp:235-257 | The while loop appends exactly the chunks of the level |
| WorldSaving.WorldSaver.SerializeLevelSync | Source/SaveExtension/Private/Serialization/SlotDataTask_Saver.cpp:209-258 | The level's own record is emptied, no other changes, and its chunks are scheduled under the filter the record chooses: at most as many as assigned, and one without multithreading |
| WorldSaving.WorldSaver.RunScheduledTasks | Source/SaveExtension/Private/Serialization/SlotDataTask_Saver.cpp:260-287 | After any interleaving each record holds what the plan contributes to it; the game instance is stored iff some chunk carries it |
| WorldSaving.WorldSaver.SerializeWorld | Source/SaveExtension/Private/Serialization/SlotDataTask_Saver.cpp:162-193 | Parallel equals sequential: every loaded level's record is the sequential save of its actors, and records of levels that are not loaded are unchanged; without authority nothing changes |
| WorldSaving.SavedUnderItsFilter | Source/SaveExtension/Private/Serialization/SlotDataTask.cpp:72-79 | Each loaded level is saved under the filter of its own record if that overrides, and under the general one otherwise |
| Actors.GatesSurviveTheTrip | Source/SaveExtension/Public/LevelFilter.h:96-104 | Once an actor carries the tags its record kept, its transform, physics and tag decisions are those the saved one's tags make on the root the actor has, for every tag list |
| Restoring.TagsDecideMotion | Source/SaveExtension/Public/LevelFilter.h:101-104 | Tag by tag and root by root: when an actor gets back its transform, linear and angular velocity, and when it keeps those it has |
| Restoring.TagsDecideTags | Source/SaveExtension/Private/Serialization/SlotDataTask_Loader.cpp:508-521 | Its tags are the saved ones, or of those only the three save tags if they forbid it; whether it is hidden and its data always come back |
| Restoring.TagsDecideComponents | Source/SaveExtension/Public/LevelFilter.h:78-99 | Tag by tag and class by class, subclasses included: what a component gets back |
| Restoring.ActorRoundTrip | Source/SaveExtension/Private/Serialization/SlotDataTask_Loader.cpp:508-547 | Restoring the record of one actor into any actor, whatever its root, once or twice, carries over exactly what the saved tags allow on that root, components included, and leaves everything else alone; what they let in but had not let out is reset |
| Restoring.ComponentsAreCarried | Source/SaveExtension/Private/Serialization/SlotDataTask_Loader.cpp:549-593 | Over all components of an actor, loaded once or twice: each that is stored carries what was saved of the one of its name and class, or is reset where its tags let in a transform that was not saved; every other is left alone |
| Restoring.ComponentRoundTrip | Source/SaveExtension/Private/Serialization/SlotDataTask_Loader.cpp:549-593 | A component found by name and class gets its transform back if the tags of the saved and of the live component both let it through; it is reset if only the live one's do, and left where it is otherwise |
| Restoring.UnstoredPlaceIsReset | Source/SaveExtension/Private/Serialization/SlotDataTask_Loader.cpp:571-578 | An input for the middle case, from a save: a mesh goes to the origin, where it neither was saved nor had been |
| Restoring.CarriedIffGatesAgree | Source/SaveExtension/Public/LevelFilter.h:96-104 | Any actor of the saved one's class on a root of a given kind gets back all that was stored, and nothing else, if and only if the saved tags let the same through on that root as on the saved one |
| Restoring.FixedRootIsNotWhereItWas | Source/SaveExtension/Private/Serialization/SlotDataTask_Loader.cpp:508-521 | A failing input: an actor saved on a fixed root and loaded on a movable one jumps to the origin |
| Restoring.MotionNeedsItsRoot | Source/SaveExtension/Private/Serialization/SlotDataTask_Loader.cpp:508-531 | Another: one saved moving, on a movable primitive root, and loaded on a fixed one keeps still |
| Restoring.DeserializeActorComponents | Source/SaveExtension/Private/Serialization/SlotDataTask_Loader.cpp:549-593 | Every component is restored on its own from the first record matching its name and class, or left alone |
| Restoring.DeserializeLevelActor | Source/SaveExtension/Private/Serialization/SlotDataTask_Loader.cpp:476-486 | The in-place fill yields the restored actor; an actor without a valid record is left alone |
| Restoring.RestoringTwice | Source/SaveExtension/Private/Serialization/SlotDataTask_Loader.cpp:571-583 | Restoring an actor a second time changes nothing if and only if no component's new tags let a transform in that its old tags kept out |
| Restoring.RestoringThrice | Source/SaveExtension/Private/Serialization/SlotDataTask_Loader.cpp:508-547 | From the second restoration on nothing changes any more |
| Restoring.RestoringTwiceCanDiffer | Source/SaveExtension/Private/Serialization/SlotDataTask_Loader.cpp:571-583 | The failing input, from a save: a door whose mesh got the transform tag before it was saved, loaded into the same door without the tag, is not repeatable: tags are restored after they have decided about the transform |
| Restoring.RepeatableEntry | Source/SaveExtension/Private/Serialization/SlotDataTask_Loader.cpp:476-486 | The same exact condition for an entry of an actor array |
| Reconciling.RemoveSingleRecordPtrSwap | Source/SaveExtension/Private/Serialization/SlotDataTask_Loader.cpp:22-39 | Removes exactly one pending record that matches the actor by name and class, or none exactly when none does |
| Reconciling.RemovedAtSwap | Source/SaveExtension/Private/Serialization/SlotDataTask_Loader.cpp:35 | Swap-removal loses no other pending record and doubles none |
| Reconciling.MatchActors | Source/SaveExtension/Private/Serialization/SlotDataTask_Loader.cpp:398-415 | One pass matches records with distinct live actors of the same name and class; among savable actors exactly those without a match are destroyed |
| Reconciling.RespawnActors | Source/SaveExtension/Private/Serialization/SlotDataTask_Loader.cpp:455-474 | Every pending record is spawned, in order, as a new actor: just what its class constructs, where the record has it; and the record is renamed exactly as the spawn decided, only if its name was taken before or is another record's |
| RoundTrip.RespawnedInPlace | Source/SaveExtension/Private/Serialization/SlotDataTask_Loader.cpp:455-474 | A respawned actor is at the place of the saved one if that had a movable root and no tag forbade it |
| Reconciling.PrepareLevel | Source/SaveExtension/Private/Serialization/SlotDataTask_Loader.cpp:379-419 | Every record ends with one live actor of its own, by name and class; savable actors without a record are gone, nothing matched is destroyed; every new entry is one record's, and as its class constructs it where the record has it; a record is renamed only if its name was taken before or went to another record's actor |
| Reconciling.ReconciledNamesAreDistinct | Source/SaveExtension/Private/Serialization/SlotDataTask_Loader.cpp:455-474 | Record names end pairwise distinct, even when a renamed record collided with others still pending |
| RoundTrip.LoadSavedLevel | Source/SaveExtension/Private/Serialization/SlotDataTask_Loader.cpp:262-285 | Loading a level from a save of it, whatever has become of it, restores it. Getting ready: who was there stays, unless savable and standing for no saved actor; who joins is respawned for a saved one, as its class constructs it, at the place stored. Then: bijection between actors of the same classes, contents carried (components included, as tags and roots allow) where the saved data was not empty, everything else as it was when the level was ready, names kept unless taken, excluded actors untouched |
| RoundTrip.RestorationMeans | Source/SaveExtension/Private/Serialization/SlotDataTask_Loader.cpp:379-486 | What was so when a level was ready is so after the load: the bijection with the saved actors, the names kept and the places kept, and every actor past those that were there before stands for a saved one |
| RoundTrip.ComesBackInFull | Source/SaveExtension/Private/Serialization/SlotDataTask_Loader.cpp:508-547 | In a level restored, every actor with data whose tags let the same through on its root now as when it was saved has back all that was stored of it, and nothing else has changed |
| RoundTrip.RestoredIffItHasData | Source/SaveExtension/Private/Serialization/SlotDataTask_Loader.cpp:476-486 | The record of a saved actor restores every live actor of its name and class, as the root of that allows, if and only if it has a name and data |
| RoundTrip.LoadActorWithoutData | Source/SaveExtension/Private/Serialization/SlotDataTask_Loader.cpp:455-486 | The failing input: an actor saved without data comes back to a level that has lost it just as its class constructs it, at the place stored |
| RoundTrip.PrepareAllLevels | Source/SaveExtension/Private/Serialization/SlotDataTask_Loader.cpp:430-453 | Every level with a record is reconciled with it before any is deserialized; levels without one are left alone |
| RoundTrip.LoadSavedWorld | Source/SaveExtension/Private/Serialization/SlotDataTask_Loader.cpp:234-260 | With all levels prepared first and deserialized after, every level with a record is restored in that sense, respawned actors included, and every other is as it was |
| RoundTrip.LoadSavedWorldInFrames | Source/SaveExtension/Private/Serialization/SlotDataTask_Loader.cpp:262-377 | The split load of a saved world, once finished, is under every clock a restoration of every level before the first without a record, though actors may have been loaded twice; the others are as they were when ready (prepared, or as before the load if without a record), and there are none exactly if it succeeded. It does finish, given as many frames whose first actor is done in time as there are levels, actors in them before the load and actors saved |
| RoundTrip.OwnerIsRestored | Source/SaveExtension/Private/Serialization/SlotDataTask_Loader.cpp:476-486 | The record matched with a live actor is the one the loader's search finds, so the actor is restored from it |
| RoundTrip.InPlace | Source/SaveExtension/Private/Serialization/SlotDataTask_Loader.cpp:404-413 | A live actor with the name and class of a saved one is the one that stands for it |
| RoundTrip.NameWentToAnother | Source/SaveExtension/Private/Serialization/SlotDataTask_Loader.cpp:470-473 | A record renamed for no name taken before lost its name to another restored actor |
| Loading.DeserializeSync | Source/SaveExtension/Private/Serialization/SlotDataTask_Loader.cpp:234-260 | Every level's actors are each restored once from that level's record; levels without a record are skipped |
| Loading.FrameLoader.DeserializeASyncLoop | Source/SaveExtension/Private/Serialization/SlotDataTask_Loader.cpp:330-377 | A frame goes on from where the load was to exactly where the clock stops it: the first savable actor that is late, a level without a record, or the end |
| Loading.StopIsLater | Source/SaveExtension/Private/Serialization/SlotDataTask_Loader.cpp:336-358 | Wherever a frame stops is not behind where it started, and ahead of it unless its very first actor is late |
| Loading.StopsAtTheFirstOverBudget | Source/SaveExtension/Private/Serialization/SlotDataTask_Loader.cpp:346-358 | In a level, a frame stops at an actor if and only if it is the first, among those to load, done when at least the budget has passed since the loop began |
| Loading.GoesOnWithinBudget | Source/SaveExtension/Private/Serialization/SlotDataTask_Loader.cpp:360-377 | And if there is none it goes on with the next level, with a budget of its own |
| Loading.FrameLoader.Tick | Source/SaveExtension/Private/Serialization/SlotDataTask_Loader.cpp:95-113 | A frame of a load under way ends exactly where its clock stops it, the level and actor it is late on being the current ones, and never past an actor to load that is done when the budget has passed since the frame began; with no load under way it changes no level, and the load stays where it was |
| Loading.FrameLoader.DeserializeLevelASync | Source/SaveExtension/Private/Serialization/SlotDataTask_Loader.cpp:298-328 | Starts a level on a copy of its live actors; a level without a record ends the load as failed |
| Loading.FrameLoader.RunFrames | Source/SaveExtension/Private/Serialization/SlotDataTask_Loader.cpp:95-113 | Over any clock and any number of frames the invariant holds, and as many frames with a first actor done in time as there are actors and levels left finish the load, however much time passes between frames |
| Loading.FrameLoader.FinishedMeansLoaded | Source/SaveExtension/Private/Serialization/SlotDataTask_Loader.cpp:330-377 | When the split load has finished, each level equals the synchronous result if and only if every actor a timed-out frame redid is repeatable |
| Loading.FrameLoader.RepeatableLoadsAlike | Source/SaveExtension/Private/Serialization/SlotDataTask_Loader.cpp:330-377 | For every clock: a finished split load of a level whose actors are all repeatable, which can be seen before it, is the synchronous load |
| Loading.LoadThatDiffers | Source/SaveExtension/Private/Serialization/SlotDataTask_Loader.cpp:346-358 | And only then: for any actor that is not repeatable, a clock that jumps once, as that actor is done, makes a load that finishes with a different level (a frame having some time at all, and every level its record, without which no load finishes) |
| Loading.SavedLoadThatDiffers | Source/SaveExtension/Private/Serialization/SlotDataTask_Loader.cpp:571-583 | Such a load with records made by a save: its level does not end as the synchronous load's |
| Loading.FrameLoader.SucceedsIffAllHaveRecords | Source/SaveExtension/Private/Serialization/SlotDataTask_Loader.cpp:305-309 | A finished split load succeeded if and only if every level has a record |
| Loading.LoadedMeansSync | Source/SaveExtension/Private/Serialization/SlotDataTask_Loader.cpp:346-358 | A level all passed over equals the synchronous result if and only if the actors loaded twice are repeatable |
| Codec.ObjectRoundTrip | Source/SaveExtension/Private/Serialization/Records.cpp:26-41 | An object record is read back, leaving exactly the suffix, if and only if it is readable (a class comes with a name and can be resolved); otherwise the reader gets stuck before its contents |
| Codec.ComponentRoundTrip | Source/SaveExtension/Private/Serialization/Records.cpp:43-51 | The same for a component record |
| Codec.ActorRoundTrip | Source/SaveExtension/Private/Serialization/Records.cpp:53-76 | The same for an actor record with its nested components, up to both velocities being dropped when both are nearly zero (Codec.MotionSurvivesTheFile says when) |
| Codec.MotionSurvivesTheFile | Source/SaveExtension/Private/Serialization/Records.cpp:66-73 | Both velocities are read back if any coordinate of either is beyond 0.0001, as of an actor spinning in place, and both are zero otherwise; all else is read back |
| Codec.ActorsRoundTrip | Source/SaveExtension/Private/Serialization/LevelRecords.cpp:13-28 | A level's actors are read back from the written words, leaving exactly the suffix, if and only if all are readable |
| Codec.LevelRoundTrip | Source/SaveExtension/Private/Serialization/LevelRecords.cpp:13-28 | A level record with its optional filter is read back, and with it the condition on its actors |
| Codec.SlotRoundTrip | Source/SaveExtension/Private/SlotData.cpp:22-33 | A whole slot is read back from what was written followed by anything, leaving exactly that suffix |
| Codec.SlotSurvivesTheFile | Source/SaveExtension/Private/SlotData.cpp:22-33 | Field by field: map, time, game instance, filters, and every level with its name, filter, script and actors |
| Archives.Archive.SerializeObject | Source/SaveExtension/Private/Serialization/Records.cpp:26-41 | The one bidirectional routine writes what the format prescribes and reads what it decodes, errors included |
| Archives.Archive.SerializeComponent | Source/SaveExtension/Private/Serialization/Records.cpp:43-51 | As above, for components |
| Archives.Archive.SerializeActor | Source/SaveExtension/Private/Serialization/Records.cpp:53-76 | As above, for actors, whose fields after the class are skipped when there is none |
| Archives.Archive.SerializeLevel | Source/SaveExtension/Private/Serialization/LevelRecords.cpp:13-28 | As above, for levels |
| Archives.Archive.SerializeSlot | Source/SaveExtension/Private/SlotData.cpp:22-33 | As above, for the slot |
| Archives.WriteAndRead | Source/SaveExtension/Private/SlotData.cpp:22-33 | Writing a slot with one archive and reading it with another, followed by anything, gives back what the records keep |
| SaveFiles.FileRoundTrip | Source/SaveExtension/Private/FileAdapter.cpp:79-186 | A file is read back in full, leaving exactly the suffix, if and only if it carries the current tag and a version from the one that introduced custom versions |
| SaveFiles.InfoOnlyAgrees | Source/SaveExtension/Private/FileAdapter.cpp:79-143 | On any words, where the full read succeeds the info-only read agrees on header, info and data class, and consumes a prefix of the same words |
| SaveFiles.OldFileIsTakenAsSuch | Source/SaveExtension/Private/FileAdapter.cpp:79-105 | A file under another tag is accepted as one from before tags, and nothing of it is read |
| SaveFiles.BadDataIsSkipped | Source/SaveExtension/Private/FileAdapter.cpp:120-143 | Data that does not decompress leaves the data as it was, without an error |
| SaveFiles.SaveFile.Read | Source/SaveExtension/Private/FileAdapter.cpp:79-143 | The in-place read of header, info and optionally data follows the decoding of the format, failures included |
| SaveFiles.SaveFile.Write | Source/SaveExtension/Private/FileAdapter.cpp:145-186 | The in-place write appends exactly the encoding of the file, and records whether the data was compressed |
| SaveFiles.SaveAndLoad | Source/SaveExtension/Private/FileAdapter.cpp:227-268 | Slot data and info written to a file and read back are kept, compressed or not, given that decompressing undoes compressing |
| ClassFilter.ClassFilter.BakeAllowedClasses | Source/SaveExtension/Private/Misc/ClassFilter.cpp:30-79 | The baked set, tested and extended in the same loop, is exactly the loaded classes the nearest-marked-ancestor rule allows, for any forest and any order of the derived classes |
| ClassFilter.ClassFilter.DecideClass | Source/SaveExtension/Private/Misc/ClassFilter.cpp:58-78 | Using classes already baked as shortcuts never changes the decision about a class |
| ClassFilter.ClassFilter.Merge | Source/SaveExtension/Private/Misc/ClassFilter.cpp:14-28 | The other filter's sets override this one's; merging a filter into itself changes nothing if its sets are disjoint |
| ClassFilter.AllowsIffClosestMarkedIsAllowed | Source/SaveExtension/Private/Misc/ClassFilter.cpp:30-79 | The rule without recursion: a class is allowed if and only if its closest marked self-or-ancestor is marked allowed |
| ClassFilter.MergeOverridesPerClass | Source/SaveExtension/Private/Misc/ClassFilter.cpp:14-28 | After a merge each class bears the other filter's mark, or this one's where the other has none |
| ClassFilter.MergeKeepsDisjointness | Source/SaveExtension/Private/Misc/ClassFilter.cpp:14-28 | Merging disjoint sets leaves them disjoint |
| ClassFilter.MergeDecidesByTheClosestMarkOfEither | Source/SaveExtension/Private/Misc/ClassFilter.cpp:14-28 | After a merge the closest class either filter marks decides |
| ClassTree.ClassHierarchy.AddChildren_NoFilter | Source/Editor/Private/Customizations/ClassFilter/ClassFilterHelpers.cpp:80-137 | From classes in any order, the tree has a node for exactly the eligible classes and all above them, each attached under its superclass |
| ClassTree.AttachAbove | Source/Editor/Private/Customizations/ClassFilter/ClassFilterHelpers.cpp:114-134 | The walk up attaches a class and everything above it, each once, and loses no node made before |
| ClassTree.FindBoth | Source/Editor/Private/Customizations/ClassFilter/ClassFilterHelpers.cpp:116-126 | The superclass's entry is taken first, then the class's own; both exist afterwards, no entry there was is replaced, and the only key that can be new is the superclass |
| ClassTree.ChildrenAreTheDirectSubclasses | Source/Editor/Private/Customizations/ClassFilter/ClassFilterHelpers.cpp:80-137 | In the finished tree a node's children are exactly the nodes of its direct subclasses, each once, with the parent link back |
| ClassTree.EveryClassIsReached | Source/Editor/Private/Customizations/ClassFilter/ClassFilterHelpers.cpp:80-137 | Every node is reached from the object root |
| ClassTree.OrderDoesNotMatter | Source/Editor/Private/Customizations/ClassFilter/ClassFilterHelpers.cpp:93-136 | Two trees over the same classes have the same parents and children, whatever order they were built in |
| ClassTree.ClassHierarchy.FindNodeByClass | Source/Editor/Private/Customizations/ClassFilter/ClassFilterHelpers.cpp:198-217 | The recursive search returns the node of the class if it is below, and null exactly otherwise |
| FilterNodes.Node.SetStateFromFilter | Source/Editor/Private/Customizations/ClassFilter/ClassFilterNode.cpp:140-156 | A node takes the mark the filter gives its class, allowed before ignored |
| FilterEditor.AddChildren_Tree | Source/Editor/Private/Customizations/ClassFilter/ClassFilterHelpers.h:267-331 | The copied tree holds exactly the classes to be shown (those with something passing at or below them), linked and marked as the filter says; the result says whether the node itself is to be shown |
| FilterEditor.GetClassTree | Source/Editor/Private/Customizations/ClassFilter/ClassFilterHelpers.h:345-366 | Copies the part below the base class; the copied root bears no mark |
| FilterEditor.AgreesOnAllShownIff | Source/Editor/Private/Customizations/ClassFilter/SClassFilter.cpp:593-601 | The marks shown agree with the nearest-marked-ancestor rule on every class the widget shows (all but the root) if and only if the rule leaves the root undecided, or no shown class is without a mark between itself and the root |
| FilterEditor.AgreesIffShielded | Source/Editor/Private/Customizations/ClassFilter/ClassFilterNode.cpp:158-170 | The same for one class: it shows what the rule says if and only if the rule leaves the root undecided or some mark from the class up to below the root shields it |
| FilterEditor.ShownCanDisagree | Source/Editor/Private/Customizations/ClassFilter/ClassFilterHelpers.h:358-362 | The failing input: an unmarked class below a base class that is itself allowed shows nothing, and is allowed |
| FilterEditor.MarkingReachesTheUnshielded | Source/Editor/Private/Customizations/ClassFilter/SClassFilter.cpp:336-396 | Marking or unmarking a class decides anew exactly the classes from it down that no nearer mark shields, and how |
| FilterEditor.ClickFlipsExactlyTheUnshielded | Source/Editor/Private/Customizations/ClassFilter/SClassFilter.cpp:286-306 | A click on an unmarked class flips exactly those classes |
| FilterEditor.ClickOnUnmarked | Source/Editor/Private/Customizations/ClassFilter/SClassFilter.cpp:286-306 | With the inherited mark the editor sees, a click flips exactly those classes unless the root allows them unseen, and then none |
| FilterEditor.SClassFilter.constructor | Source/Editor/Private/Customizations/ClassFilter/ClassFilterHelpers.h:345-366 | Opening the editor on any filters, overlapping sets included, and any loaded classes that include those of the tree, establishes the invariant: below the root node marks equal the first filter's, the root's node bears none, and the nodes shown hang together both ways, by parents and by child lists |
| FilterEditor.SClassFilter.GetParentFilterState | Source/Editor/Private/Customizations/ClassFilter/ClassFilterNode.cpp:158-170 | The walk over parent pointers finds the closest mark above within the tree |
| FilterEditor.SClassFilter.GetClassBackgroundColor | Source/Editor/Private/Customizations/ClassFilter/SClassFilter.cpp:416-443 | The colour is that of the closest mark at or above the node within the tree: green for an allowed one, red for a denied one |
| FilterEditor.SClassFilter.MarkClass | Source/Editor/Private/Customizations/ClassFilter/SClassFilter.cpp:336-396 | The node and all edited filters take the mark, one filter's sets staying disjoint if they were, and node marks stay equal to the first filter's |
| FilterEditor.SClassFilter.OnClassClicked | Source/Editor/Private/Customizations/ClassFilter/SClassFilter.cpp:286-306 | A click on a shown class toggles as its own and the shown inherited mark prescribe, and keeps the invariant |
| FilterEditor.SClassFilter.ClickInStep | Source/Editor/Private/Customizations/ClassFilter/SClassFilter.cpp:286-306 | A click on an unmarked class flips exactly the unshielded loaded classes from it down, except that it decides nothing anew for a class the root allows unseen; one on a marked class hands what it decided back to the closest mark above; neither changes what the rule says of the root |
| FilterEditor.SClassFilter.Run | Source/Editor/Private/Customizations/ClassFilter/SClassFilter.cpp:416-443 | Over any run of clicks a shown class is green exactly when baking the filter over all loaded classes, in the tree or not, allows it, if and only if it is not a class that a mark at or above the root allows unseen; and none is red that is allowed |
| SpecBaking.TestSpec.BakeDefinitions | Source/Test/Private/Automatron.h:1028-1100 | The explicit stack with scopes emptied in place terminates with exactly the recursively defined specs, no id registered twice |
| SpecBaking.Visiting | Source/Test/Private/Automatron.h:1039-1072 | Visiting a scope turns its pending specs into those of its test cases followed by those of its children |
| SpecBaking.TestSpec.PopFinished | Source/Test/Private/Automatron.h:1078-1094 | Popping finished scopes takes back exactly their commands, and nothing still to come is lost |
| SpecBaking.SpecsAreThoseOfTheTests | Source/Test/Private/Automatron.h:1041-1067 | A spec is baked if and only if it belongs to a test case: the before-commands from root to scope, the test, the after-commands from scope to root |
| SpecBaking.SpecsAreThoseAskedFor | Source/Test/Private/Automatron.h:992-1009 | From definitions to specs: a spec is there if and only if some test case defined at some depth asks for it, inside the before- and after-commands of all the scopes around it wherever in them these are defined; and there are as many as test cases |
| SpecBaking.EveryItIsKept | Source/Test/Private/Automatron.h:1005-1008 | Dropping empty scopes loses no test case, at whatever depth |
| SpecBaking.OneSpecEach | Source/Test/Private/Automatron.h:1047-1070 | There are exactly as many specs as test cases |
| SpecBaking.TestSpec.DescribeScope | Source/Test/Private/Automatron.h:992-1009 | A nested scope is defined while it is innermost and kept exactly if it holds a test case or a scope |
| SpecBaking.DefinedHasNoEmptyInside | Source/Test/Private/Automatron.h:1005-1008 | Definitions never leave an empty scope inside, on which baking relies |
| SpecBaking.EverySpecIsWrapped | Source/Test/Private/Automatron.h:1182-1210 | Whatever is defined, every spec starts with taking the next context (and preparing the world) and ends with releasing the world and resetting the context |
| SpecBaking.TestSpec.EnsureDefinitions | Source/Test/Private/Automatron.h:889-896 | Defining and baking happen once, after which the specs are exactly those the definitions ask for, one for each test case; a second call changes nothing |
| TaskList.TaskHolder.Cancel | Source/SaveExtension/Public/Multithreading/ScopedTaskManager.h:58-70 | A cancelled task is complete and notified, by one more notification only if it had none |
| TaskList.ScopedTaskList.Tick | Source/SaveExtension/Public/Multithreading/ScopedTaskManager.h:107-111 | While threads go on finishing work, a tick removes by swapping every task that was done, notifying it first, and loses none of the others |
| TaskList.ScopedTaskList.CancelAll | Source/SaveExtension/Public/Multithreading/ScopedTaskManager.h:113-120 | Every task created has been notified afterwards, exactly once over its life, and the list is empty |
| TaskList.Run | Source/SaveExtension/Public/Multithreading/ScopedTaskManager.h:89-121 | Over any run of creating, ticking and cancelling with threads running in between, no task is notified twice or before its work is done, and none leaves the list un-notified |
| TaskList.ConservedMeansExactlyOnce | Source/SaveExtension/Public/Multithreading/ScopedTaskManager.h:89-121 | If tasks created are those listed plus those notified, as multisets, each is in exactly one of the two, once |
| TaskList.SwapRemovesOne | Source/SaveExtension/Public/Multithreading/ScopedTaskManager.h:110 | Swap-removal removes one occurrence of one element |
| SaveManagers.SaveManager.Issue | Source/SaveExtension/Private/SaveManager.cpp:63-106 | A request is granted exactly if the manager may save or load. While a task runs that adds one task, the one for it, at the end of the queue, and leaves the tasks there were and what listeners have heard as they were; made on an idle manager it starts at once, to the outcome its kind prescribes; the result is true exactly if the task is queued or has succeeded |
| SaveManagers.SlotDataTask.Start | Source/SaveExtension/Private/Serialization/SlotDataTask.cpp:12-23 | Only the first task of the queue starts, to the outcome its kind, its settings and what it finds outside prescribe; for any other the call changes nothing |
| SaveManagers.SlotDataTask.Finish | Source/SaveExtension/Private/Serialization/SlotDataTask.cpp:25-35 | The task leaves once, whatever its listeners ask for and however many tasks start and finish inside the call, its finish being the next event; what it took and wrote stays as it was |
| SaveManagers.SaveManager.FinishTask | Source/SaveExtension/Private/SaveManager.cpp:349-358 | The next task in order of creation is running afterwards or has come to its prescribed outcome; the chain of tasks that finish while starting ends |
| SaveManagers.SlotDataTask.OnStartSave | Source/SaveExtension/Private/Serialization/SlotDataTask_Saver.cpp:19-107 | A save takes place exactly if it overrides or there is no file: listeners are told first that it begins, and it has succeeded at once, what it took being written and the finish following the begin, exactly if it waits neither for a background write nor for a thumbnail; otherwise it stays at the head of the queue. One that does not take place takes nothing and fails. Without authority nothing of the world is taken |
| SaveManagers.SlotDataTask.OnStartLoad | Source/SaveExtension/Private/Serialization/SlotDataTask_Loader.cpp:46-93 | A load fails before listeners hear of a begin exactly if the slot's info, or its map when it is another, is missing; it waits for that other map, or else for a background read; otherwise it deserializes what was read, to its end unless split over frames and out of time |
| SaveManagers.SlotDataTask.StartDeserialization | Source/SaveExtension/Private/Serialization/SlotDataTask_Loader.cpp:170-199 | Starts deserializing the one time it is called, with map and data there: it fails if nothing could be read, and is done at once unless split over frames and out of time; listeners told that it finished find what was loaded |
| SaveManagers.SlotDataTask.OnMapLoaded | Source/SaveExtension/Private/Serialization/SlotDataTask_Loader.cpp:143-168 | A matching map starts the deserialization if the data is there already, and has the load wait for it otherwise; any other map changes nothing |
| SaveManagers.SaveManager.Tick | Source/SaveExtension/Private/SaveManager.cpp:377-390 | A frame ends a save whose file is written, with or without waiting for its thumbnail as asked for, what was written being what it took; starts to deserialize data that has arrived after the map; resumes a split load, and ends it unless it runs out of time, failing exactly for a missing record; and changes nothing otherwise |
| SaveManagers.SaveManager.OnMapLoadFinished | Source/SaveExtension/Private/SaveManager.cpp:485-493 | The event reaches the loading task at the head of the queue if it waits for that map, and changes nothing otherwise |
| SaveManagers.SaveManager.SetActivePreset | Source/SaveExtension/Private/SaveManager.cpp:225-241 | The preset is only replaced by a different one, and only while there are no tasks, so every queued task has the active preset |
| SaveManagers.SaveManager.Perform | Source/SaveExtension/Private/SaveManager.cpp:341-390 | Every step from outside keeps the invariant; while a file is written in the background no step changes what is to be written; only a request adds to what is left to do, and that no more than it can bring about; a stuck level load stays stuck |
| SaveManagers.SaveManager.Serve | Source/SaveExtension/Private/SaveManager.cpp:377-390 | With its map opened, its file dealt with and a frame in time, the task at the head of the queue, unless stuck, is done, and less is left to do |
| SaveManagers.SaveManager.Drain | Source/SaveExtension/Private/SaveManager.cpp:349-390 | No task is forgotten: so the queue empties, whatever listeners ask for on the way, unless it gets to a split level load that has run out of time, which nothing resumes |
| SaveManagers.ValidMeans | Source/SaveExtension/Private/Serialization/SlotDataTask.cpp:12-40 | In every state between calls the head of a non-empty queue and no other task runs; tasks leave in order of creation, once; what was written is what was serialized; a load deserializes at most once and only with map and data there |
| SaveManagers.Run | Source/SaveExtension/Private/SaveManager.cpp:341-390 | Over any run of requests, frames, map events and file work, the invariant holds and every task that left has finished: a save with success exactly if it was to take place, a load with success only if there was something to read |

## Left out

- The engine: spawning gives the requested name if it is free and else some fresh one, destroying empties an entry of the actor array and may leave the name taken for a while, objects serialize themselves into opaque data; garbage collection, screenshots, thumbnails, reflection, delegates as objects, logging and Slate are not modelled.
- Names compare exactly; the engine's case-insensitive names are not modelled.
- Files and compression: words stand for bytes, a compressor is any function whose inverse is given, and the outcome of the write itself is ignored, as the code ignores it.
- Loading.FrameLoader: takes each level together with the record found for it; finding records by name is modelled for the save and for the loads of the whole trip.
- Reconciling.PrepareLevel: asks that every record has a class the engine can spawn, because RespawnActors uses the spawned actor without a check.
- WholeTrip.SaveAndRestore: the record of a level that was not loaded at the save is taken to come from an earlier save under the filter the level has now; any other record would be loaded just as well, but is no one's save.
- Restoring.ActorRoundTrip: velocities are stored on the actor rather than on its root component, and components keep the order of a list where the engine has a set.
- Chunk tasks are values in the array of the saver, as in the code; each advances an actor at a time, and what one thread sees of another's writes is not modelled.
- Chunks.TasksOverAllLevels: division and rounding are exact where the code rounds floating-point quotients.
- The load filters that a level filter carries beside its save filters are never consulted by the code, and are only stored.
- Loading.FrameLoader.RunFrames: all streaming levels are taken to be loaded, since looking for the next loaded level repeats itself on an unloaded one; a frame whose first actor takes up its whole budget is not promised to get ahead, as the code redoes that actor.
- Loading.FrameLoader.Tick: nothing else happens to the levels between frames; actors that gameplay destroys, spawns or moves, and levels it unloads, while a split load is under way are not modelled.
- Archives.Archive.SerializeSlot: reading stops at the first error, where the engine's archive goes on returning zeroes with its error flag up.
- SaveManagers.SlotDataTask.OnStartLevel: level tasks work at once or, when split over frames and out of time, stay at the head of the queue for good, as the code leaves them.
- SaveManagers.SlotDataTask.OnMapLoaded: the world of a map event is taken to be there; whether its map is the slot's is a parameter.
- SaveManagers.SlotDataTask.OnFinish: the requests made by a task's own delegate and by the listeners are one list, issued after the event.
- SaveManagers.Run: what a task finds outside comes with the request, as it will be when the task looks, and what frames bring with the frames; file work is done between calls of the main thread; what a save takes from the world and a load finds in its file is any slot, that being the subject of the saving and the file modules.
- Played time, slot infos, the game instance beyond its record, filter equality, preset getters, latent actions and the lifetime component: thin.
- FilterEditor.AddChildren_Tree: classes of blueprints that are not loaded are not modelled; whether a class passes the search, the blueprint and the internal-class options is a given set.
- The list view of the class picker, AddUniqueChild, FindParent and the other searches of the class tree repeat what the modelled ones do.
- SpecBaking.TestSpec.BakeDefinitions: asks for distinct ids, which the code asserts; how ids and descriptions are put together from nested descriptions is not modelled, and ids are given with the test cases.
- TaskList.ScopedTaskList.Tick: a callback that ticks the same list again is not modelled; the code would notify such a task twice, because it notifies before it notes that it did.
