/** The queue of slot tasks: saving, loading and the levels streamed in and out, one at a time, in order of creation. */
module SaveManagers {
  import opened Engine
  import opened Actors
  import opened Saver

  /** What a frame brings: whether a thumbnail has been captured by then; and for work split over frames, whether it
      runs out of time, or else finds a level without a record. */
  datatype Frame = Frame(captured: bool, outOfTime: bool, recordMissing: bool)

  /** What a task finds outside when it looks. For any: whether there are authority, a valid slot name and, to load, a
      saved slot. For a save: its file, and authority still. For a load: the slot's info, its map, being the present one
      or one to open, and what can be read from the file. For a level task: the level, loaded and with a record. */
  datatype Outside = Outside(
    isAllowed: bool, fileExists: bool, hasAuthority: bool,
    infoExists: bool, isSameMap: bool, mapExists: bool, content: Option<Slot>,
    levelExists: bool, frame: Frame)

  /** A task to be created, with what it will find outside, and what listeners ask for when it begins and when it
      finishes. Being inductive, the requests made in answer to one another are finitely many. */
  datatype Request =
    | SaveSlot(outside: Outside, overrides: bool, savesThumbnail: bool, onBegan: seq<Request>,
               onFinished: seq<Request>)
    | LoadSlot(outside: Outside, onBegan: seq<Request>, onFinished: seq<Request>)
    | SaveLevel(outside: Outside, onFinished: seq<Request>)
    | LoadLevel(outside: Outside, onFinished: seq<Request>)

  function OnBegan(r: Request): seq<Request> {
    if r.SaveSlot? || r.LoadSlot? then r.onBegan else []
  }

  /** How many tasks a request can still bring about. */
  function Size(r: Request): nat {
    match r
    case SaveSlot(_, _, _, began, finished) => 1 + Sizes(began) + Sizes(finished)
    case LoadSlot(_, began, finished) => 1 + Sizes(began) + Sizes(finished)
    case SaveLevel(_, finished) => 1 + Sizes(finished)
    case LoadLevel(_, finished) => 1 + Sizes(finished)
  }

  function Sizes(rs: seq<Request>): nat {
    if rs == [] then 0 else Size(rs[0]) + Sizes(rs[1..])
  }

  lemma SizeOfOne(r: Request)
    ensures Sizes([r]) == Size(r) && Pending([]) == 0
  {
    assert [r][1..] == [];
  }

  lemma SizeOfFirst(rs: seq<Request>)
    requires rs != []
    ensures Sizes(rs) == Size(rs[0]) + Sizes(rs[1..]) && Size(rs[0]) > 0 && Sizes([rs[0]]) == Size(rs[0])
  {
    assert [rs[0]][1..] == [];
  }

  lemma SizeOfParts(r: Request)
    ensures Size(r) == 1 + Sizes(OnBegan(r)) + Sizes(r.onFinished)
  {
    assert Sizes([]) == 0;
  }

  datatype Preset = Preset(name: string, savesInBackground: bool, loadsInBackground: bool, splitsLoad: bool)

  datatype LoadState = NotStarted | LoadingMap | WaitingForData | Deserializing

  /** The reading or writing of the file of a task. */
  datatype Work = NoWork | UnderWay | Done

  /** What listeners hear. When they hear that a task has finished they find some data to be the manager's. */
  datatype Event = Began(task: SlotDataTask) | Finished(task: SlotDataTask, failed: bool, found: SlotData?)

  /** After a began event the next event is the finish of the same task. */
  ghost predicate Bracketed(events: seq<Event>) {
    forall i :: 0 < i < |events| && events[i - 1].Began? ==> events[i].Finished? && events[i].task == events[i - 1].task
  }

  /** The task whose began event has not been answered yet. */
  ghost function Open(events: seq<Event>): Option<SlotDataTask> {
    if events != [] && events[|events| - 1].Began? then Some(events[|events| - 1].task) else None
  }

  function Pending(tasks: seq<SlotDataTask>): nat {
    if tasks == [] then 0 else Size(tasks[0].request) + Pending(tasks[1..])
  }

  lemma {:induction false} PendingOneMore(tasks: seq<SlotDataTask>, task: SlotDataTask)
    ensures Pending(tasks + [task]) == Pending(tasks) + Size(task.request)
  {
    if tasks != [] {
      assert (tasks + [task])[1..] == tasks[1..] + [task];
      PendingOneMore(tasks[1..], task);
    }
  }

  /** A frame in which nothing is late and nothing is missing. */
  const IN_TIME := Frame(true, false, false)

  /** What can happen from outside, in any order. */
  datatype Step =
    | Ask(req: Request)
    | NextFrame(frame: Frame)
    | MapOpened(matches: bool, frame: Frame)
    | FileWorkDone
    | ChangePreset(preset: Preset)

  /** A slot without the records of the main level and the game instance; those of the sub-levels have been kept. */
  ghost predicate IsBare(was: Slot, now: Slot) {
    now.gameInstance == EMPTY_OBJECT && now.mainLevel == Cleaned(was.mainLevel) && now.subLevels == was.subLevels
  }

  /** Slot data is cleaned, takes the time and what the preset says, and is filled from the world; without authority it
      stays clean. */
  method SerializeInto(data: SlotData, hasAuthority: bool)
    modifies data
    ensures !hasAuthority ==> IsBare(old(data.View()), data.View())
  {
    data.CleanRecords(true);
    var timeSeconds: real, storeGameInstance: bool, filter: LevelFilter := *, *, *;
    data.timeSeconds, data.storeGameInstance, data.generalFilter := timeSeconds, storeGameInstance, filter;
    if hasAuthority {
      var fromWorld: Slot := *;
      data.Assign(fromWorld);
    }
  }

  /** Some of the requests asked for, in order: any may be refused. */
  ghost predicate Granted(asked: seq<Request>, granted: seq<Request>) {
    if asked == [] then granted == []
    else
      || (granted != [] && granted[0] == asked[0] && Granted(asked[1..], granted[1..]))
      || Granted(asked[1..], granted)
  }

  ghost function RequestsOf(tasks: seq<SlotDataTask>): (requests: seq<Request>)
    ensures |requests| == |tasks| && forall i :: 0 <= i < |tasks| ==> requests[i] == tasks[i].request
  {
    seq(|tasks|, i requires 0 <= i < |tasks| => tasks[i].request)
  }

  lemma GrantedOne(asked: Request, task: SlotDataTask)
    requires task.request == asked
    ensures Granted([asked], RequestsOf([task]))
  {
    assert RequestsOf([task])[1..] == [] && [asked][1..] == [];
  }

  lemma GrantedNothing(asked: seq<Request>)
    requires asked == []
    ensures Granted(asked, RequestsOf([]))
  {
  }

  lemma GrantedNone(asked: Request)
    ensures Granted([asked], RequestsOf([]))
  {
    assert [asked][1..] == [];
  }

  /** The first request granted or refused, and then the others. */
  lemma GrantedNext(asked: seq<Request>, first: seq<SlotDataTask>, rest: seq<SlotDataTask>)
    requires asked != [] && Granted([asked[0]], RequestsOf(first)) && Granted(asked[1..], RequestsOf(rest))
    ensures Granted(asked, RequestsOf(first + rest))
  {
    var requests := RequestsOf(first);
    assert [asked[0]][1..] == [];
    assert Granted([], requests) <==> requests == [];
    if first == [] {
      assert first + rest == rest;
    } else {
      assert Granted([], requests[1..]) && |requests| == 1;
      assert RequestsOf(first + rest)[1..] == RequestsOf(rest);
    }
  }

  class SlotDataTask {
    const manager: SaveManager
    const request: Request
    const settings: Preset
    var isRunning: bool
    var isFinished: bool
    var hasSucceeded: bool
    var data: SlotData?
    var state: LoadState
    var fileWork: Work

    /** What a save serialized, and what its file work wrote. */
    ghost var taken: Option<Slot>
    var written: Option<Slot>

    /** Whether a load has seen the world's map match the slot's, and how often it started to deserialize. */
    ghost var mapMatched: bool
    ghost var starts: nat

    ghost predicate IsWaiting()
      reads this
    {
      && !isRunning && !isFinished && state == NotStarted && fileWork == NoWork
      && taken == None && written == None && !mapMatched && starts == 0
    }

    /** What a running task waits for between calls. */
    ghost predicate Awaits()
      reads this, data
    {
      match request
      case SaveSlot(_, _, _, _, _) =>
        && data != null && taken.Some? && fileWork != NoWork && MaySave()
        && (if fileWork == UnderWay then data.View() == taken.value else written == taken)
      case LoadSlot(_, _, _) =>
        && fileWork != NoWork && MayLoad()
        && (match state
            case NotStarted => false
            case LoadingMap => !mapMatched && starts == 0
            case WaitingForData => mapMatched && starts == 0
            case Deserializing =>
              mapMatched && starts == 1 && fileWork == Done && data != null && settings.splitsLoad
              && request.outside.content.Some?)
      case SaveLevel(_, _) => false
      case LoadLevel(_, _) => state == NotStarted
    }

    /** Whether listeners have been told that it began. */
    ghost predicate HasBegun()
      reads this
    {
      request.SaveSlot? || (request.LoadSlot? && state == Deserializing)
    }

    /** A save is to take place: nothing is lost, or that is what is asked for. */
    ghost predicate MaySave() {
      request.SaveSlot? && (request.overrides || !request.outside.fileExists)
    }

    /** A load is to take place: there are the slot and its map. */
    ghost predicate MayLoad() {
      request.LoadSlot? && request.outside.infoExists && (request.outside.isSameMap || request.outside.mapExists)
    }

    /** What may be said of a task that is done: a save took place if it was to, no write is left unfinished, and what
        was written is what had been serialized; a load deserialized once if it was to take place, with both the map and
        the data there, and otherwise never. */
    ghost predicate IsSettled()
      reads this
    {
      && (request.SaveSlot? ==> fileWork != UnderWay && written == taken && (taken.Some? <==> MaySave()))
      && (request.LoadSlot? ==>
            starts == (if MayLoad() then 1 else 0) && (starts == 1 ==> mapMatched && fileWork == Done))
    }

    /** What may be said once it is marked as finished: a save has succeeded if it was to take place, and a load only if
        it was and there was something to read. */
    ghost predicate IsDone()
      reads this
    {
      && isFinished
      && (request.SaveSlot? ==> (hasSucceeded <==> MaySave()))
      && (request.LoadSlot? && hasSucceeded ==> MayLoad() && request.outside.content.Some?)
    }

    // How a task comes out of a call

    /** A save that was to take place waits for its file or its thumbnail, if it has to; any other is done. */
    ghost predicate SaveHasStarted()
      reads this
    {
      && (taken.Some? <==> MaySave())
      && (isFinished <==> !MaySave() || !(settings.savesInBackground || request.savesThumbnail))
      && (isFinished ==> (hasSucceeded <==> MaySave()))
      && (!isFinished ==> fileWork == if settings.savesInBackground then UnderWay else Done)
    }

    /** A load that was to take place waits for its map, or for the data; or it has begun to deserialize. */
    ghost predicate LoadHasStarted()
      reads this
    {
      if !MayLoad() then isFinished && !hasSucceeded && starts == 0
      else if !request.outside.isSameMap then !isFinished && state == LoadingMap && starts == 0
      else if settings.loadsInBackground then !isFinished && state == WaitingForData && starts == 0
      else HasDeserialized(request.outside.frame)
    }

    /** A load that has both the map and the data is done, unless it is split over frames and has run out of time. */
    ghost predicate HasDeserialized(frame: Frame)
      reads this
    {
      && starts == 1
      && if request.outside.content.None? then isFinished && !hasSucceeded
         else if settings.splitsLoad then HasGoneOn(frame)
         else isFinished && hasSucceeded
    }

    /** A load split over frames is done, unless it has run out of time; a level without a record fails it. */
    ghost predicate HasGoneOn(frame: Frame)
      reads this
    {
      if frame.outOfTime then !isFinished && state == Deserializing
      else isFinished && (hasSucceeded <==> !frame.recordMissing)
    }

    /** A level task is done, unless it loads, is split over frames and has run out of time. */
    ghost predicate LevelHasStarted()
      reads this
    {
      var isThere := data != null && request.outside.levelExists;
      if isThere && request.LoadLevel? && settings.splitsLoad && request.outside.frame.outOfTime then !isFinished
      else isFinished && (hasSucceeded <==> isThere)
    }

    ghost predicate HasStarted()
      reads this
    {
      match request
      case SaveSlot(_, _, _, _, _) => SaveHasStarted()
      case LoadSlot(_, _, _) => LoadHasStarted()
      case SaveLevel(_, _) => LevelHasStarted()
      case LoadLevel(_, _) => LevelHasStarted()
    }

    constructor (manager: SaveManager, request: Request, settings: Preset, data: SlotData?)
      ensures this.manager == manager && this.request == request && this.settings == settings && this.data == data
      ensures IsWaiting()
    {
      this.manager, this.request, this.settings, this.data := manager, request, settings, data;
      isRunning, isFinished, hasSucceeded, state, fileWork := false, false, false, NotStarted, NoWork;
      taken, written, mapMatched, starts := None, None, false, 0;
    }

    /** In the middle of a call: this is the running head of the queue. */
    ghost predicate IsHead()
      reads this, manager, manager.live, manager.left
    {
      && manager.Ordered() && manager.tasks != [] && manager.tasks[0] == this && isRunning && !isFinished
    }

    /** The tasks that this one, running, can still bring about. */
    ghost function Ahead(requests: nat): nat
      requires manager.tasks != []
      reads manager
    {
      Pending(manager.tasks[1..]) + requests
    }

    /** All that is left to do, given what was left behind this task and the requests it can still bring about. */
    ghost predicate LeavesWithin(bound: nat)
      requires manager.tasks != [] ==> manager.tasks[0] in manager.live
      reads this, manager, manager.live
    {
      manager.Outlook() <= bound + if isFinished then 0 else 1
    }

    /** Starts if it is the first of the queue. */
    method Start()
      requires manager.Ordered() && this in manager.tasks
      requires manager.tasks[0] == this ==> IsWaiting() && Open(manager.events) == None
      modifies manager, manager.live
      ensures old(manager.tasks[0]) != this ==> unchanged(manager) && unchanged(old(manager.live))
      ensures old(manager.tasks[0]) == this ==> manager.Valid() && manager.Advanced(null) && HasStarted()
      ensures old(manager.tasks[0]) == this ==> manager.Outlook() <= old(Pending(manager.tasks))
      decreases if manager.tasks[0] == this then Pending(manager.tasks) else 0, 0
    {
      if !isRunning && |manager.tasks| > 0 && manager.tasks[0] == this {
        SizeOfParts(request);
        manager.HeadIsAlone();
        isRunning := true;
        OnStart();
      }
    }

    /** OnStart, by kind of task. */
    method OnStart()
      requires IsHead() && IsFresh() && Open(manager.events) == None
      modifies manager, manager.live
      ensures manager.Valid() && manager.Advanced(null) && HasStarted()
      ensures LeavesWithin(old(Ahead(Sizes(OnBegan(request)) + Sizes(request.onFinished))))
      decreases Ahead(Sizes(OnBegan(request)) + Sizes(request.onFinished)), 10
    {
      match request
      case SaveSlot(_, _, _, _, _) => OnStartSave();
      case LoadSlot(_, _, _) => OnStartLoad();
      case SaveLevel(_, _) => OnStartLevel();
      case LoadLevel(_, _) => OnStartLevel();
    }

    /** A level task does all its work at once; a frame-split one that runs out of time stays. */
    method OnStartLevel()
      requires IsHead() && IsFresh() && Open(manager.events) == None && (request.SaveLevel? || request.LoadLevel?)
      modifies manager, manager.live
      ensures manager.Valid() && manager.Advanced(null) && LevelHasStarted()
      ensures LeavesWithin(old(Ahead(Sizes(request.onFinished))))
      decreases Ahead(Sizes(request.onFinished)), 9
    {
      if data == null || !request.outside.levelExists {
        Finish(false);
      } else if request.SaveLevel? {
        var subLevels: seq<LevelRecord> := *;
        data.subLevels := subLevels;
        Finish(true);
      } else {
        if !settings.splitsLoad || !request.outside.frame.outOfTime {
          FinishedDeserializing();
        }
      }
    }

    /** The records have been used up, and the data becomes the manager's. */
    method FinishedDeserializing()
      requires IsHead() && data != null && !request.SaveSlot? && IsSettled() && MayEnd(true)
      requires Open(manager.events) == None || Open(manager.events) == Some(this)
      modifies manager, manager.live
      ensures manager.Valid() && manager.Advanced(null) && isFinished && hasSucceeded
      ensures manager.Outlook() <= old(Ahead(Sizes(request.onFinished)))
      ensures starts == old(starts) && mapMatched == old(mapMatched) && data == old(data)
      ensures old(manager.events) + [Finished(this, false, data)] <= manager.events
      decreases Ahead(Sizes(request.onFinished)), 6
    {
      HandOver();
      Finish(true);
    }

    method HandOver()
      requires IsHead() && data != null
      modifies data, manager`currentData
      ensures IsHead() && manager.currentData == data && data.View() == CleanedSlot(old(data.View()), true)
    {
      data.CleanRecords(true);
      manager.currentData := data;
    }

    /** Its callers see to it that a save ends with success exactly if it took place, and a load with success only if
        there was something to read. */
    ghost predicate MayEnd(success: bool) {
      && (request.SaveSlot? ==> (success <==> MaySave()))
      && (request.LoadSlot? && success ==> MayLoad() && request.outside.content.Some?)
    }

    /** Finishes the task; its callers see to it that this happens once. */
    method Finish(success: bool)
      requires IsHead() && (Open(manager.events) == None || Open(manager.events) == Some(this))
      requires (success ==> data != null) && IsSettled() && MayEnd(success)
      modifies manager, manager.live
      ensures manager.Valid() && manager.Advanced(null) && isFinished && hasSucceeded == success
      ensures manager.Outlook() <= old(Ahead(Sizes(request.onFinished)))
      ensures starts == old(starts) && mapMatched == old(mapMatched) && this in manager.left && data == old(data)
      ensures taken == old(taken) && written == old(written)
      ensures old(manager.events) + [Finished(this, !success, old(manager.currentData))] <= manager.events
      decreases Ahead(Sizes(request.onFinished)), 5
    {
      hide Bracketed, Granted, Distinct, SlotDataTask.MayEnd, SlotDataTask.IsSettled, CleanedSlot;
      if isRunning {
        OnFinish(success);
        Leave(success);
      }
    }

    /** The task leaves the queue, the next one starts, and only then is this one marked as finished. */
    method Leave(success: bool)
      requires IsHead() && Open(manager.events) == None && IsSettled() && MayEnd(success)
      modifies manager, manager.live
      ensures manager.Valid() && manager.Advanced(null) && isFinished && hasSucceeded == success
      ensures manager.Outlook() <= old(Pending(manager.tasks[1..])) && this in manager.left
      ensures starts == old(starts) && mapMatched == old(mapMatched) && data == old(data)
      ensures taken == old(taken) && written == old(written)
      decreases Ahead(0), 2
    {
      hide Bracketed, Granted, Distinct;
      manager.FinishTask(this);
      MarkFinished(success);
    }

    method MarkFinished(success: bool)
      requires manager.Valid() && this !in manager.live
      modifies `isFinished, `hasSucceeded
      ensures manager.Valid() && isFinished && hasSucceeded == success
    {
      isFinished := true;
      hasSucceeded := success;
    }

    /** Listeners are told; what they ask for is queued behind this task. */
    method OnFinish(success: bool)
      requires IsHead() && (Open(manager.events) == None || Open(manager.events) == Some(this))
      requires (success ==> data != null) && IsSettled()
      modifies manager, manager.live
      ensures IsHead() && Open(manager.events) == None && IsSettled()
      ensures manager.events == old(manager.events) + [Finished(this, !success, old(manager.currentData))]
      ensures manager.Queued(request.onFinished)
      ensures success && (request.SaveSlot? || request.SaveLevel?)
              ==> data != null && data.View() == CleanedSlot(old(data.View()), true)
      ensures starts == old(starts) && mapMatched == old(mapMatched) && data == old(data)
      ensures taken == old(taken) && written == old(written)
      decreases Ahead(Sizes(request.onFinished)), 4
    {
      hide SlotDataTask.IsWaiting, SlotData.View, CleanedSlot, Distinct;
      if success && (request.SaveSlot? || request.SaveLevel?) {
        data.CleanRecords(true);
      }
      manager.events := manager.events + [Finished(this, !success, manager.currentData)];
      manager.Notify(request.onFinished);
    }

    /** Nothing has been done by this task yet. */
    ghost predicate IsFresh()
      reads this
    {
      state == NotStarted && fileWork == NoWork && taken == None && written == None && !mapMatched && starts == 0
    }

    /** Listeners are told that the task begins; what they ask for is queued behind it. */
    method Begin()
      requires IsHead() && Open(manager.events) == None
      modifies manager, manager.live
      ensures IsHead() && Open(manager.events) == Some(this) && manager.events == old(manager.events) + [Began(this)]
      ensures manager.Queued(OnBegan(request)) && unchanged(old(manager.live))
      decreases Ahead(Sizes(OnBegan(request))), 4
    {
      manager.events := manager.events + [Began(this)];
      manager.Notify(OnBegan(request));
    }

    /** The task has finished, or else is still the head of the queue. */
    ghost predicate IsDoneOrHead()
      reads this, manager
    {
      isFinished || (manager.tasks != [] && manager.tasks[0] == this)
    }

    /** Saving: the world is serialized into the slot data, and its file is written. Either nothing is taken from the
        world and the task has failed, or listeners are told it begins, and it has succeeded, with just what it took
        written, or else is being written or waits at the head of the queue. */
    method OnStartSave()
      requires IsHead() && IsFresh() && Open(manager.events) == None && request.SaveSlot?
      modifies manager, manager.live
      ensures manager.Valid() && manager.Advanced(null) && SaveHasStarted()
      ensures LeavesWithin(old(Ahead(Sizes(OnBegan(request)) + Sizes(request.onFinished))))
      ensures taken.Some? <==> request.overrides || !request.outside.fileExists
      ensures taken == None
              ==> isFinished && !hasSucceeded
                  && exists found :: old(manager.events) + [Finished(this, true, found)] <= manager.events
      ensures taken.Some? ==> IsDoneOrHead() && old(manager.events) + [Began(this)] <= manager.events
      ensures taken.Some? && !request.outside.hasAuthority
              ==> taken.value.gameInstance == EMPTY_OBJECT && taken.value.mainLevel.actors == []
      ensures taken.Some? && isFinished ==>
                hasSucceeded && written == taken
                && old(manager.events) + [Began(this), Finished(this, false, data)] <= manager.events
      decreases Ahead(Sizes(OnBegan(request)) + Sizes(request.onFinished)), 9
    {
      hide Bracketed, SaveManager.Valid, SaveManager.Ordered;
      manager.TryInstantiateInfo();
      if request.overrides || !request.outside.fileExists {
        Save();
      } else {
        Finish(false);
      }
    }

    method Save()
      requires IsHead() && IsFresh() && Open(manager.events) == None && MaySave() && manager.currentData != null
      modifies manager, manager.live
      ensures manager.Valid() && manager.Advanced(null) && SaveHasStarted() && taken.Some? && IsDoneOrHead()
      ensures LeavesWithin(old(Ahead(Sizes(OnBegan(request)) + Sizes(request.onFinished))))
      ensures old(manager.events) + [Began(this)] <= manager.events
      ensures !request.outside.hasAuthority
              ==> taken.value.gameInstance == EMPTY_OBJECT && taken.value.mainLevel.actors == []
      ensures isFinished ==>
                hasSucceeded && written == taken
                && old(manager.events) + [Began(this), Finished(this, false, data)] <= manager.events
      decreases Ahead(Sizes(OnBegan(request)) + Sizes(request.onFinished)), 8
    {
      hide Bracketed, SaveManager.Valid, SaveManager.Ordered;
      manager.DataIsLive();
      manager.HeadIsLive();
      ghost var was := manager.events;
      Begin();
      ghost var begun := manager.events;
      SaveWorld();
      ToldInTurn(was, begun, manager.events, Began(this), Finished(this, false, data));
    }

    method SaveWorld()
      requires IsHead() && IsFresh() && Open(manager.events) == Some(this) && MaySave()
      requires manager.currentData != null && manager.currentData in manager.live
      modifies manager, manager.live
      ensures manager.Valid() && manager.Advanced(null) && SaveHasStarted() && taken.Some? && IsDoneOrHead()
      ensures LeavesWithin(old(Ahead(Sizes(request.onFinished))))
      ensures !request.outside.hasAuthority
              ==> taken.value.gameInstance == EMPTY_OBJECT && taken.value.mainLevel.actors == []
      ensures isFinished ==>
                hasSucceeded && written == taken
                && old(manager.events) + [Finished(this, false, data)] <= manager.events
      decreases Ahead(Sizes(request.onFinished)), 7, 1
    {
      hide Bracketed, SaveManager.Valid, SaveManager.Ordered;
      manager.HeadIsLive();
      SerializeWorld(request.outside.hasAuthority);
      SaveFile();
    }

    lemma ToldInTurn(was: seq<Event>, begun: seq<Event>, now: seq<Event>, first: Event, second: Event)
      requires begun == was + [first]
      ensures begun <= now ==> was + [first] <= now
      ensures begun + [second] <= now ==> was + [first, second] <= now
    {
      assert begun + [second] == was + [first, second];
    }

    /** The present data is cleaned and filled from the world. */
    method SerializeWorld(hasAuthority: bool)
      requires IsHead() && manager.currentData != null
      modifies `data, `taken, manager.currentData
      ensures IsHead() && data == manager.currentData && taken == Some(data.View())
      ensures !hasAuthority ==> IsBare(old(manager.currentData.View()), taken.value)
    {
      hide Bracketed, Distinct, IsBare, SlotData.View;
      data := manager.currentData;
      SerializeInto(data, hasAuthority);
      taken := Some(data.View());
    }

    /** Starts writing the file, in the background or here. */
    method SaveFile()
      requires IsHead() && request.SaveSlot? && Open(manager.events) == Some(this)
      requires data != null && taken == Some(data.View()) && fileWork == NoWork && written == None && MaySave()
      requires data == manager.currentData
      modifies manager, manager.live
      ensures manager.Valid() && manager.Advanced(null) && SaveHasStarted()
      ensures LeavesWithin(old(Ahead(Sizes(request.onFinished))))
      ensures taken == old(taken) && IsDoneOrHead()
      ensures isFinished ==>
                hasSucceeded && written == taken
                && old(manager.events) + [Finished(this, false, data)] <= manager.events
      decreases Ahead(Sizes(request.onFinished)), 7, 0
    {
      hide Bracketed;
      fileWork := UnderWay;
      if !settings.savesInBackground {
        DoFileWork();
        if !request.savesThumbnail {
          Finish(true);
        }
      }
    }

    /** The file work itself: a save writes what its data holds by now. */
    method DoFileWork()
      requires fileWork == UnderWay
      modifies `fileWork, `written
      ensures fileWork == Done
      ensures written == if request.SaveSlot? && data != null then Some(data.View()) else old(written)
    {
      if request.SaveSlot? && data != null {
        written := Some(data.View());
      }
      fileWork := Done;
    }

    /** Listeners are told of a finish, and find what has been loaded. */
    twostate predicate IsTold()
      reads this, manager
    {
      isFinished ==>
        old(manager.events)
        + [Finished(this, !hasSucceeded, if hasSucceeded then data else old(manager.currentData))] <= manager.events
    }

    /** What a load comes to in a call that may start to deserialize: it starts, if it finds what the file work has
        read; or it fails, before listeners are told that it begins; or it waits at the head, and they are told
        nothing. */
    twostate predicate HasMovedOn()
      reads this, manager
    {
      && IsDoneOrHead()
      && (isFinished ==>
            if hasSucceeded then old(manager.events) + [Began(this), Finished(this, false, data)] <= manager.events
            else if starts == 1 && request.outside.content.Some?
            then old(manager.events) + [Began(this)] <= manager.events
            else old(manager.events) + [Finished(this, true, old(manager.currentData))] <= manager.events)
      && (hasSucceeded && isFinished ==> starts == 1)
      && (!isFinished && starts == 1 ==> old(manager.events) + [Began(this)] <= manager.events)
      && (!isFinished && starts == 0 ==> manager.events == old(manager.events))
    }

    /** Loading: the data is read while the slot's map is opened, if it is not the current one. The load fails for want
        of the slot or its map, deserializes, or waits for exactly what is missing. */
    method OnStartLoad()
      requires IsHead() && IsFresh() && Open(manager.events) == None && request.LoadSlot?
      modifies manager, manager.live
      ensures manager.Valid() && manager.Advanced(null) && HasMovedOn() && LoadHasStarted()
      ensures LeavesWithin(old(Ahead(Sizes(OnBegan(request)) + Sizes(request.onFinished))))
      ensures !isFinished ==>
                match state
                case NotStarted => false
                case LoadingMap => !mapMatched && starts == 0
                case WaitingForData => mapMatched && starts == 0 && fileWork == UnderWay
                case Deserializing => mapMatched && starts == 1 && fileWork == Done
      decreases Ahead(Sizes(OnBegan(request)) + Sizes(request.onFinished)), 9
    {
      hide Bracketed;
      if !request.outside.infoExists {
        Finish(false);
        return;
      }
      StartLoadingData();
      if !request.outside.isSameMap {
        OpenMap();
      } else {
        MapIsThere(request.outside.frame);
      }
    }

    /** The slot's map is opened, if it exists. */
    method OpenMap()
      requires IsHead() && Open(manager.events) == None && request.LoadSlot? && fileWork != NoWork && starts == 0
      requires request.outside.infoExists && !request.outside.isSameMap && !mapMatched
      modifies manager, manager.live
      ensures manager.Valid() && manager.Advanced(null) && HasMovedOn() && LoadHasStarted()
      ensures LeavesWithin(old(Ahead(Sizes(OnBegan(request)) + Sizes(request.onFinished))))
      ensures !isFinished ==> state == LoadingMap && !mapMatched && starts == 0
      decreases Ahead(Sizes(OnBegan(request)) + Sizes(request.onFinished)), 8, 1
    {
      hide Bracketed, Distinct;
      state := LoadingMap;
      if !request.outside.mapExists {
        Finish(false);
      }
    }

    /** Starts reading the file, in the background or here. */
    method StartLoadingData()
      requires IsHead() && request.LoadSlot? && fileWork == NoWork
      modifies `fileWork, `written
      ensures IsHead() && fileWork == if settings.loadsInBackground then UnderWay else Done
    {
      fileWork := UnderWay;
      if !settings.loadsInBackground {
        DoFileWork();
      }
    }

    /** The world's map is the slot's: what is left to wait for is the data. */
    method MapIsThere(frame: Frame)
      requires IsHead() && Open(manager.events) == None && MayLoad() && fileWork != NoWork && starts == 0
      modifies manager, manager.live
      ensures manager.Valid() && manager.Advanced(null) && starts == (if old(fileWork) == Done then 1 else 0)
      ensures LeavesWithin(old(Ahead(Sizes(OnBegan(request)) + Sizes(request.onFinished))))
              && HasMovedOn()
      ensures old(fileWork) == Done ==> HasDeserialized(frame)
      ensures old(fileWork) != Done ==> !isFinished && state == WaitingForData && fileWork == UnderWay && mapMatched
      decreases Ahead(Sizes(OnBegan(request)) + Sizes(request.onFinished)), 8, 1
    {
      mapMatched := true;
      if fileWork == Done {
        StartDeserialization(frame);
      } else {
        state := WaitingForData;
      }
    }

    /** Both the map and the data are there. */
    method StartDeserialization(frame: Frame)
      requires IsHead() && Open(manager.events) == None && MayLoad()
      requires fileWork == Done && mapMatched && starts == 0
      modifies manager, manager.live
      ensures manager.Valid() && manager.Advanced(null) && starts == 1 && HasMovedOn() && HasDeserialized(frame)
      ensures LeavesWithin(old(Ahead(Sizes(OnBegan(request)) + Sizes(request.onFinished))))
      decreases Ahead(Sizes(OnBegan(request)) + Sizes(request.onFinished)), 8, 0
    {
      hide Bracketed, SaveManager.Valid, Distinct;
      state := Deserializing;
      starts := starts + 1;
      GetLoadedData();
      StartWithData(frame);
    }

    method StartWithData(frame: Frame)
      requires IsHead() && Open(manager.events) == None && MayLoad()
      requires state == Deserializing && fileWork == Done && mapMatched && starts == 1
      requires data != null <==> request.outside.content.Some?
      modifies manager, manager.live
      ensures manager.Valid() && manager.Advanced(null) && starts == 1 && HasMovedOn() && HasDeserialized(frame)
      ensures LeavesWithin(old(Ahead(Sizes(OnBegan(request)) + Sizes(request.onFinished))))
      decreases Ahead(Sizes(OnBegan(request)) + Sizes(request.onFinished)), 7, 3
    {
      hide Bracketed, SaveManager.Valid, Distinct, SaveManager.Ordered;
      if data == null {
        Finish(false);
      } else {
        BeginLoad(frame);
      }
    }

    /** There is something to load. */
    ghost predicate IsDeserializing()
      reads this
    {
      && MayLoad() && data != null && request.outside.content.Some?
      && state == Deserializing && fileWork == Done && mapMatched && starts == 1
    }

    method BeginLoad(frame: Frame)
      requires IsHead() && Open(manager.events) == None && IsDeserializing()
      modifies manager, manager.live
      ensures manager.Valid() && manager.Advanced(null) && HasDeserialized(frame)
      ensures LeavesWithin(old(Ahead(Sizes(OnBegan(request)) + Sizes(request.onFinished))))
      ensures old(manager.events) + [Began(this)] <= manager.events && IsDoneOrHead()
      ensures isFinished && hasSucceeded ==>
                old(manager.events) + [Began(this), Finished(this, false, data)] <= manager.events
      decreases Ahead(Sizes(OnBegan(request)) + Sizes(request.onFinished)), 7, 2
    {
      ghost var was := manager.events;
      Begin();
      ghost var begun := manager.events;
      Deserialize(frame);
      ToldInTurn(was, begun, manager.events, Began(this), Finished(this, false, data));
    }

    /** What the file work has read, if anything. */
    method GetLoadedData()
      requires IsHead()
      modifies `data, manager`live
      ensures IsHead() && manager.live == old(manager.live) + (if data == null then {} else {data})
      ensures fresh(manager.live - old(manager.live))
      ensures if request.outside.content.None? then data == null
              else data != null && data.View() == request.outside.content.value
    {
      data := null;
      if request.outside.content.Some? {
        data := new SlotData();
        data.Assign(request.outside.content.value);
        manager.live := manager.live + {data};
      }
    }

    /** All at once, or split over frames; a level without a record fails the split form. */
    method Deserialize(frame: Frame)
      requires IsHead() && Open(manager.events) == Some(this) && IsDeserializing()
      modifies manager, manager.live
      ensures manager.Valid() && manager.Advanced(null) && HasDeserialized(frame) && IsDoneOrHead()
      ensures LeavesWithin(old(Ahead(Sizes(request.onFinished)))) && IsTold()
      decreases Ahead(Sizes(request.onFinished)), 7, 1
    {
      if !settings.splitsLoad {
        FinishedDeserializing();
      } else {
        DeserializeASyncLoop(frame);
      }
    }

    /** A frame's worth of loading. */
    method DeserializeASyncLoop(frame: Frame)
      requires IsHead() && Open(manager.events) == Some(this) && IsDeserializing() && settings.splitsLoad
      modifies manager, manager.live
      ensures manager.Valid() && manager.Advanced(null) && starts == 1 && HasGoneOn(frame) && IsDoneOrHead() && IsTold()
      ensures LeavesWithin(old(Ahead(Sizes(request.onFinished))))
      ensures frame.outOfTime ==> unchanged(manager) && unchanged(old(manager.live))
      decreases Ahead(Sizes(request.onFinished)), 7, 0
    {
      if !frame.outOfTime {
        if frame.recordMissing {
          Finish(false);
        } else {
          FinishedDeserializing();
        }
      }
    }

    /** What this running task is waiting for has come with the frame. */
    ghost predicate IsServedBy(frame: Frame)
      reads this
    {
      match request
      case SaveSlot(_, _, thumbnail, _, _) => fileWork == Done && (!thumbnail || frame.captured)
      case LoadSlot(_, _, _) =>
        (state == WaitingForData && fileWork == Done) || (state == Deserializing && !frame.outOfTime)
      case SaveLevel(_, _) => false
      case LoadLevel(_, _) => false
    }

    /** A running task's share of a frame: if what it is waiting for has come, a save is done, having succeeded with
        what it took written, and a load starts to deserialize, or comes to its end; otherwise nothing happens. */
    method Tick(frame: Frame)
      requires IsHead() && manager.Valid()
      modifies manager, manager.live
      ensures manager.Valid() && manager.Advanced(null)
      ensures IsDoneOrHead() && manager.Outlook() <= old(manager.Outlook())
              && (isFinished ==> manager.Outlook() < old(manager.Outlook()))
      ensures !old(IsServedBy(frame)) ==> unchanged(manager) && unchanged(old(manager.live))
      ensures old(request.SaveSlot? && IsServedBy(frame)) ==>
                && isFinished && hasSucceeded && this in manager.left && written == taken == old(taken)
                && old(manager.events) + [Finished(this, false, old(manager.currentData))] <= manager.events
      ensures old(request.LoadSlot? && state == WaitingForData && fileWork == Done) ==> HasDeserialized(frame)
      ensures old(request.LoadSlot? && state == Deserializing) && !frame.outOfTime ==>
                isFinished && (hasSucceeded <==> !frame.recordMissing) && IsTold()
    {
      match request
      case SaveSlot(_, _, _, _, _) => TickSave(frame);
      case LoadSlot(_, _, _) => TickLoad(frame);
      case SaveLevel(_, _) =>
      case LoadLevel(_, _) =>
    }

    /** A save finishes once its file is written and its thumbnail, if any, has been captured. */
    method TickSave(frame: Frame)
      requires IsHead() && manager.Valid() && request.SaveSlot?
      modifies manager, manager.live
      ensures manager.Valid() && manager.Advanced(null)
      ensures IsDoneOrHead() && manager.Outlook() <= old(manager.Outlook())
              && (isFinished ==> manager.Outlook() < old(manager.Outlook()))
      ensures if old(fileWork) == Done && (!request.savesThumbnail || frame.captured)
              then && isFinished && hasSucceeded && this in manager.left && written == taken == old(taken)
                   && old(manager.events) + [Finished(this, false, old(manager.currentData))] <= manager.events
              else unchanged(manager) && unchanged(old(manager.live))
    {
      if fileWork == Done {
        if request.savesThumbnail {
          if frame.captured {
            Finish(true);
          }
        } else {
          Finish(true);
        }
      }
    }

    method TickLoad(frame: Frame)
      requires IsHead() && manager.Valid() && request.LoadSlot?
      modifies manager, manager.live
      ensures manager.Valid() && manager.Advanced(null)
      ensures IsDoneOrHead() && manager.Outlook() <= old(manager.Outlook())
              && (isFinished ==> manager.Outlook() < old(manager.Outlook()))
      ensures old(state == WaitingForData && fileWork == Done) ==> HasDeserialized(frame)
      ensures old(state) == Deserializing ==> HasGoneOn(frame) && IsTold()
      ensures !old(IsServedBy(frame)) ==> unchanged(manager) && unchanged(old(manager.live))
    {
      if state == Deserializing {
        DeserializeASyncLoop(frame);
      } else if state == WaitingForData && fileWork == Done {
        StartDeserialization(frame);
      }
    }

    /** A map has been opened; it may not be the slot's. */
    method OnMapLoaded(matches: bool, frame: Frame)
      requires IsHead() && manager.Valid() && (request.LoadSlot? || request.LoadLevel?)
      modifies manager, manager.live
      ensures manager.Valid() && manager.Advanced(null)
      ensures IsDoneOrHead() && manager.Outlook() <= old(manager.Outlook())
              && (isFinished ==> manager.Outlook() < old(manager.Outlook()))
      ensures old(state == LoadingMap) && matches ==>
                if old(fileWork) == Done then HasDeserialized(frame) else !isFinished && state == WaitingForData
      ensures !(old(state == LoadingMap) && matches) ==> unchanged(manager) && unchanged(old(manager.live))
    {
      if state == LoadingMap && matches {
        MapIsThere(frame);
      }
    }
  }

  class SaveManager {
    var tasks: seq<SlotDataTask>
    var currentData: SlotData?
    var activePreset: Preset

    /** All tasks created and all that have left the queue, in order; events told to listeners, in order. */
    ghost var created: seq<SlotDataTask>
    ghost var left: seq<SlotDataTask>
    ghost var events: seq<Event>

    /** The objects tasks may still change. */
    ghost var live: set<object>

    /** What holds at all times. */
    ghost predicate Ordered()
      reads this, live, left
    {
      && this !in live
      && created == left + tasks && Distinct(created)
      && (forall i :: 0 <= i < |tasks| ==>
            && tasks[i] in live && tasks[i].manager == this && tasks[i].settings == activePreset
            && (tasks[i].data != null ==> tasks[i].data in live))
      && (forall i :: 0 < i < |tasks| ==> tasks[i].IsWaiting())
      && (forall i :: 0 <= i < |left| ==> left[i] !in live && left[i].IsSettled())
      && (currentData != null ==> currentData in live)
      && Bracketed(events)
    }

    /** A file is being written in the background. */
    ghost predicate IsWriting()
      requires tasks != [] ==> tasks[0] in live
      reads this, live
    {
      tasks != [] && tasks[0].request.SaveSlot? && tasks[0].fileWork == UnderWay
    }

    /** What holds between calls: the head of the queue is running and waits for something to happen. */
    ghost predicate Valid()
      reads this, live, left
    {
      && Ordered()
      && (tasks != [] ==> tasks[0].isRunning && !tasks[0].isFinished && tasks[0].Awaits())
      && Open(events) == if tasks != [] && tasks[0].HasBegun() then Some(tasks[0]) else None
    }

    /** How much the queue can still bring about: tasks listed, and those that listeners are still to ask for. */
    ghost function Outlook(): nat
      reads this, live
      requires tasks != [] ==> tasks[0] in live
    {
      if tasks == [] then 0
      else Pending(tasks[1..]) + if tasks[0].HasBegun() then 1 + Sizes(tasks[0].request.onFinished)
                                 else Size(tasks[0].request)
    }

    /** What a call may have done since it was made: time only goes forward, and the tasks that left during the call
        have finished, except one whose own call is still under way. */
    twostate predicate Advanced(except: SlotDataTask?)
      reads this, live, left
    {
      && old(created) <= created && old(left) <= left && old(events) <= events
      && fresh(live - old(live))
      && (forall i :: |old(left)| <= i < |left| && left[i] != except ==> left[i].IsDone())
    }

    method CreateTask(req: Request) returns (task: SlotDataTask)
      requires Ordered()
      modifies this`tasks, this`created, this`live
      ensures fresh(task) && task.manager == this && task.request == req && task.IsWaiting()
      ensures tasks == old(tasks) + [task] && created == old(created) + [task] && live == old(live) + {task}
      ensures Pending(tasks) == Pending(old(tasks)) + Size(req)
      ensures Ordered()
    {
      hide Bracketed, SlotData.View;
      task := new SlotDataTask(this, req, activePreset, currentData);
      PendingOneMore(tasks, task);
      tasks := tasks + [task];
      created, live := created + [task], live + {task};
    }

    /** The head of the queue is nowhere else. */
    lemma HeadIsAlone()
      requires Ordered() && tasks != []
      ensures tasks[0] !in left && tasks[0] !in tasks[1..]
    {
      assert created[|left|] == tasks[0];
      assert forall i :: 0 <= i < |left| ==> created[i] == left[i];
      assert forall i :: 0 <= i < |tasks| ==> created[|left| + i] == tasks[i];
    }

    /** Requests made in the middle of a call have been refused, or queued in order, and done nothing else. */
    twostate predicate Queued(requests: seq<Request>)
      reads this
    {
      && old(tasks) <= tasks && old(created) <= created && left == old(left)
      && tasks[|old(tasks)|..] == created[|old(created)|..]
      && Granted(requests, RequestsOf(tasks[|old(tasks)|..]))
      && Pending(tasks) <= Pending(old(tasks)) + Sizes(requests)
      && fresh(live - old(live)) && old(live) <= live
      && (old(currentData) != null ==> currentData == old(currentData))
    }

    /** Listeners are told about the running task, and make requests. */
    method Notify(requests: seq<Request>)
      requires Ordered() && tasks != [] && tasks[0].isRunning
      modifies this, live
      ensures Ordered() && Queued(requests) && events == old(events) && unchanged(old(live))
      decreases Sizes(requests), 3
    {
      hide Granted, Bracketed, SaveManager.Ordered, Sizes, Size;
      if requests == [] {
        GrantedNothing(requests);
        return;
      }
      SizeOfFirst(requests);
      HeadIsLive();
      LeftIsSettled();
      ghost var listed, made := tasks, created;
      var ok := Issue(requests[0]);
      ghost var first, listed', made' := tasks[|listed|..], tasks, created;
      Notify(requests[1..]);
      GrantedNext(requests, first, tasks[|listed'|..]);
      assert tasks[|listed|..] == first + tasks[|listed'|..];
      assert created[|made|..] == made'[|made|..] + created[|made'|..];
    }

    method TryInstantiateInfo()
      requires Ordered()
      modifies this`currentData, this`live
      ensures Ordered() && currentData != null && (old(currentData) != null ==> currentData == old(currentData))
      ensures live == old(live) + {currentData} && fresh(live - old(live))
    {
      if currentData == null {
        currentData := new SlotData();
        live := live + {currentData};
      }
    }

    /** SaveSlot, LoadSlot and the notices of levels streamed in and out; false if nothing was scheduled or done. */
    method Issue(req: Request) returns (ok: bool)
      requires Ordered() && if tasks == [] then Valid() else tasks[0].isRunning
      modifies this, live
      ensures old(tasks) != [] ==> Ordered() && Queued([req]) && events == old(events) && unchanged(old(live))
      ensures old(tasks) == [] ==> Valid() && Advanced(null) && Outlook() <= Size(req)
      ensures old(tasks) != [] ==> ok == (created != old(created)) && |created| <= |old(created)| + 1
      ensures created == old(created) ==> !ok && tasks == old(tasks)
      ensures created != old(created) <==> req.outside.isAllowed
      ensures created != old(created) ==>
                && |created| > |old(created)|
                && var task := created[|old(created)|];
                && task.request == req
                && (old(tasks) == [] ==> task.HasStarted())
                && if ok then task in tasks || (task.isFinished && task.hasSucceeded)
                else task in left && task.isFinished && !task.hasSucceeded
      decreases if tasks == [] then Size(req) else 0, 2
    {
      hide Granted, Bracketed, Distinct;
      if !req.outside.isAllowed {
        GrantedNone(req);
        return false;
      }
      if req.LoadSlot? {
        TryInstantiateInfo();
      }
      var task := Launch(req);
      ok := (task.isFinished && task.hasSucceeded) || task in tasks;
    }

    /** Whoever was created is listed or has left. */
    lemma ListedOrLeft(task: SlotDataTask)
      requires Ordered() && task in created
      ensures task in tasks || exists i :: 0 <= i < |left| && left[i] == task
    {
    }

    /** Nothing that can still change bears on what has left. */
    lemma LeftIsSettled()
      requires Ordered()
      ensures this !in live && forall i :: 0 <= i < |left| ==> left[i] !in live
    {
    }

    lemma DataIsLive()
      requires Ordered()
      ensures currentData != null ==> currentData in live
    {
    }

    lemma HeadIsLive()
      requires Ordered() && tasks != []
      ensures tasks[0] in live
    {
    }

    /** A task is created and started; it may have come to its end already. */
    method Launch(req: Request) returns (task: SlotDataTask)
      requires Ordered() && if tasks == [] then Valid() else tasks[0].isRunning
      modifies this, live
      ensures old(tasks) != [] ==> Ordered() && Queued([req]) && events == old(events) && unchanged(old(live))
      ensures old(tasks) == [] ==> Valid() && Advanced(null) && Outlook() <= Size(req)
      ensures |created| > |old(created)| && created[|old(created)|] == task && task.request == req
      ensures old(tasks) == [] ==> task.HasStarted()
      ensures old(tasks) != [] ==> tasks == old(tasks) + [task] && created == old(created) + [task]
      ensures task in tasks || (task in left && task.isFinished)
      decreases if tasks == [] then Size(req) else 0, 1
    {
      hide Granted, Bracketed, Distinct, Sizes, Pending, SaveManager.Ordered;
      SizeOfOne(req);
      task := CreateTask(req);
      GrantedOne(req, task);
      assert tasks[|old(tasks)|..] == [task] && created[|old(created)|..] == [task];
      ghost var made, gone := created, left;
      assert forall i :: 0 <= i < |gone| ==> gone[i] != task;
      LeftIsSettled();
      task.Start();
      assert made <= created && made[|old(created)|] == task;
      if old(tasks) == [] {
        assert old(created) <= created;
        assert old(left) <= left;
        assert old(events) <= events;
        assert fresh(live - old(live));
        assert forall i :: |old(left)| <= i < |left| ==> left[i].IsDone();
      }
      ListedOrLeft(task);
      if task !in tasks {
        ghost var i :| 0 <= i < |left| && left[i] == task;
        assert gone <= left && i >= |gone|;
      }
    }

    /** The head leaves, and the next task starts. */
    method FinishTask(task: SlotDataTask)
      requires task.IsHead() && task.manager == this && Open(events) == None && task.IsSettled()
      modifies this, live
      ensures Valid() && Advanced(task) && task in left && task !in live
      ensures |old(tasks)| > 1 ==> old(tasks)[1].HasStarted()
      ensures Outlook() <= old(Pending(tasks[1..]))
      ensures unchanged(task)
      decreases task.Ahead(0), 1
    {
      hide Bracketed, Granted, SlotDataTask.HasStarted, SlotDataTask.IsSettled;
      HeadIsAlone();
      tasks := tasks[1..];
      left, live := left + [task], live - {task};
      assert task in left;
      if |tasks| > 0 {
        tasks[0].Start();
      }
    }

    /** What was the head is so still, or has finished and left less to do. */
    ghost predicate HeadWent(head: SlotDataTask, outlook: nat)
      requires tasks != [] ==> tasks[0] in live
      reads this, live, head
    {
      if head.isFinished then Outlook() < outlook else tasks != [] && tasks[0] == head
    }

    /** A frame is the head's alone. */
    method Tick(frame: Frame)
      requires Valid()
      modifies this, live
      ensures Valid() && Advanced(null)
      ensures Outlook() <= old(Outlook()) && (old(tasks) != [] ==> HeadWent(old(tasks)[0], old(Outlook())))
      ensures old(tasks) == [] || !old(tasks[0].IsServedBy(frame)) ==> unchanged(this) && unchanged(old(live))
      ensures old(tasks) != [] ==> var task := old(tasks)[0];
                && (old(task.request.SaveSlot? && task.fileWork == Done)
                    && (!task.request.savesThumbnail || frame.captured) ==>
                      && task.isFinished && task.hasSucceeded && task in left && task.written == task.taken
                      && old(events) + [Finished(task, false, old(currentData))] <= events)
                && (old(task.request.LoadSlot? && task.state == WaitingForData && task.fileWork == Done) ==>
                      task.HasDeserialized(frame))
                && (old(task.request.LoadSlot? && task.state == Deserializing) && !frame.outOfTime ==>
                      && task.isFinished && (task.hasSucceeded <==> !frame.recordMissing)
                      && var found := if frame.recordMissing then old(currentData) else task.data;
                      old(events) + [Finished(task, frame.recordMissing, found)] <= events)
      ensures old(IsWriting()) ==> unchanged(this) && unchanged(old(live))
    {
      if |tasks| > 0 && tasks[0].isRunning {
        tasks[0].Tick(frame);
      }
    }

    method OnMapLoadFinished(matches: bool, frame: Frame)
      requires Valid()
      modifies this, live
      ensures Valid() && Advanced(null)
      ensures Outlook() <= old(Outlook()) && (old(tasks) != [] ==> HeadWent(old(tasks)[0], old(Outlook())))
      ensures old(tasks) != [] && matches ==> var task := old(tasks)[0];
                old(task.request.LoadSlot? && task.state == LoadingMap)
                ==> if old(task.fileWork) == Done then task.HasDeserialized(frame)
                    else !task.isFinished && task.state == WaitingForData
      ensures old(tasks) == [] || !(matches && old(tasks[0].request.LoadSlot? && tasks[0].state == LoadingMap))
              ==> unchanged(this) && unchanged(old(live))
    {
      if |tasks| > 0 && (tasks[0].request.LoadSlot? || tasks[0].request.LoadLevel?) {
        tasks[0].OnMapLoaded(matches, frame);
      }
    }

    /** Nothing has come between a write in the background and what it is to write. */
    twostate predicate StillWriting()
      requires old(tasks) != []
      reads this, live
    {
      && tasks != [] && tasks[0] == old(tasks)[0] && tasks[0] in live
      && tasks[0].taken == old(tasks[0].taken) && tasks[0].data == old(tasks[0].data)
      && tasks[0].data != null && tasks[0].data in live
      && tasks[0].data.View() == old(tasks[0].data.View())
    }

    /** A pool thread gets to the file work under way; what it writes is what was serialized. */
    method ThreadsRun()
      requires Valid()
      modifies live
      ensures Valid()
      ensures old(IsWriting()) ==> StillWriting()
      ensures Outlook() == old(Outlook())
      ensures tasks != [] ==> tasks[0].state == old(tasks[0].state) && tasks[0].fileWork != UnderWay
      ensures tasks != [] && old(tasks[0].fileWork) == UnderWay && tasks[0].request.SaveSlot? ==>
                tasks[0].fileWork == Done && tasks[0].written == tasks[0].taken
    {
      if |tasks| > 0 && tasks[0].fileWork == UnderWay {
        HeadIsAlone();
        tasks[0].DoFileWork();
      }
    }

    /** A preset is only replaced while there are no tasks. */
    method SetActivePreset(preset: Preset) returns (ok: bool)
      requires Valid()
      modifies this`activePreset
      ensures Valid() && ok == (tasks == [] && old(activePreset) != preset)
      ensures activePreset == if ok then preset else old(activePreset)
    {
      if |tasks| > 0 || activePreset == preset {
        return false;
      }
      activePreset := preset;
      ok := true;
    }

    constructor (preset: Preset)
      ensures Valid() && created == [] && left == [] && events == [] && live == {}
    {
      tasks, currentData, activePreset := [], null, preset;
      created, left, events, live := [], [], [], {};
      assert Bracketed([]) && Open([]).None?;
    }

    /** Someone asks for a task. */
    method Take(req: Request)
      requires Valid()
      modifies this, live
      ensures Valid() && Advanced(null)
      ensures old(IsWriting()) ==> StillWriting()
      ensures Outlook() <= old(Outlook()) + Size(req)
      ensures old(tasks) != [] ==> tasks != [] && tasks[0] == old(tasks)[0]
    {
      hide Bracketed, Granted, Distinct;
      SizeOfOne(req);
      var ok := Issue(req);
    }

    /** Anything that can happen to the manager, and to the file work of its tasks. */
    method Perform(step: Step)
      requires Valid()
      modifies this, live
      ensures Valid() && Advanced(null)
      ensures old(IsWriting()) ==> StillWriting()
      ensures Outlook() <= old(Outlook()) + if step.Ask? then Size(step.req) else 0
      ensures old(IsStuck()) ==> IsStuck() && tasks[0] == old(tasks)[0]
    {
      hide Bracketed, Granted, Distinct;
      match step
      case Ask(req) =>
        Take(req);
      case NextFrame(frame) =>
        Tick(frame);
      case MapOpened(matches, frame) =>
        OnMapLoadFinished(matches, frame);
      case FileWorkDone =>
        ThreadsRun();
      case ChangePreset(preset) =>
        var ok := SetActivePreset(preset);
    }

    /** The head is a level load that ran out of time: nothing resumes it. */
    ghost predicate IsStuck()
      reads this
    {
      tasks != [] && tasks[0].request.LoadLevel?
    }

    /** The map is opened, the file is dealt with, and a frame comes with all that may be waited for: the head is done
        with by then. */
    method Serve()
      requires Valid() && tasks != [] && !IsStuck()
      modifies this, live
      ensures Valid() && Outlook() < old(Outlook()) && fresh(live - old(live))
    {
      hide Bracketed, Granted, Distinct, SaveManager.Outlook;
      OnMapLoadFinished(true, IN_TIME);
      ThreadsRun();
      Tick(IN_TIME);
    }

    /** No task is forgotten: with enough of that, the queue empties, whatever listeners ask for on the way, unless it
        gets stuck. */
    method Drain()
      requires Valid()
      modifies this, live
      ensures Valid() && (tasks == [] || IsStuck())
    {
      hide Bracketed, Granted, Distinct, SaveManager.Outlook;
      while tasks != [] && !tasks[0].request.LoadLevel?
        invariant Valid() && fresh(live - old(live))
        decreases Outlook()
      {
        Serve();
      }
    }
  }

  /** What being valid means, over whatever run led there. */
  lemma ValidMeans(manager: SaveManager)
    requires manager.Valid()
    // one task runs: the first of the queue
    ensures forall i :: 0 <= i < |manager.tasks| ==> (manager.tasks[i].isRunning <==> i == 0)
    // tasks leave in the order of creation, and only once
    ensures manager.left <= manager.created && manager.created[|manager.left|..] == manager.tasks
    ensures Distinct(manager.left) && forall t :: t in manager.left ==> t !in manager.tasks
    // a save that left had written what it serialized; a load that left had deserialized at most once, with everything
    // there
    ensures forall t :: t in manager.left ==> t.IsSettled()
    // a running load deserializes if and only if it has started to, once, with everything there
    ensures manager.tasks != [] && manager.tasks[0].request.LoadSlot? ==>
              var load := manager.tasks[0];
              (load.starts == 1 <==> load.state == Deserializing) && load.starts <= 1
              && (load.starts == 1 ==> load.mapMatched && load.fileWork == Done)
    // what is being written is what was serialized
    ensures manager.tasks != [] && manager.IsWriting() ==>
              manager.tasks[0].data != null && manager.tasks[0].taken == Some(manager.tasks[0].data.View())
  {
    if manager.tasks != [] {
      manager.HeadIsAlone();
      assert forall i :: 0 < i < |manager.tasks| ==> manager.tasks[i].IsWaiting();
    }
    assert manager.created[|manager.left|..] == manager.tasks;
    forall i, j | 0 <= i < j < |manager.left|
      ensures manager.left[i] != manager.left[j]
    {
      assert manager.created[i] != manager.created[j];
    }
  }

  /** Any run of steps, listeners asking for more tasks whenever they are told something: every task that left has
      finished, and the rest is in the state the last step left it in. */
  method Run(preset: Preset, steps: seq<Step>) returns (manager: SaveManager)
    ensures fresh(manager) && manager.Valid() && forall i :: 0 <= i < |manager.left| ==> manager.left[i].IsDone()
  {
    manager := new SaveManager(preset);
    for i := 0 to |steps|
      invariant manager.Valid() && fresh(manager) && fresh(manager.live)
      invariant forall i :: 0 <= i < |manager.left| ==> manager.left[i].IsDone()
    {
      manager.Perform(steps[i]);
    }
  }
}
