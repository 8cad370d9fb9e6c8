/** Saving a world: every loaded level is split into chunks, the chunks run, and their records are dumped in order. */
module WorldSaving {
  import opened Engine
  import opened Actors
  import opened Saver
  import opened Chunks

  /** What a slot takes from the world's clock and the preset. */
  datatype SlotSettings = SlotSettings(timeSeconds: real, storeGameInstance: bool, filter: LevelFilter)

  datatype StreamingLevel = StreamingLevel(name: Name, loaded: bool, actors: ActorArray)

  ghost predicate DistinctNames(streaming: seq<StreamingLevel>) {
    forall i, j :: 0 <= i < j < |streaming| ==> streaming[i].name != streaming[j].name
  }

  predicate HaveRecords(records: seq<LevelRecord>, streaming: seq<StreamingLevel>) {
    forall i :: 0 <= i < |streaming| && streaming[i].loaded ==> FindLevel(records, streaming[i].name).Some?
  }

  /** What saving a loaded streaming level fills, given the records that exist. */
  function PlanFor(general: LevelFilter, records: seq<LevelRecord>, level: StreamingLevel): PlannedLevel
    requires FindLevel(records, level.name).Some?
  {
    var k := FindLevel(records, level.name).value;
    PlannedLevel(Sub(k), level.actors, FilterOf(general, records[k]))
  }

  /** The loaded ones among the first `n` streaming levels, in order. */
  function StreamingPlan(general: LevelFilter, records: seq<LevelRecord>, streaming: seq<StreamingLevel>,
                         n: nat): seq<PlannedLevel>
    requires n <= |streaming|
  {
    if n == 0 then []
    else
      var level := streaming[n - 1];
      StreamingPlan(general, records, streaming, n - 1)
      + if level.loaded && FindLevel(records, level.name).Some? then [PlanFor(general, records, level)] else []
  }

  function MainPlan(general: LevelFilter, main: LevelRecord, persistent: ActorArray): PlannedLevel {
    PlannedLevel(Main, persistent, FilterOf(general, main))
  }

  /** The main level and the loaded ones among the first `n` streaming levels. */
  function Plan(persistent: ActorArray, main: LevelRecord, general: LevelFilter, records: seq<LevelRecord>,
                streaming: seq<StreamingLevel>, n: nat): seq<PlannedLevel>
    requires n <= |streaming|
  {
    [MainPlan(general, main, persistent)] + StreamingPlan(general, records, streaming, n)
  }

  lemma PlanStep(persistent: ActorArray, main: LevelRecord, general: LevelFilter, records: seq<LevelRecord>,
                 streaming: seq<StreamingLevel>, n: nat)
    requires n < |streaming| && HaveRecords(records, streaming)
    ensures Plan(persistent, main, general, records, streaming, n + 1)
            == Plan(persistent, main, general, records, streaming, n)
               + if streaming[n].loaded then [PlanFor(general, records, streaming[n])] else []
  {
  }

  /** Before any streaming level, the plan is the main level. */
  lemma PlanOfMain(persistent: ActorArray, main: LevelRecord, general: LevelFilter, records: seq<LevelRecord>,
                   streaming: seq<StreamingLevel>, taskCount: nat, stores: bool)
    requires taskCount > 0
    ensures var plan := Plan(persistent, main, general, records, streaming, 0);
            && AllChunks(plan, taskCount, stores) == LevelChunks(MainPlan(general, main, persistent), taskCount, stores)
            && Emptied(records, records, plan)
  {
    var p := MainPlan(general, main, persistent);
    assert [p] + [] == [p] && [] + [p] == [p];
    AllChunksOneMore([], p, taskCount, stores);
    assert [] + LevelChunks(p, taskCount, stores) == LevelChunks(p, taskCount, stores);
    forall k | 0 <= k < |records| ensures !IsPlanned([p], Sub(k)) {
    }
  }

  lemma {:induction false} StreamingPlanIsShort(general: LevelFilter, records: seq<LevelRecord>,
                                                streaming: seq<StreamingLevel>, n: nat)
    requires n <= |streaming|
    ensures |StreamingPlan(general, records, streaming, n)| <= n
  {
    if n > 0 {
      StreamingPlanIsShort(general, records, streaming, n - 1);
    }
  }

  /** Some loaded level among the first `n` makes this entry of the plan. */
  ghost predicate PlannedBy(p: PlannedLevel, general: LevelFilter, records: seq<LevelRecord>,
                            streaming: seq<StreamingLevel>, n: nat)
    requires n <= |streaming| && HaveRecords(records, streaming)
  {
    exists i :: 0 <= i < n && streaming[i].loaded && p == PlanFor(general, records, streaming[i])
  }

  /** The plan holds exactly the loaded levels. */
  lemma {:induction false} StreamingPlanIsExact(general: LevelFilter, records: seq<LevelRecord>,
                                                streaming: seq<StreamingLevel>, n: nat)
    requires n <= |streaming| && HaveRecords(records, streaming)
    ensures forall p ::
              p in StreamingPlan(general, records, streaming, n)
              <==> PlannedBy(p, general, records, streaming, n)
  {
    if n > 0 {
      StreamingPlanIsExact(general, records, streaming, n - 1);
      forall p
        ensures p in StreamingPlan(general, records, streaming, n) <==> PlannedBy(p, general, records, streaming, n)
      {
      }
    }
  }

  /** No record is filled twice. */
  lemma {:induction false} StreamingPlanIsDistinct(general: LevelFilter, records: seq<LevelRecord>,
                                                   streaming: seq<StreamingLevel>, n: nat)
    requires n <= |streaming| && HaveRecords(records, streaming) && DistinctNames(streaming)
    ensures DistinctTargets(StreamingPlan(general, records, streaming, n))
    ensures forall p :: p in StreamingPlan(general, records, streaming, n) ==> p.target.Sub?
  {
    if n > 0 {
      var plan := StreamingPlan(general, records, streaming, n - 1);
      StreamingPlanIsDistinct(general, records, streaming, n - 1);
      StreamingPlanIsExact(general, records, streaming, n - 1);
      if streaming[n - 1].loaded {
        var p := PlanFor(general, records, streaming[n - 1]);
        forall a | 0 <= a < |plan| ensures plan[a].target != p.target {
          assert plan[a] in plan;
          var i :| 0 <= i < n - 1 && streaming[i].loaded && plan[a] == PlanFor(general, records, streaming[i]);
          assert streaming[i].name != streaming[n - 1].name;
        }
        assert DistinctTargets(plan + [p]);
      } else {
        assert StreamingPlan(general, records, streaming, n) == plan;
      }
    }
  }

  lemma PlanIsDistinct(persistent: ActorArray, main: LevelRecord, general: LevelFilter, records: seq<LevelRecord>,
                       streaming: seq<StreamingLevel>)
    requires HaveRecords(records, streaming) && DistinctNames(streaming)
    ensures DistinctTargets(Plan(persistent, main, general, records, streaming, |streaming|))
  {
    var rest := StreamingPlan(general, records, streaming, |streaming|);
    StreamingPlanIsDistinct(general, records, streaming, |streaming|);
    assert forall a :: 0 <= a < |rest| ==> rest[a] in rest;
  }

  /** The sub-level records, once those the plan fills have been emptied. */
  ghost predicate Emptied(was: seq<LevelRecord>, now: seq<LevelRecord>, plan: seq<PlannedLevel>) {
    && |now| == |was|
    && forall k :: 0 <= k < |was| ==> now[k] == if IsPlanned(plan, Sub(k)) then Cleaned(was[k]) else was[k]
  }

  lemma IsPlannedOneMore(plan: seq<PlannedLevel>, p: PlannedLevel, target: LevelRef)
    ensures IsPlanned(plan + [p], target) <==> IsPlanned(plan, target) || p.target == target
  {
    if IsPlanned(plan, target) {
      var a :| 0 <= a < |plan| && plan[a].target == target;
      assert (plan + [p])[a].target == target;
    }
    assert (plan + [p])[|plan|] == p;
  }

  lemma EmptiedOneMore(was: seq<LevelRecord>, now: seq<LevelRecord>, plan: seq<PlannedLevel>, p: PlannedLevel, k: nat)
    requires Emptied(was, now, plan) && k < |now| && p.target == Sub(k)
    ensures Emptied(was, now[k := Cleaned(now[k])], plan + [p])
  {
    forall j | 0 <= j < |was| ensures IsPlanned(plan + [p], Sub(j)) <==> IsPlanned(plan, Sub(j)) || j == k {
      IsPlannedOneMore(plan, p, Sub(j));
    }
  }

  /** Emptying records moves no level. */
  lemma EmptiedFindsTheSame(was: seq<LevelRecord>, now: seq<LevelRecord>, plan: seq<PlannedLevel>, name: Name)
    requires Emptied(was, now, plan)
    ensures FindLevel(was, name) == FindLevel(now, name)
    ensures FindLevel(was, name).Some?
            ==> var k := FindLevel(was, name).value; Cleaned(was[k]) == Cleaned(now[k])
  {
    assert forall k :: 0 <= k < |was| ==> was[k].name == now[k].name;
  }

  function Sum(ts: seq<ChunkTask>): nat {
    if ts == [] then 0 else ts[0].StepsLeft() + Sum(ts[1..])
  }

  lemma {:induction false} SumAfterStep(ts: seq<ChunkTask>, i: nat, t: ChunkTask)
    requires i < |ts| && t.StepsLeft() < ts[i].StepsLeft()
    ensures Sum(ts[i := t]) < Sum(ts)
  {
    if i > 0 {
      SumAfterStep(ts[1..], i - 1, t);
      assert ts[i := t][1..] == ts[1..][i - 1 := t];
    }
  }

  /** `now` are the tasks `was`, somewhere along their way. */
  ghost predicate Underway(was: seq<ChunkTask>, now: seq<ChunkTask>) {
    && |now| == |was|
    && forall i :: 0 <= i < |was| ==> now[i].Valid() && now[i].AsScheduled() == was[i].AsScheduled()
  }

  ghost predicate CarrierBegun(ts: seq<ChunkTask>) {
    exists i :: 0 <= i < |ts| && ts[i].storesGameInstance && ts[i].begun
  }

  lemma CarrierBegunUpdate(ts: seq<ChunkTask>, i: nat, t: ChunkTask)
    requires i < |ts| && t.storesGameInstance == ts[i].storesGameInstance && (ts[i].begun ==> t.begun)
    ensures CarrierBegun(ts[i := t]) <==> CarrierBegun(ts) || (t.storesGameInstance && t.begun)
  {
    if CarrierBegun(ts) {
      var k :| 0 <= k < |ts| && ts[k].storesGameInstance && ts[k].begun;
      assert ts[i := t][k].storesGameInstance && ts[i := t][k].begun;
    }
    assert ts[i := t][i] == t;
  }

  /** A task with one more actor handled. */
  function WithNext(t: ChunkTask, more: seq<ActorRecord>): ChunkTask {
    t.(done := t.done + 1, records := t.records + more)
  }

  lemma WithNextIsValid(t: ChunkTask)
    requires t.Valid() && t.begun && t.done < t.num
    ensures var entry := t.level.actors[t.start + t.done];
            WithNext(t, if entry.Some? && t.level.filter.ShouldSave(entry.value)
                        then [RecordOf(entry.value, t.level.filter)] else []).Valid()
  {
    hide SavedActors, RecordOf;
    SavedActorsNext(t.level.actors, t.start, t.done, t.level.filter);
  }

  /** Handles the next actor of a task's range. */
  method SerializeNext(t: ChunkTask) returns (next: ChunkTask)
    requires t.Valid() && t.begun && t.done < t.num
    ensures next.Valid() && next.AsScheduled() == t.AsScheduled()
    ensures next.begun && next.done == t.done + 1
  {
    WithNextIsValid(t);
    var entry := t.level.actors[t.start + t.done];
    var records := [];
    if entry.Some? && t.level.filter.ShouldSave(entry.value) {
      var record := SerializeActor(entry.value, t.level.filter);
      records := [record];
    }
    next := WithNext(t, records);
  }

  /** The next piece of a task's DoWork: beginning it, which is when it stores the game instance, then one actor at a
      time. */
  method DoNext(t: ChunkTask) returns (next: ChunkTask)
    requires t.Valid() && !t.Finished()
    ensures next.Valid() && next.AsScheduled() == t.AsScheduled()
    ensures next.StepsLeft() + 1 == t.StepsLeft() && next.begun
  {
    if !t.begun {
      next := t.(begun := true);
    } else {
      next := SerializeNext(t);
    }
  }

  /** The records a list of tasks has built for one level record, in task order. */
  function BuiltFor(ts: seq<ChunkTask>, n: nat, target: LevelRef): seq<ActorRecord>
    requires n <= |ts|
  {
    if n == 0 then []
    else BuiltFor(ts, n - 1, target) + if ts[n - 1].level.target == target then ts[n - 1].records else []
  }

  lemma FinishedTaskBuiltItsChunk(scheduled: ChunkTask, t: ChunkTask, target: LevelRef)
    requires t.Valid() && t.Finished() && t.AsScheduled() == scheduled.AsScheduled()
    ensures (if t.level.target == target then t.records else []) == PartFor(target)(scheduled)
  {
    assert t.level == t.AsScheduled().level && t.start == t.AsScheduled().start && t.num == t.AsScheduled().num;
  }

  /** What finished tasks have built is what the chunks they were scheduled as contribute. */
  lemma {:induction false} FinishedTasksBuildTheirChunks(scheduled: seq<ChunkTask>, ts: seq<ChunkTask>, n: nat,
                                                         target: LevelRef)
    requires Underway(scheduled, ts) && n <= |ts|
    requires forall i :: 0 <= i < |ts| ==> ts[i].Finished()
    ensures BuiltFor(ts, n, target) == Contribution(scheduled[..n], target)
  {
    hide SavedActors, Chunk;
    if n > 0 {
      FinishedTasksBuildTheirChunks(scheduled, ts, n - 1, target);
      JoinedOneMore(scheduled[..n - 1], scheduled[n - 1], PartFor(target));
      assert scheduled[..n] == scheduled[..n - 1] + [scheduled[n - 1]];
      FinishedTaskBuiltItsChunk(scheduled[n - 1], ts[n - 1], target);
    }
  }

  /** The first `n` tasks have been dumped into the records. */
  ghost predicate Dumped(main: LevelRecord, subs: seq<LevelRecord>, main': LevelRecord, subs': seq<LevelRecord>,
                         ts: seq<ChunkTask>, n: nat)
    requires n <= |ts|
  {
    && main' == Appended(main, BuiltFor(ts, n, Main))
    && |subs'| == |subs|
    && forall k :: 0 <= k < |subs| ==> subs'[k] == Appended(subs[k], BuiltFor(ts, n, Sub(k)))
  }

  function Appended(r: LevelRecord, more: seq<ActorRecord>): LevelRecord {
    r.(actors := r.actors + more)
  }

  lemma AppendedTwice(r: LevelRecord, a: seq<ActorRecord>, b: seq<ActorRecord>)
    ensures Appended(r, []) == r
    ensures Appended(Appended(r, a), b) == Appended(r, a + b)
  {
    assert (r.actors + a) + b == r.actors + (a + b);
  }

  lemma DumpedNext(main: LevelRecord, subs: seq<LevelRecord>, main': LevelRecord, subs': seq<LevelRecord>,
                   ts: seq<ChunkTask>, n: nat)
    requires n < |ts| && Dumped(main, subs, main', subs', ts, n)
    ensures var t := ts[n];
            match t.level.target
            case Main => Dumped(main, subs, Appended(main', t.records), subs', ts, n + 1)
            case Sub(k) =>
              k < |subs| ==> Dumped(main, subs, main', subs'[k := Appended(subs'[k], t.records)], ts, n + 1)
  {
    var t := ts[n];
    AppendedTwice(main, BuiltFor(ts, n, Main), t.records);
    forall k | 0 <= k < |subs|
      ensures Appended(subs[k], BuiltFor(ts, n + 1, Sub(k)))
           == if t.level.target == Sub(k) then Appended(subs'[k], t.records) else subs'[k]
    {
      AppendedTwice(subs[k], BuiltFor(ts, n, Sub(k)), t.records);
    }
  }

  lemma FreshTasksAreUnderway(ts: seq<ChunkTask>)
    requires forall t :: t in ts ==> !t.begun && t.done == 0 && t.records == [] && t.start + t.num <= |t.level.actors|
    ensures Underway(ts, ts) && !CarrierBegun(ts)
  {
    forall i | 0 <= i < |ts| ensures ts[i].Valid() && !ts[i].begun {
      assert ts[i] in ts;
    }
  }

  lemma BegunCarriers(scheduled: seq<ChunkTask>, ts: seq<ChunkTask>)
    requires Underway(scheduled, ts) && forall i :: 0 <= i < |ts| ==> ts[i].Finished()
    ensures CarrierBegun(ts) <==> Carries(scheduled)
  {
    forall i | 0 <= i < |ts| ensures ts[i].storesGameInstance == scheduled[i].storesGameInstance {
      assert ts[i].AsScheduled().storesGameInstance == scheduled[i].AsScheduled().storesGameInstance;
    }
    if Carries(scheduled) {
      var i :| 0 <= i < |scheduled| && scheduled[i].storesGameInstance;
      assert ts[i].storesGameInstance && ts[i].begun;
    }
  }

  /** The record of a level after its actors have been saved; its name and filter stay. */
  function SavedLevel(general: LevelFilter, was: LevelRecord, actors: ActorArray): LevelRecord {
    Cleaned(was).(actors := SavedActors(actors, FilterOf(general, was)))
  }

  /** Some loaded level's record is the one at `k`. */
  ghost predicate IsLoadedRecord(records: seq<LevelRecord>, streaming: seq<StreamingLevel>, k: nat) {
    exists i :: 0 <= i < |streaming| && streaming[i].loaded && FindLevel(records, streaming[i].name) == Some(k)
  }

  /** Every loaded level has been saved into its record; missing records have been added, and no other has changed. */
  ghost predicate SubLevelsSaved(general: LevelFilter, was: seq<LevelRecord>, now: seq<LevelRecord>,
                                 streaming: seq<StreamingLevel>) {
    && |was| <= |now|
    && HaveRecords(now, streaming)
    && (forall i :: 0 <= i < |streaming| && streaming[i].loaded ==>
          var k := FindLevel(now, streaming[i].name).value;
          now[k] == SavedLevel(general, if k < |was| then was[k]
                               else EMPTY_LEVEL.(name := streaming[i].name), streaming[i].actors))
    && (forall k :: 0 <= k < |now| && !IsLoadedRecord(now, streaming, k) ==> k < |was| && now[k] == was[k])
  }

  /** Each loaded level has been saved under its own filter if its record has one, and else under the general one. */
  lemma SavedUnderItsFilter(general: LevelFilter, was: seq<LevelRecord>, now: seq<LevelRecord>,
                            streaming: seq<StreamingLevel>, i: nat)
    requires SubLevelsSaved(general, was, now, streaming) && i < |streaming| && streaming[i].loaded
    ensures var k := FindLevel(now, streaming[i].name);
            && k.Some? && now[k.value].name == streaming[i].name
            && now[k.value].actors
               == if k.value < |was| && was[k.value].overridesFilter
                  then SavedActors(streaming[i].actors, was[k.value].filter)
                  else SavedActors(streaming[i].actors, general)
  {
    hide SavedActors, FindLevel;
  }

  predicate AnyActors(persistent: ActorArray, streaming: seq<StreamingLevel>) {
    persistent != [] || exists i :: 0 <= i < |streaming| && streaming[i].loaded && streaming[i].actors != []
  }

  /** One of the first `n` levels is loaded and finds its record at `k`. */
  ghost predicate FoundAt(records: seq<LevelRecord>, streaming: seq<StreamingLevel>, n: nat, k: nat)
    requires n <= |streaming|
  {
    exists i :: 0 <= i < n && streaming[i].loaded && FindLevel(records, streaming[i].name) == Some(k)
  }

  /** The records after those of the loaded levels have been added. */
  ghost predicate Prepared(was: seq<LevelRecord>, now: seq<LevelRecord>, streaming: seq<StreamingLevel>, n: nat)
    requires n <= |streaming|
  {
    && was <= now
    && (forall i :: 0 <= i < n && streaming[i].loaded ==> FindLevel(now, streaming[i].name).Some?)
    && (forall k :: |was| <= k < |now| ==>
          now[k] == EMPTY_LEVEL.(name := now[k].name) && FoundAt(now, streaming, n, k))
  }

  lemma FoundAtStays(now: seq<LevelRecord>, more: LevelRecord, streaming: seq<StreamingLevel>, n: nat, k: nat)
    requires n < |streaming| && FoundAt(now, streaming, n, k)
    ensures FoundAt(now + [more], streaming, n + 1, k)
  {
    var i :| 0 <= i < n && streaming[i].loaded && FindLevel(now, streaming[i].name) == Some(k);
    FindLevelStable(now, more, streaming[i].name);
  }

  lemma PreparedNext(was: seq<LevelRecord>, now: seq<LevelRecord>, streaming: seq<StreamingLevel>, n: nat)
    requires n < |streaming| && Prepared(was, now, streaming, n)
    requires streaming[n].loaded && FindLevel(now, streaming[n].name).None?
    ensures Prepared(was, now + [EMPTY_LEVEL.(name := streaming[n].name)], streaming, n + 1)
  {
    hide FindLevel;
    var added := EMPTY_LEVEL.(name := streaming[n].name);
    var more := now + [added];
    FindLevelAppended(now, streaming[n].name);
    forall i | 0 <= i < n && streaming[i].loaded ensures FindLevel(more, streaming[i].name).Some? {
      FindLevelStable(now, added, streaming[i].name);
    }
    var upto := n + 1;
    forall k | |was| <= k < |more| ensures FoundAt(more, streaming, upto, k) {
      if k < |now| {
        FoundAtStays(now, added, streaming, n, k);
      } else {
        assert FindLevel(more, streaming[n].name) == Some(k);
      }
    }
  }

  lemma PreparedSkip(was: seq<LevelRecord>, now: seq<LevelRecord>, streaming: seq<StreamingLevel>, n: nat)
    requires n < |streaming| && Prepared(was, now, streaming, n)
    requires streaming[n].loaded ==> FindLevel(now, streaming[n].name).Some?
    ensures Prepared(was, now, streaming, n + 1)
  {
    var upto := n + 1;
    forall k | |was| <= k < |now| ensures FoundAt(now, streaming, upto, k) {
      assert now[k] == EMPTY_LEVEL.(name := now[k].name) && FoundAt(now, streaming, n, k);
      var i :| 0 <= i < n && streaming[i].loaded && FindLevel(now, streaming[i].name) == Some(k);
    }
  }

  lemma PlanTargetsExist(persistent: ActorArray, main: LevelRecord, general: LevelFilter, records: seq<LevelRecord>,
                         streaming: seq<StreamingLevel>)
    requires HaveRecords(records, streaming)
    ensures forall p :: p in Plan(persistent, main, general, records, streaming, |streaming|) && p.target.Sub?
                        ==> p.target.index < |records|
  {
    StreamingPlanIsExact(general, records, streaming, |streaming|);
  }

  lemma PlanHasActors(persistent: ActorArray, main: LevelRecord, general: LevelFilter, records: seq<LevelRecord>,
                      streaming: seq<StreamingLevel>)
    requires HaveRecords(records, streaming)
    ensures SomeActors(Plan(persistent, main, general, records, streaming, |streaming|))
            <==> AnyActors(persistent, streaming)
  {
    hide FindLevel, SavedActors;
    var rest := StreamingPlan(general, records, streaming, |streaming|);
    var plan := Plan(persistent, main, general, records, streaming, |streaming|);
    StreamingPlanIsExact(general, records, streaming, |streaming|);
    if SomeActors(plan) {
      var a :| 0 <= a < |plan| && plan[a].actors != [];
      assert a > 0 ==> plan[a] in rest;
    }
    if AnyActors(persistent, streaming) {
      if persistent != [] {
        assert plan[0].actors != [];
      } else {
        var i :| 0 <= i < |streaming| && streaming[i].loaded && streaming[i].actors != [];
        var p := PlanFor(general, records, streaming[i]);
        assert PlannedBy(p, general, records, streaming, |streaming|);
        var a :| 0 <= a < |rest| && rest[a] == p;
        assert plan[a + 1].actors != [];
      }
    }
  }

  /** The plan's entry for a loaded streaming level. */
  lemma PlannedEntry(persistent: ActorArray, main: LevelRecord, general: LevelFilter, records: seq<LevelRecord>,
                     streaming: seq<StreamingLevel>, i: nat) returns (a: nat)
    requires HaveRecords(records, streaming) && i < |streaming| && streaming[i].loaded
    ensures var plan := Plan(persistent, main, general, records, streaming, |streaming|);
            a < |plan| && plan[a] == PlanFor(general, records, streaming[i])
  {
    var rest := StreamingPlan(general, records, streaming, |streaming|);
    StreamingPlanIsExact(general, records, streaming, |streaming|);
    assert PlannedBy(PlanFor(general, records, streaming[i]), general, records, streaming, |streaming|);
    var b :| 0 <= b < |rest| && rest[b] == PlanFor(general, records, streaming[i]);
    a := b + 1;
  }

  lemma OnlyLoadedArePlanned(persistent: ActorArray, main: LevelRecord, general: LevelFilter, records: seq<LevelRecord>,
                             streaming: seq<StreamingLevel>, k: nat)
    requires HaveRecords(records, streaming) && !IsLoadedRecord(records, streaming, k)
    ensures !IsPlanned(Plan(persistent, main, general, records, streaming, |streaming|), Sub(k))
  {
    var rest := StreamingPlan(general, records, streaming, |streaming|);
    var plan := Plan(persistent, main, general, records, streaming, |streaming|);
    StreamingPlanIsExact(general, records, streaming, |streaming|);
    forall a | 0 <= a < |plan| ensures plan[a].target != Sub(k) {
      if a > 0 {
        assert plan[a] in rest;
        var i :| 0 <= i < |streaming| && streaming[i].loaded && plan[a] == PlanFor(general, records, streaming[i]);
        assert FindLevel(records, streaming[i].name) != Some(k);
      }
    }
  }

  /** The records once the tasks of the plan have been dumped into the emptied ones. */
  ghost predicate Received(plan: seq<PlannedLevel>, taskCount: nat, stores: bool, emptied: seq<LevelRecord>,
                           now: seq<LevelRecord>)
    requires taskCount > 0
  {
    && |now| == |emptied|
    && forall k :: 0 <= k < |now| ==>
         now[k] == Appended(emptied[k], Contribution(AllChunks(plan, taskCount, stores), Sub(k)))
  }

  /** A record some loaded level fills ends as that level, saved. */
  lemma LoadedLevelIsSaved(plan: seq<PlannedLevel>, a: nat, general: LevelFilter, prepared: seq<LevelRecord>,
                           emptied: seq<LevelRecord>, now: seq<LevelRecord>, level: StreamingLevel, taskCount: nat,
                             stores: bool)
    requires taskCount > 0 && DistinctTargets(plan) && a < |plan|
    requires FindLevel(prepared, level.name).Some? && plan[a] == PlanFor(general, prepared, level)
    requires Emptied(prepared, emptied, plan) && Received(plan, taskCount, stores, emptied, now)
    ensures var k := FindLevel(prepared, level.name).value;
            now[k] == SavedLevel(general, prepared[k], level.actors)
  {
    hide FindFirst, FindLevel;
    var k := FindLevel(prepared, level.name).value;
    assert IsPlanned(plan, Sub(k));
    PlannedReceivesItsLevel(plan, taskCount, stores, a);
  }

  lemma ReceivedMeansSaved(persistent: ActorArray, main: LevelRecord, general: LevelFilter, was: seq<LevelRecord>,
                           prepared: seq<LevelRecord>, emptied: seq<LevelRecord>, now: seq<LevelRecord>,
                           streaming: seq<StreamingLevel>, taskCount: nat, stores: bool)
    requires taskCount > 0 && DistinctNames(streaming)
    requires Prepared(was, prepared, streaming, |streaming|)
    requires var plan := Plan(persistent, main, general, prepared, streaming, |streaming|);
             Emptied(prepared, emptied, plan) && Received(plan, taskCount, stores, emptied, now)
    ensures SubLevelsSaved(general, was, now, streaming)
  {
    var plan := Plan(persistent, main, general, prepared, streaming, |streaming|);
    PlanIsDistinct(persistent, main, general, prepared, streaming);
    SameNamesFindTheSame(prepared, now);
    forall i | 0 <= i < |streaming| && streaming[i].loaded
      ensures var k := FindLevel(now, streaming[i].name).value;
              now[k] == SavedLevel(general, prepared[k], streaming[i].actors)
    {
      var a := PlannedEntry(persistent, main, general, prepared, streaming, i);
      LoadedLevelIsSaved(plan, a, general, prepared, emptied, now, streaming[i], taskCount, stores);
    }
    forall k | 0 <= k < |now| && !IsLoadedRecord(now, streaming, k) ensures k < |was| && now[k] == was[k] {
      assert !IsLoadedRecord(prepared, streaming, k);
      OnlyLoadedArePlanned(persistent, main, general, prepared, streaming, k);
      UnplannedReceivesNothing(plan, taskCount, stores, Sub(k));
      AppendedTwice(emptied[k], [], []);
    }
  }

  /** The whole world takes no more tasks than it has levels, or than there are threads and half as many again as
      levels. */
  lemma AllTasksAreFew(persistent: ActorArray, main: LevelRecord, general: LevelFilter, records: seq<LevelRecord>,
                       streaming: seq<StreamingLevel>, workers: nat, stores: bool)
    ensures var plan := Plan(persistent, main, general, records, streaming, |streaming|);
            var levels := |streaming| + 1;
            |AllChunks(plan, TasksPerLevel(workers, |streaming|), stores)|
            <= if levels > workers + 1 + levels / 2 then levels else workers + 1 + levels / 2
  {
    var plan := Plan(persistent, main, general, records, streaming, |streaming|);
    var levels, perLevel := |streaming| + 1, TasksPerLevel(workers, |streaming|);
    StreamingPlanIsShort(general, records, streaming, |streaming|);
    TasksOverAllLevels(workers, |streaming|);
    AllChunksAreFew(plan, perLevel, stores);
    MoreTimes(levels, |plan|, perLevel);
  }

  /** USlotDataTask_Saver: what it does to the slot once it has started. */
  class WorldSaver {
    const slot: SlotData
    const gameInstance: Option<ObjectRecord>
    const multithreaded: bool
    var tasks: seq<ChunkTask>

    constructor (slot: SlotData, gameInstance: Option<ObjectRecord>, multithreaded: bool)
      ensures this.slot == slot && this.gameInstance == gameInstance && this.multithreaded == multithreaded
      ensures tasks == []
    {
      this.slot, this.gameInstance, this.multithreaded, tasks := slot, gameInstance, multithreaded, [];
    }

    /** A single task per level unless serialization is multithreaded. */
    function TaskCount(assignedTasks: nat): nat {
      if multithreaded then assignedTasks else 1
    }

    /** Creates the sub-level records that do not exist. */
    method PrepareAllLevels(streaming: seq<StreamingLevel>)
      modifies slot`subLevels
      ensures Prepared(old(slot.subLevels), slot.subLevels, streaming, |streaming|)
    {
      for i := 0 to |streaming|
        invariant Prepared(old(slot.subLevels), slot.subLevels, streaming, i)
      {
        if streaming[i].loaded && FindLevel(slot.subLevels, streaming[i].name).None? {
          PreparedNext(old(slot.subLevels), slot.subLevels, streaming, i);
          slot.subLevels := slot.subLevels + [EMPTY_LEVEL.(name := streaming[i].name)];
        } else {
          PreparedSkip(old(slot.subLevels), slot.subLevels, streaming, i);
        }
      }
    }

    /** Splits all actors of a level between multi-threaded tasks. */
    method ScheduleChunks(p: PlannedLevel, size: nat)
      requires size > 0
      modifies this`tasks
      ensures tasks == old(tasks) + ChunksFrom(p, 0, size, slot.storeGameInstance)
    {
      ghost var all := old(tasks) + ChunksFrom(p, 0, size, slot.storeGameInstance);
      var index := 0;
      while index < |p.actors|
        invariant index <= |p.actors|
        invariant tasks + ChunksFrom(p, index, size, slot.storeGameInstance) == all
      {
        var remaining := |p.actors| - index;
        var num := if remaining < size then remaining else size;
        var task := ChunkTask(p, index, num, index <= 0 && slot.storeGameInstance, false, 0, []);
        ghost var rest := ChunksFrom(p, index + num, size, slot.storeGameInstance);
        assert tasks + ([task] + rest) == (tasks + [task]) + rest;
        tasks := tasks + [task];
        index := index + num;
      }
    }

    /** Empties the level's record and schedules the chunks that will fill it. */
    method SerializeLevelSync(actors: ActorArray, assignedTasks: nat, target: LevelRef)
      requires assignedTasks > 0 && (target.Sub? ==> target.index < |slot.subLevels|)
      modifies this`tasks, slot`mainLevel, slot`subLevels
      ensures var was := if target.Main? then old(slot.mainLevel) else old(slot.subLevels)[target.index];
              tasks == old(tasks) + LevelChunks(PlannedLevel(target, actors, FilterOf(slot.generalFilter, was)),
                                                TaskCount(assignedTasks), slot.storeGameInstance)
      ensures slot.mainLevel == if target.Main? then Cleaned(old(slot.mainLevel)) else old(slot.mainLevel)
      ensures slot.subLevels == if target.Sub?
                                then old(slot.subLevels)[target.index := Cleaned(old(slot.subLevels)[target.index])]
                                else old(slot.subLevels)
      ensures |tasks| - |old(tasks)| <= (if multithreaded then assignedTasks else 1)
    {
      var filter := slot.generalFilter;
      if target.Main? {
        slot.mainLevel := Cleaned(slot.mainLevel);
        filter := FilterOf(slot.generalFilter, slot.mainLevel);
      } else {
        slot.subLevels := slot.subLevels[target.index := Cleaned(slot.subLevels[target.index])];
        filter := FilterOf(slot.generalFilter, slot.subLevels[target.index]);
      }
      ChunksAreFew(PlannedLevel(target, actors, filter), TaskCount(assignedTasks), slot.storeGameInstance);
      ScheduleChunks(PlannedLevel(target, actors, filter), ChunkSize(|actors|, TaskCount(assignedTasks)));
    }

    /** The tasks are the chunks of the plan, and the records it fills have been emptied. */
    ghost predicate FollowsPlan(plan: seq<PlannedLevel>, was: seq<LevelRecord>, taskCount: nat)
      requires taskCount > 0
      reads this, slot
    {
      tasks == AllChunks(plan, taskCount, slot.storeGameInstance) && Emptied(was, slot.subLevels, plan)
    }

    /** Schedules the chunks of one loaded streaming level. */
    method ScheduleStreaming(level: StreamingLevel, tasksPerLevel: nat, ghost plan: seq<PlannedLevel>,
                             ghost was: seq<LevelRecord>)
      requires tasksPerLevel > 0 && FollowsPlan(plan, was, TaskCount(tasksPerLevel)) && FindLevel(was, level.name).Some?
      modifies this`tasks, slot`mainLevel, slot`subLevels
      ensures FollowsPlan(plan + [PlanFor(slot.generalFilter, was, level)], was, TaskCount(tasksPerLevel))
      ensures slot.mainLevel == old(slot.mainLevel)
    {
      EmptiedFindsTheSame(was, slot.subLevels, plan, level.name);
      ghost var p := PlanFor(slot.generalFilter, was, level);
      ghost var emptied := slot.subLevels;
      var k := FindLevel(slot.subLevels, level.name).value;
      assert FilterOf(slot.generalFilter, slot.subLevels[k]) == p.filter;
      SerializeLevelSync(level.actors, tasksPerLevel, Sub(k));
      EmptiedOneMore(was, emptied, plan, p, k);
      AllChunksOneMore(plan, p, TaskCount(tasksPerLevel), slot.storeGameInstance);
    }

    /** Schedules the chunks of the main level and of every loaded streaming level. */
    method ScheduleLevels(persistent: ActorArray, streaming: seq<StreamingLevel>, tasksPerLevel: nat)
      requires tasks == [] && HaveRecords(slot.subLevels, streaming) && tasksPerLevel > 0
      modifies this`tasks, slot`mainLevel, slot`subLevels
      ensures FollowsPlan(Plan(persistent, old(slot.mainLevel), slot.generalFilter, old(slot.subLevels), streaming,
                               |streaming|),
                          old(slot.subLevels), TaskCount(tasksPerLevel))
      ensures slot.mainLevel == Cleaned(old(slot.mainLevel))
    {
      hide AllChunks, Emptied, LevelChunks;
      ghost var was, main := slot.subLevels, slot.mainLevel;
      ghost var plan := Plan(persistent, main, slot.generalFilter, was, streaming, 0);
      SerializeLevelSync(persistent, tasksPerLevel, Main);
      PlanOfMain(persistent, main, slot.generalFilter, was, streaming, TaskCount(tasksPerLevel),
                 slot.storeGameInstance);
      for i := 0 to |streaming|
        invariant plan == Plan(persistent, main, slot.generalFilter, was, streaming, i)
        invariant FollowsPlan(plan, was, TaskCount(tasksPerLevel))
        invariant slot.mainLevel == Cleaned(main)
      {
        PlanStep(persistent, main, slot.generalFilter, was, streaming, i);
        if streaming[i].loaded {
          ScheduleStreaming(streaming[i], tasksPerLevel, plan, was);
          plan := plan + [PlanFor(slot.generalFilter, was, streaming[i])];
        }
      }
    }

    /** The game instance has reached the slot exactly when a chunk that carries it has begun. */
    ghost predicate GameInstanceFollows(was: ObjectRecord)
      reads this, slot`gameInstance
    {
      slot.gameInstance == if gameInstance.Some? && CarrierBegun(tasks) then gameInstance.value else was
    }

    /** Advances one task. */
    method Step(i: nat, ghost scheduled: seq<ChunkTask>, ghost was: ObjectRecord)
      requires Underway(scheduled, tasks) && i < |tasks| && !tasks[i].Finished() && GameInstanceFollows(was)
      modifies this`tasks, slot`gameInstance
      ensures Underway(scheduled, tasks) && GameInstanceFollows(was)
      ensures Sum(tasks) < Sum(old(tasks))
    {
      var t := DoNext(tasks[i]);
      if !tasks[i].begun && t.storesGameInstance && gameInstance.Some? {
        slot.gameInstance := gameInstance.value;
      }
      SumAfterStep(tasks, i, t);
      CarrierBegunUpdate(tasks, i, t);
      tasks := tasks[i := t];
    }

    /** Runs all tasks to their end, advancing an arbitrary unfinished one at each step. */
    method RunTasks()
      requires Underway(tasks, tasks) && !CarrierBegun(tasks)
      modifies this`tasks, slot`gameInstance
      ensures Underway(old(tasks), tasks) && forall i :: 0 <= i < |tasks| ==> tasks[i].Finished()
      ensures GameInstanceFollows(old(slot.gameInstance))
    {
      while exists i :: 0 <= i < |tasks| && !tasks[i].Finished()
        invariant Underway(old(tasks), tasks)
        invariant GameInstanceFollows(old(slot.gameInstance))
        decreases Sum(tasks)
      {
        var i :| 0 <= i < |tasks| && !tasks[i].Finished();
        Step(i, old(tasks), old(slot.gameInstance));
      }
    }

    /** Appends a task's records to its level record. */
    method DumpData(i: nat, ghost main: LevelRecord, ghost subs: seq<LevelRecord>)
      requires i < |tasks|
      requires tasks[i].level.target.Sub? ==> tasks[i].level.target.index < |slot.subLevels|
      requires Dumped(main, subs, slot.mainLevel, slot.subLevels, tasks, i)
      modifies slot`mainLevel, slot`subLevels
      ensures Dumped(main, subs, slot.mainLevel, slot.subLevels, tasks, i + 1)
    {
      DumpedNext(main, subs, slot.mainLevel, slot.subLevels, tasks, i);
      var t := tasks[i];
      match t.level.target
      case Main => slot.mainLevel := Appended(slot.mainLevel, t.records);
      case Sub(k) => slot.subLevels := slot.subLevels[k := Appended(slot.subLevels[k], t.records)];
    }

    /** Once all tasks are finished, each record receives its tasks' records, in task order. */
    method DumpAll()
      requires forall i :: 0 <= i < |tasks| && tasks[i].level.target.Sub? ==>
                             tasks[i].level.target.index < |slot.subLevels|
      modifies this`tasks, slot`mainLevel, slot`subLevels
      ensures tasks == []
      ensures Dumped(old(slot.mainLevel), old(slot.subLevels), slot.mainLevel, slot.subLevels, old(tasks), |old(tasks)|)
    {
      ghost var main, subs := slot.mainLevel, slot.subLevels;
      forall r: LevelRecord ensures Appended(r, []) == r {
        AppendedTwice(r, [], []);
      }
      for i := 0 to |tasks|
        invariant tasks == old(tasks)
        invariant Dumped(main, subs, slot.mainLevel, slot.subLevels, tasks, i)
      {
        DumpData(i, main, subs);
      }
      tasks := [];
    }

    /** Starts all serialization tasks, waits for them, and dumps their data. */
    method RunScheduledTasks(ghost plan: seq<PlannedLevel>, ghost was: seq<LevelRecord>, ghost taskCount: nat)
      requires taskCount > 0 && FollowsPlan(plan, was, taskCount)
      requires forall p :: p in plan && p.target.Sub? ==> p.target.index < |slot.subLevels|
      modifies this`tasks, slot`mainLevel, slot`subLevels, slot`gameInstance
      ensures tasks == []
      ensures slot.mainLevel
              == Appended(old(slot.mainLevel), Contribution(AllChunks(plan, taskCount, slot.storeGameInstance), Main))
      ensures Received(plan, taskCount, slot.storeGameInstance, old(slot.subLevels), slot.subLevels)
      ensures slot.gameInstance == if gameInstance.Some? && slot.storeGameInstance && SomeActors(plan)
                                   then gameInstance.value else old(slot.gameInstance)
    {
      hide AllChunks, Contribution, SavedActors, Emptied;
      ghost var scheduled := tasks;
      AllChunksAreFresh(plan, taskCount, slot.storeGameInstance);
      FreshTasksAreUnderway(tasks);
      RunTasks();
      CarriedIffSomeActors(plan, taskCount, slot.storeGameInstance);
      BegunCarriers(scheduled, tasks);
      forall i | 0 <= i < |tasks| ensures tasks[i].level in plan {
        assert tasks[i].AsScheduled().level == scheduled[i].AsScheduled().level;
        assert scheduled[i] in scheduled;
      }
      forall target ensures BuiltFor(tasks, |tasks|, target) == Contribution(scheduled, target) {
        FinishedTasksBuildTheirChunks(scheduled, tasks, |tasks|, target);
        assert scheduled[..|tasks|] == scheduled;
      }
      DumpAll();
    }

    /**
     * Saves all loaded levels. However many tasks they are split into and however the tasks interleave, every
     * record ends with its own level's actors, filtered and serialized in array order.
     */
    method SerializeWorld(persistent: ActorArray, streaming: seq<StreamingLevel>, workers: nat, hasAuthority: bool)
      requires tasks == [] && DistinctNames(streaming)
      modifies this`tasks, slot`mainLevel, slot`subLevels, slot`gameInstance
      ensures tasks == []
      ensures !hasAuthority ==> unchanged(slot)
      ensures hasAuthority ==>
                && slot.mainLevel == SavedLevel(slot.generalFilter, old(slot.mainLevel), persistent)
                && slot.mainLevel.actors
                   == SavedActors(persistent, if old(slot.mainLevel.overridesFilter) then old(slot.mainLevel.filter)
                                              else slot.generalFilter)
                && SubLevelsSaved(slot.generalFilter, old(slot.subLevels), slot.subLevels, streaming)
                && slot.gameInstance == if gameInstance.Some? && slot.storeGameInstance
                  && AnyActors(persistent, streaming)
                                        then gameInstance.value else old(slot.gameInstance)
    {
      hide AllChunks, Contribution, SavedActors, Received, Prepared, SubLevelsSaved;
      if !hasAuthority {
        return;
      }
      ghost var general, main, subs := slot.generalFilter, slot.mainLevel, slot.subLevels;
      PrepareAllLevels(streaming);
      ghost var prepared := slot.subLevels;
      ghost var plan := Plan(persistent, main, general, prepared, streaming, |streaming|);
      var tasksPerLevel := TasksPerLevel(workers, |streaming|);
      ghost var taskCount := TaskCount(tasksPerLevel);
      ScheduleLevels(persistent, streaming, tasksPerLevel);
      ghost var emptied := slot.subLevels;
      PlanIsDistinct(persistent, main, general, prepared, streaming);
      PlanTargetsExist(persistent, main, general, prepared, streaming);
      RunScheduledTasks(plan, prepared, taskCount);
      PlanHasActors(persistent, main, general, prepared, streaming);
      PlannedReceivesItsLevel(plan, taskCount, slot.storeGameInstance, 0);
      ReceivedMeansSaved(persistent, main, general, subs, prepared, emptied, slot.subLevels, streaming, taskCount,
                         slot.storeGameInstance);
    }

    /**
     * What a save does to the slot data: it is cleaned, takes the time and what the preset says, and is filled from the
     * world. Nothing of an earlier save is left, but for the records of levels that are not loaded now: the game
     * instance is the present one or none.
     */
    method SerializeSlot(persistent: ActorArray, streaming: seq<StreamingLevel>, workers: nat, hasAuthority: bool,
                         settings: SlotSettings)
      requires tasks == [] && DistinctNames(streaming)
      modifies this`tasks, slot
      ensures tasks == []
      ensures slot.mapName == old(slot.mapName) && slot.timeSeconds == settings.timeSeconds
      ensures slot.storeGameInstance == settings.storeGameInstance && slot.generalFilter == settings.filter
      ensures slot.gameInstance
              == if hasAuthority && gameInstance.Some? && settings.storeGameInstance && AnyActors(persistent, streaming)
                 then gameInstance.value else EMPTY_OBJECT
      ensures if hasAuthority
              then && slot.mainLevel == SavedLevel(settings.filter, old(slot.mainLevel), persistent)
                   && SubLevelsSaved(settings.filter, old(slot.subLevels), slot.subLevels, streaming)
              else slot.mainLevel == Cleaned(old(slot.mainLevel)) && slot.subLevels == old(slot.subLevels)
    {
      hide SavedActors, SubLevelsSaved;
      slot.CleanRecords(true);
      slot.timeSeconds, slot.storeGameInstance := settings.timeSeconds, settings.storeGameInstance;
      slot.generalFilter := settings.filter;
      SerializeWorld(persistent, streaming, workers, hasAuthority);
    }
  }
}
