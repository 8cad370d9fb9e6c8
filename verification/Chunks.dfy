/** Splitting a level's actors into chunk tasks, and what the chunks of a level contribute to its record. */
module Chunks {
  import opened Engine
  import opened Actors
  import opened Saver

  /** Where a chunk's records go: the main level's record, or one sub-level's. */
  datatype LevelRef = Main | Sub(index: nat)

  /** A level to save: which record it fills, from which actors, through which filter. */
  datatype PlannedLevel = PlannedLevel(target: LevelRef, actors: ActorArray, filter: LevelFilter)

  /** FMTTask_SerializeActors: the records of a range of a level's actors, built one actor at a time. */
  datatype ChunkTask = ChunkTask(
    level: PlannedLevel, start: nat, num: nat, storesGameInstance: bool,
    begun: bool, done: nat, records: seq<ActorRecord>)
  {
    /** The records built so far are those of the actors handled so far. */
    ghost predicate Valid() {
      && start + num <= |level.actors|
      && done <= num
      && (done > 0 ==> begun)
      && records == SavedActors(level.actors[start..start + done], level.filter)
    }

    predicate Finished() {
      begun && done == num
    }

    /** Steps still to take: the game instance first, then one per actor. */
    function StepsLeft(): nat {
      if !begun then num + 1 else if done < num then num - done else 0
    }

    /** The same task before it ran. */
    function AsScheduled(): ChunkTask {
      this.(begun := false, done := 0, records := [])
    }
  }

  /** What a finished chunk contributes to its level record. */
  function Chunk(t: ChunkTask): seq<ActorRecord> {
    if t.start + t.num <= |t.level.actors|
    then SavedActors(t.level.actors[t.start..t.start + t.num], t.level.filter)
    else []
  }

  const MIN_OBJECTS_PER_TASK: nat := 40

  function CeilDiv(n: nat, d: nat): nat
    requires d > 0
  {
    (n + d - 1) / d
  }

  function ChunkSize(actorCount: nat, taskCount: nat): nat
    requires taskCount > 0
  {
    var balanced := CeilDiv(actorCount, taskCount);
    if balanced > MIN_OBJECTS_PER_TASK then balanced else MIN_OBJECTS_PER_TASK
  }

  /** One more than the worker threads, shared among the levels, rounded to the nearest and at least one. */
  function TasksPerLevel(workers: nat, streamingLevels: nat): nat {
    var threads := workers + 1;
    var levels := streamingLevels + 1;
    var rounded := (2 * threads + levels) / (2 * levels);
    if rounded > 1 then rounded else 1
  }

  /** The chunks of a level from actor `index` on: full ones, except perhaps the last. */
  function ChunksFrom(p: PlannedLevel, index: nat, size: nat, stores: bool): seq<ChunkTask>
    requires size > 0
    decreases |p.actors| - index
  {
    if index >= |p.actors| then []
    else
      var num := if |p.actors| - index < size then |p.actors| - index else size;
      [ChunkTask(p, index, num, index == 0 && stores, false, 0, [])] + ChunksFrom(p, index + num, size, stores)
  }

  /** What the parts of all tasks come to, one after the other. */
  function Joined<T>(ts: seq<ChunkTask>, part: ChunkTask -> seq<T>): seq<T> {
    if ts == [] then [] else part(ts[0]) + Joined(ts[1..], part)
  }

  lemma {:induction false} JoinedSplit<T>(a: seq<ChunkTask>, b: seq<ChunkTask>, part: ChunkTask -> seq<T>)
    ensures Joined(a + b, part) == Joined(a, part) + Joined(b, part)
  {
    if a == [] {
      assert a + b == b;
    } else {
      assert (a + b)[1..] == a[1..] + b;
      JoinedSplit(a[1..], b, part);
    }
  }

  /** The part of a task that goes to one level record. */
  function PartFor(target: LevelRef): ChunkTask -> seq<ActorRecord> {
    (t: ChunkTask) => if t.level.target == target then Chunk(t) else []
  }

  /** Everything a list of chunks contributes to one level record, in task order. */
  function Contribution(ts: seq<ChunkTask>, target: LevelRef): seq<ActorRecord> {
    Joined(ts, PartFor(target))
  }

  lemma ContributionSplit(a: seq<ChunkTask>, b: seq<ChunkTask>, target: LevelRef)
    ensures Contribution(a + b, target) == Contribution(a, target) + Contribution(b, target)
  {
    JoinedSplit(a, b, PartFor(target));
  }

  lemma JoinedFirst<T>(t: ChunkTask, rest: seq<ChunkTask>, part: ChunkTask -> seq<T>)
    ensures Joined([t] + rest, part) == part(t) + Joined(rest, part)
  {
    assert ([t] + rest)[1..] == rest;
  }

  lemma JoinedOneMore<T>(ts: seq<ChunkTask>, t: ChunkTask, part: ChunkTask -> seq<T>)
    ensures Joined(ts + [t], part) == Joined(ts, part) + part(t)
  {
    JoinedSplit(ts, [t], part);
    assert [t][1..] == [];
  }

  /** The part of a chunk, put before those of the actors after it. */
  lemma PartThenRest(t: ChunkTask, target: LevelRef)
    requires t.start + t.num <= |t.level.actors|
    ensures var actors, f, next := t.level.actors, t.level.filter, t.start + t.num;
            PartFor(target)(t) + (if t.level.target == target then SavedActors(actors[next..], f) else [])
            == if t.level.target == target then SavedActors(actors[t.start..], f) else []
  {
    hide SavedActors;
    var actors, next := t.level.actors, t.start + t.num;
    assert actors[t.start..] == actors[t.start..next] + actors[next..];
    SavedActorsSplit(actors[t.start..next], actors[next..], t.level.filter);
  }

  /** Whatever the chunk size, the chunks of a level contribute the records of its actors, in actor order. */
  lemma {:induction false} ChunksContributeTheLevel(p: PlannedLevel, index: nat, size: nat, stores: bool,
                                                    target: LevelRef)
    requires size > 0 && index <= |p.actors|
    ensures Contribution(ChunksFrom(p, index, size, stores), target)
            == if p.target == target then SavedActors(p.actors[index..], p.filter) else []
    decreases |p.actors| - index
  {
    hide SavedActors;
    if index == |p.actors| {
      assert p.actors[index..] == [];
      SavedNone(p.filter);
    } else {
      var t := ChunksFrom(p, index, size, stores)[0];
      JoinedFirst(t, ChunksFrom(p, index + t.num, size, stores), PartFor(target));
      ChunksContributeTheLevel(p, index + t.num, size, stores, target);
      PartThenRest(t, target);
    }
  }

  /** The chunks cover the level without gap or overlap, full but for the last, and only the first carries the game
      instance. */
  lemma {:induction false} ChunksTile(p: PlannedLevel, index: nat, size: nat, stores: bool)
    requires size > 0 && index <= |p.actors|
    ensures var ts := ChunksFrom(p, index, size, stores);
            && (forall i :: 0 <= i < |ts| ==>
                  ts[i].level == p && ts[i].start == index + i * size && 0 < ts[i].num <= size)
            && (forall i :: 0 <= i < |ts| - 1 ==> ts[i].num == size)
            && (ts != [] ==> ts[|ts| - 1].start + ts[|ts| - 1].num == |p.actors|)
            && (forall i :: 0 <= i < |ts| ==> (ts[i].storesGameInstance <==> index == 0 && stores && i == 0))
            && (ts == [] <==> index == |p.actors|)
    decreases |p.actors| - index
  {
    if index < |p.actors| {
      var ts := ChunksFrom(p, index, size, stores);
      var rest := ts[1..];
      var next := index + ts[0].num;
      ChunksTile(p, next, size, stores);
      assert rest == ChunksFrom(p, next, size, stores);
      forall i | 1 <= i < |ts|
        ensures ts[i].level == p && ts[i].start == index + i * size && 0 < ts[i].num <= size
      {
        assert ts[i] == rest[i - 1];
        OneMoreTimes(i - 1, size);
      }
      forall i | 0 <= i < |ts| - 1 ensures ts[i].num == size {
        assert i > 0 ==> ts[i] == rest[i - 1];
      }
    }
  }

  /** A level gets at most as many chunks as it was assigned tasks. */
  lemma ChunksAreFew(p: PlannedLevel, taskCount: nat, stores: bool)
    requires taskCount > 0
    ensures |ChunksFrom(p, 0, ChunkSize(|p.actors|, taskCount), stores)| <= taskCount
  {
    var n, size := |p.actors|, ChunkSize(|p.actors|, taskCount);
    var ts := ChunksFrom(p, 0, size, stores);
    ChunksTile(p, 0, size, stores);
    EnoughTasks(n, taskCount);
    if |ts| > taskCount {
      var last := |ts| - 1;
      assert ts[last].start == last * size < n;
      MoreTimes(last, taskCount, size);
    }
  }

  lemma MoreTimes(a: nat, b: nat, size: nat)
    requires a >= b
    ensures a * size >= b * size
  {
    assert a * size - b * size == (a - b) * size;
  }

  lemma OneMoreTimes(a: nat, size: nat)
    ensures (a + 1) * size == a * size + size
  {
  }

  lemma RoundedUpSuffices(n: nat, d: nat)
    requires d > 0
    ensures CeilDiv(n, d) * d >= n
  {
    var x := n + d - 1;
    assert x == d * (x / d) + x % d;
  }

  lemma EnoughTasks(actorCount: nat, taskCount: nat)
    requires taskCount > 0
    ensures taskCount * ChunkSize(actorCount, taskCount) >= actorCount
  {
    RoundedUpSuffices(actorCount, taskCount);
    MoreTimes(ChunkSize(actorCount, taskCount), CeilDiv(actorCount, taskCount), taskCount);
  }

  /** A chunk is the least that is large enough: for a task to be worth it, and for the tasks to cover the level. */
  lemma ChunkIsTheLeast(actorCount: nat, taskCount: nat, size: nat)
    requires taskCount > 0
    ensures size >= ChunkSize(actorCount, taskCount) <==> size >= 40 && taskCount * size >= actorCount
  {
    var balanced := CeilDiv(actorCount, taskCount);
    RoundedUpSuffices(actorCount, taskCount);
    var x := actorCount + taskCount - 1;
    assert x == taskCount * balanced + x % taskCount;
    if size >= balanced {
      MoreTimes(size, balanced, taskCount);
    } else {
      MoreTimes(balanced - 1, size, taskCount);
      assert (balanced - 1) * taskCount == balanced * taskCount - taskCount < actorCount;
    }
  }

  /** A level gets the whole number of tasks nearest to its share of the threads, and at least one. */
  lemma TasksAreTheNearestShare(workers: nat, streamingLevels: nat)
    ensures var tasks, levels := TasksPerLevel(workers, streamingLevels), streamingLevels + 1;
            && tasks >= 1
            && 2 * (workers + 1) < (2 * tasks + 1) * levels
            && (tasks > 1 ==> (2 * tasks - 1) * levels <= 2 * (workers + 1))
  {
    var levels := streamingLevels + 1;
    var x := 2 * (workers + 1) + levels;
    var q := x / (2 * levels);
    assert x == q * (2 * levels) + x % (2 * levels);
    assert q * (2 * levels) == 2 * q * levels;
    assert (2 * q + 1) * levels == 2 * q * levels + levels;
    assert (2 * q - 1) * levels == 2 * q * levels - levels;
  }

  /** All levels together get about as many chunks as there are threads. */
  lemma TasksOverAllLevels(workers: nat, streamingLevels: nat)
    ensures var levels := streamingLevels + 1;
            levels * TasksPerLevel(workers, streamingLevels)
            <= if levels > workers + 1 + levels / 2 then levels else workers + 1 + levels / 2
  {
    var levels := streamingLevels + 1;
    var x := 2 * (workers + 1) + levels;
    var q := x / (2 * levels);
    assert q * (2 * levels) <= x by {
      assert x == q * (2 * levels) + x % (2 * levels);
    }
    assert levels * q <= x / 2 by {
      assert q * (2 * levels) == 2 * (levels * q);
    }
  }

  /** The chunks of one level, and of a whole plan, level after level. */
  function LevelChunks(p: PlannedLevel, taskCount: nat, stores: bool): seq<ChunkTask>
    requires taskCount > 0
  {
    ChunksFrom(p, 0, ChunkSize(|p.actors|, taskCount), stores)
  }

  function AllChunks(plan: seq<PlannedLevel>, taskCount: nat, stores: bool): seq<ChunkTask>
    requires taskCount > 0
  {
    if plan == [] then []
    else AllChunks(plan[..|plan| - 1], taskCount, stores) + LevelChunks(plan[|plan| - 1], taskCount, stores)
  }

  lemma AllChunksOneMore(plan: seq<PlannedLevel>, p: PlannedLevel, taskCount: nat, stores: bool)
    requires taskCount > 0
    ensures AllChunks(plan + [p], taskCount, stores)
            == AllChunks(plan, taskCount, stores) + LevelChunks(p, taskCount, stores)
  {
    assert (plan + [p])[..|plan|] == plan;
  }

  lemma {:induction false} AllChunksAreFew(plan: seq<PlannedLevel>, taskCount: nat, stores: bool)
    requires taskCount > 0
    ensures |AllChunks(plan, taskCount, stores)| <= |plan| * taskCount
  {
    if plan != [] {
      AllChunksAreFew(plan[..|plan| - 1], taskCount, stores);
      ChunksAreFew(plan[|plan| - 1], taskCount, stores);
      OneMoreTimes(|plan| - 1, taskCount);
    }
  }

  lemma LevelChunksContribute(p: PlannedLevel, taskCount: nat, stores: bool, target: LevelRef)
    requires taskCount > 0
    ensures Contribution(LevelChunks(p, taskCount, stores), target)
            == if p.target == target then SavedActors(p.actors, p.filter) else []
  {
    ChunksContributeTheLevel(p, 0, ChunkSize(|p.actors|, taskCount), stores, target);
    assert p.actors[0..] == p.actors;
  }

  ghost predicate IsPlanned(plan: seq<PlannedLevel>, target: LevelRef) {
    exists a :: 0 <= a < |plan| && plan[a].target == target
  }

  ghost predicate DistinctTargets(plan: seq<PlannedLevel>) {
    forall a, b :: 0 <= a < b < |plan| ==> plan[a].target != plan[b].target
  }

  /** A record the plan does not fill receives nothing. */
  lemma {:induction false} UnplannedReceivesNothing(plan: seq<PlannedLevel>, taskCount: nat, stores: bool,
                                                    target: LevelRef)
    requires taskCount > 0 && !IsPlanned(plan, target)
    ensures Contribution(AllChunks(plan, taskCount, stores), target) == []
  {
    if plan != [] {
      var n := |plan| - 1;
      assert !IsPlanned(plan[..n], target);
      UnplannedReceivesNothing(plan[..n], taskCount, stores, target);
      ContributionSplit(AllChunks(plan[..n], taskCount, stores), LevelChunks(plan[n], taskCount, stores), target);
      LevelChunksContribute(plan[n], taskCount, stores, target);
    }
  }

  /** However it was cut into chunks, a planned record receives exactly its own level's records, in actor order. */
  lemma {:induction false} PlannedReceivesItsLevel(plan: seq<PlannedLevel>, taskCount: nat, stores: bool, a: nat)
    requires taskCount > 0 && DistinctTargets(plan) && a < |plan|
    ensures Contribution(AllChunks(plan, taskCount, stores), plan[a].target)
            == SavedActors(plan[a].actors, plan[a].filter)
  {
    var n := |plan| - 1;
    var target := plan[a].target;
    ContributionSplit(AllChunks(plan[..n], taskCount, stores), LevelChunks(plan[n], taskCount, stores), target);
    LevelChunksContribute(plan[n], taskCount, stores, target);
    if a == n {
      UnplannedReceivesNothing(plan[..n], taskCount, stores, target);
    } else {
      PlannedReceivesItsLevel(plan[..n], taskCount, stores, a);
    }
  }

  predicate Carries(ts: seq<ChunkTask>) {
    exists i :: 0 <= i < |ts| && ts[i].storesGameInstance
  }

  predicate SomeActors(plan: seq<PlannedLevel>) {
    exists a :: 0 <= a < |plan| && plan[a].actors != []
  }

  lemma CarriesSplit(a: seq<ChunkTask>, b: seq<ChunkTask>)
    ensures Carries(a + b) <==> Carries(a) || Carries(b)
  {
    if Carries(a) {
      var i :| 0 <= i < |a| && a[i].storesGameInstance;
      assert (a + b)[i].storesGameInstance;
    }
    if Carries(b) {
      var i :| 0 <= i < |b| && b[i].storesGameInstance;
      assert (a + b)[|a| + i].storesGameInstance;
    }
  }

  lemma SomeActorsSplit(plan: seq<PlannedLevel>)
    requires plan != []
    ensures SomeActors(plan) <==> SomeActors(plan[..|plan| - 1]) || plan[|plan| - 1].actors != []
  {
    var init := plan[..|plan| - 1];
    if SomeActors(init) {
      var a :| 0 <= a < |init| && init[a].actors != [];
      assert plan[a].actors != [];
    }
    if SomeActors(plan) {
      var a :| 0 <= a < |plan| && plan[a].actors != [];
      assert a < |init| ==> init[a].actors != [];
    }
  }

  /** The game instance travels with the first chunk of a level, so it needs a level with an actor entry. */
  lemma {:induction false} CarriedIffSomeActors(plan: seq<PlannedLevel>, taskCount: nat, stores: bool)
    requires taskCount > 0
    ensures Carries(AllChunks(plan, taskCount, stores)) <==> stores && SomeActors(plan)
  {
    if plan != [] {
      var n := |plan| - 1;
      var ts := LevelChunks(plan[n], taskCount, stores);
      CarriedIffSomeActors(plan[..n], taskCount, stores);
      CarriesSplit(AllChunks(plan[..n], taskCount, stores), ts);
      SomeActorsSplit(plan);
      ChunksTile(plan[n], 0, ChunkSize(|plan[n].actors|, taskCount), stores);
      assert ts != [] ==> (ts[0].storesGameInstance <==> stores);
    }
  }

  /** Chunks are scheduled unbegun, within their level, and only for planned levels. */
  lemma {:induction false} AllChunksAreFresh(plan: seq<PlannedLevel>, taskCount: nat, stores: bool)
    requires taskCount > 0
    ensures forall t :: t in AllChunks(plan, taskCount, stores) ==>
              !t.begun && t.done == 0 && t.records == [] && t.start + t.num <= |t.level.actors| && t.level in plan
  {
    if plan != [] {
      AllChunksAreFresh(plan[..|plan| - 1], taskCount, stores);
      LevelChunksAreFresh(plan[|plan| - 1], 0, ChunkSize(|plan[|plan| - 1].actors|, taskCount), stores);
    }
  }

  lemma {:induction false} LevelChunksAreFresh(p: PlannedLevel, index: nat, size: nat, stores: bool)
    requires size > 0
    ensures forall t :: t in ChunksFrom(p, index, size, stores) ==>
              !t.begun && t.done == 0 && t.records == [] && t.start + t.num <= |p.actors| && t.level == p
    decreases |p.actors| - index
  {
    if index < |p.actors| {
      var num := if |p.actors| - index < size then |p.actors| - index else size;
      LevelChunksAreFresh(p, index + num, size, stores);
    }
  }
}
