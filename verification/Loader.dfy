/** Loading a world: all levels are prepared, and then deserialized in one go or a few actors per frame. */
module Loading {
  import opened Engine
  import opened Actors
  import opened Levels
  import opened Saver
  import opened Restoring
  import opened Reconciling

  /** A loaded level, with the actor records and the filter found for it. A level without a level record has none. */
  datatype LevelEntry = LevelEntry(level: Level, records: Option<seq<ActorRecord>>, filter: LevelFilter)

  /** What loading a level once makes of its actors. */
  function Once(e: LevelEntry, entry: Option<Actor>): Option<Actor> {
    if e.records.Some? then RestoredEntry(entry, e.records.value, e.filter) else entry
  }

  function OnceAll(e: LevelEntry, actors: ActorArray): ActorArray {
    if e.records.Some? then RestoredLevel(actors, e.records.value, e.filter) else actors
  }

  ghost predicate DistinctLevels(entries: seq<LevelEntry>) {
    forall i, j :: 0 <= i < j < |entries| ==> entries[i].level != entries[j].level
  }

  ghost function LevelsOf(entries: seq<LevelEntry>): set<Level> {
    set i | 0 <= i < |entries| :: entries[i].level
  }

  /** Levels as they are, entry by entry. */
  ghost function ActorsOf(entries: seq<LevelEntry>): (actors: seq<ActorArray>)
    reads LevelsOf(entries)
    ensures |actors| == |entries| && forall k :: 0 <= k < |entries| ==> actors[k] == entries[k].level.actors
  {
    seq(|entries|, k requires 0 <= k < |entries| reads LevelsOf(entries) => entries[k].level.actors)
  }

  ghost predicate AllValid(entries: seq<LevelEntry>)
    reads LevelsOf(entries)
  {
    forall i :: 0 <= i < |entries| ==> entries[i].level.Valid()
  }

  /** Deserializes all savable actors of a level. */
  method DeserializeLevelSync(e: LevelEntry)
    modifies e.level`actors
    ensures e.level.actors == OnceAll(e, old(e.level.actors))
  {
    if e.records.None? {
      return;
    }
    var level, records := e.level, e.records.value;
    var count := |level.actors|;
    for i := 0 to count
      invariant |level.actors| == count == |old(level.actors)|
      invariant forall k :: 0 <= k < i ==> level.actors[k] == RestoredEntry(old(level.actors)[k], records, e.filter)
      invariant forall k :: i <= k < count ==> level.actors[k] == old(level.actors)[k]
    {
      if level.actors[i].Some? && e.filter.ShouldSave(level.actors[i].value) {
        var actor := DeserializeLevelActor(level.actors[i].value, records, e.filter);
        level.actors := level.actors[i := Some(actor)];
      }
    }
    assert level.actors == OnceAll(e, old(level.actors));
  }

  /** Deserializes the world in one go. */
  method DeserializeSync(entries: seq<LevelEntry>)
    requires DistinctLevels(entries)
    modifies LevelsOf(entries)
    ensures forall k :: 0 <= k < |entries| ==>
              entries[k].level.actors == OnceAll(entries[k], old(entries[k].level.actors))
  {
    hide OnceAll;
    for i := 0 to |entries|
      invariant forall k :: 0 <= k < i ==> entries[k].level.actors == OnceAll(entries[k], old(entries[k].level.actors))
      invariant forall k :: i <= k < |entries| ==> entries[k].level.actors == old(entries[k].level.actors)
    {
      assert entries[i].level in LevelsOf(entries);
      DeserializeLevelSync(entries[i]);
    }
  }

  /** The live entries of an actor array, in order. */
  function LiveOf(actors: ActorArray): (live: seq<nat>)
    ensures IsLiveList(live, actors) && |live| <= |actors|
  {
    if actors == [] then []
    else
      var n := |actors| - 1;
      LiveOf(actors[..n]) + if actors[n].Some? then [n] else []
  }

  ghost predicate IsLiveList(live: seq<nat>, actors: ActorArray) {
    && (forall p :: 0 <= p < |live| ==> live[p] < |actors| && actors[live[p]].Some?)
    && (forall p, q :: 0 <= p < q < |live| ==> live[p] < live[q])
    && (forall i :: 0 <= i < |actors| && actors[i].Some? ==> i in live)
  }

  method LiveEntries(actors: ActorArray) returns (live: seq<nat>)
    ensures live == LiveOf(actors)
  {
    live := [];
    for i := 0 to |actors|
      invariant live == LiveOf(actors[..i])
    {
      assert actors[..i + 1][..i] == actors[..i];
      if actors[i].Some? {
        live := live + [i];
      }
    }
    assert actors[..|actors|] == actors;
  }

  /** The first entry the loop has not passed yet. */
  function Boundary(live: seq<nat>, index: nat, count: nat): nat {
    if index < |live| then live[index] else count
  }

  /** Nothing lives between two consecutive entries of the list. */
  lemma BoundaryNext(actors: ActorArray, index: nat)
    requires index < |LiveOf(actors)|
    ensures var live, boundary := LiveOf(actors), Boundary(LiveOf(actors), index + 1, |actors|);
            && live[index] < boundary <= |actors|
            && forall i :: live[index] < i < boundary ==> actors[i].None?
  {
    hide LiveOf;
    var live := LiveOf(actors);
    forall i | live[index] < i < Boundary(live, index + 1, |actors|)
      ensures i !in live
    {
    }
  }

  lemma BoundaryFirst(actors: ActorArray)
    ensures var boundary := Boundary(LiveOf(actors), 0, |actors|);
            boundary <= |actors| && forall i :: 0 <= i < boundary ==> actors[i].None?
  {
    hide LiveOf;
    var live := LiveOf(actors);
    forall i | 0 <= i < Boundary(live, 0, |actors|)
      ensures i !in live
    {
    }
  }

  /** An entry after a frame-split load: loaded twice if some frame ran out of time on it, and else once. */
  function Loaded(e: LevelEntry, entry: Option<Actor>, redone: bool): Option<Actor> {
    if redone then Once(e, Once(e, entry)) else Once(e, entry)
  }

  lemma LoadedAgain(e: LevelEntry, entry: Option<Actor>)
    ensures Once(e, Once(e, Once(e, entry))) == Once(e, Once(e, entry))
    ensures Once(e, entry).Some? <==> entry.Some?
    ensures entry.Some? ==> e.filter.ShouldSave(Once(e, entry).value) == e.filter.ShouldSave(entry.value)
  {
    if e.records.Some? {
      RestoringAnEntry(entry, e.records.value, e.filter);
    }
  }

  /** The entries below `boundary` are loaded, the one there has been tried if it is redone, the rest are as they
      were. */
  ghost predicate PartlyLoaded(e: LevelEntry, was: ActorArray, now: ActorArray, boundary: nat, redone: set<nat>) {
    && |now| == |was| && boundary <= |was|
    && (forall i :: 0 <= i < boundary ==> now[i] == Loaded(e, was[i], i in redone))
    && (boundary < |was| ==>
          if boundary in redone
          then now[boundary] == Once(e, was[boundary]) || now[boundary] == Once(e, Once(e, was[boundary]))
          else now[boundary] == was[boundary])
    && (forall i :: boundary < i < |was| ==> now[i] == was[i] && i !in redone)
  }

  /** Loading the entry at the boundary leaves it as it will end. */
  lemma LoadBoundary(e: LevelEntry, was: ActorArray, now: ActorArray, boundary: nat, redone: set<nat>)
    requires PartlyLoaded(e, was, now, boundary, redone) && boundary < |was|
    ensures |now| == |was| && Once(e, now[boundary]) == Loaded(e, was[boundary], boundary in redone)
    ensures now[boundary].Some? <==> was[boundary].Some?
    ensures was[boundary].Some? ==>
              e.filter.ShouldSave(now[boundary].value) == e.filter.ShouldSave(was[boundary].value)
    ensures PartlyLoaded(e, was, now[boundary := Once(e, now[boundary])], boundary, redone + {boundary})
  {
    LoadedAgain(e, was[boundary]);
    LoadedAgain(e, Once(e, was[boundary]));
  }

  /** Moving on past the loaded entry at the boundary and empty ones after it. */
  lemma PassBoundary(e: LevelEntry, was: ActorArray, now: ActorArray, boundary: nat, next: nat, redone: set<nat>)
    requires PartlyLoaded(e, was, now, boundary, redone) && boundary < |was|
    requires boundary < next <= |was| && forall i :: boundary < i < next ==> was[i].None?
    ensures PartlyLoaded(e, was, now[boundary := Once(e, now[boundary])], next, redone)
  {
    LoadBoundary(e, was, now, boundary, redone);
    assert Once(e, None) == None;
  }

  datatype LoadState = NotStarted | Deserializing | Finished(success: bool)

  // Where a frame stops

  /** What happens when time is asked for: a frame starts at an actor of a level, a level starts, or an actor is done.
      Within a load each of these happens at most once. */
  datatype Moment =
    | FrameStarted(frame: nat, level: nat, actor: nat)
    | LevelStarted(frame: nat, level: nat)
    | ActorDone(frame: nat, level: nat, actor: nat)

  /** The time of every moment; any function is a clock. */
  type Clock = Moment -> real

  datatype Stop = Late(level: nat, actor: nat) | NoRecord(level: nat) | Through

  /** A frame-split load: the clock, the levels as they were when it began, and the time a frame may take. */
  datatype Run = Run(at: Clock, entries: seq<LevelEntry>, initial: seq<ActorArray>, budget: real)
  {
    function Live(k: nat): seq<nat> {
      if k < |initial| then LiveOf(initial[k]) else []
    }

    /** Whether the `p`th live actor of a level is one to load. */
    predicate IsSavable(k: nat, p: nat)
      requires k < |entries| && k < |initial| && p < |Live(k)|
    {
      entries[k].filter.ShouldSave(initial[k][Live(k)[p]].value)
    }

    predicate IsLate(f: nat, k: nat, p: nat, start: real)
      requires k < |entries| && k < |initial| && p < |Live(k)|
    {
      IsSavable(k, p) && at(ActorDone(f, k, p)) - start >= budget
    }

    /** When the loop over a level starts, if an earlier level of the same frame led to it. */
    function LevelStart(f: nat, k: nat): real {
      var started := at(LevelStarted(f, k));
      if started > 0.0 then started else at(FrameStarted(f, k, 0))
    }

    /** Where frame `f` ends if it goes on from actor `p` of level `k`, in a loop that started at `start`: at the first
        actor that is late. */
    function StopFrom(f: nat, k: nat, p: nat, start: real): Stop
      requires |entries| == |initial|
      decreases |entries| - k, |Live(k)| - p
    {
      if k >= |entries| then Through
      else if entries[k].records.None? then NoRecord(k)
      else if p >= |Live(k)| then StopFrom(f, k + 1, 0, LevelStart(f, k + 1))
      else if IsLate(f, k, p, start) then Late(k, p)
      else StopFrom(f, k, p + 1, start)
    }

    /** How far the load has to go from an actor of level `k` on. */
    function LeftAt(k: nat, p: nat): int {
      LeftFrom(initial, k + 1) + |Live(k)| + 1 - p
    }
  }

  /** How far a load has to go from level `k` on: past every live actor, and past the end of every level. */
  function LeftFrom(initial: seq<ActorArray>, k: nat): nat
    decreases |initial| - k
  {
    if k >= |initial| then 0 else |LiveOf(initial[k])| + 1 + LeftFrom(initial, k + 1)
  }

  /** In frame `f`, whatever actor the frame starts with is done in time. */
  ghost predicate FirstActorFits(at: Clock, budget: real, f: nat) {
    forall k: nat, p: nat :: at(ActorDone(f, k, p)) - at(FrameStarted(f, k, p)) < budget
  }

  /** How many of the `n` frames after `f` have a first actor that is done in time. */
  ghost function FittingFrames(at: Clock, budget: real, f: nat, n: nat): nat {
    if n == 0 then 0
    else FittingFrames(at, budget, f, n - 1) + if FirstActorFits(at, budget, f + n) then 1 else 0
  }

  /** One step further there is one step less left. */
  lemma LeftNext(r: Run, k: nat, p: nat)
    requires |r.entries| == |r.initial| && k < |r.entries| && p <= |r.Live(k)|
    ensures r.LeftAt(k, p + 1) == r.LeftAt(k, p) - 1
    ensures p == |r.Live(k)| && k + 1 < |r.entries| ==> r.LeftAt(k + 1, 0) == r.LeftAt(k, p) - 1
  {
    hide LiveOf;
  }

  /** A frame never goes back, and stays where it was only if its first actor is late. */
  lemma {:induction false} StopIsLater(r: Run, f: nat, k: nat, p: nat, start: real)
    requires |r.entries| == |r.initial| && k < |r.entries| && p <= |r.Live(k)|
    ensures var stop := r.StopFrom(f, k, p, start);
            stop.Late? ==>
              && stop.level < |r.entries| && stop.actor < |r.Live(stop.level)| && r.IsSavable(stop.level, stop.actor)
              && r.LeftAt(stop.level, stop.actor) <= r.LeftAt(k, p)
              && ((p < |r.Live(k)| && r.IsLate(f, k, p, start)) || r.LeftAt(stop.level, stop.actor) < r.LeftAt(k, p))
    decreases |r.entries| - k, |r.Live(k)| - p
  {
    hide LiveOf, Run.Live, Run.LeftAt, LeftFrom, Run.IsSavable;
    LeftNext(r, k, p);
    if r.entries[k].records.Some? {
      if p < |r.Live(k)| {
        if !r.IsLate(f, k, p, start) {
          StopIsLater(r, f, k, p + 1, start);
        }
      } else if k + 1 < |r.entries| {
        StopIsLater(r, f, k + 1, 0, r.LevelStart(f, k + 1));
      }
    }
  }

  lemma {:induction false} StopIsNotBefore(r: Run, f: nat, k: nat, p: nat, start: real)
    requires |r.entries| == |r.initial|
    ensures r.StopFrom(f, k, p, start).Late? ==> r.StopFrom(f, k, p, start).level >= k
    decreases |r.entries| - k, |r.Live(k)| - p
  {
    hide LiveOf, Run.Live, Run.IsLate, Run.LevelStart;
    if k < |r.entries| && r.entries[k].records.Some? {
      if p >= |r.Live(k)| {
        StopIsNotBefore(r, f, k + 1, 0, r.LevelStart(f, k + 1));
      } else if !r.IsLate(f, k, p, start) {
        StopIsNotBefore(r, f, k, p + 1, start);
      }
    }
  }

  lemma {:induction false} FirstLateStops(r: Run, f: nat, k: nat, p: nat, start: real, s: nat)
    requires |r.entries| == |r.initial| && k < |r.entries| && r.entries[k].records.Some? && p <= s < |r.Live(k)|
    ensures r.StopFrom(f, k, p, start) == Late(k, s)
            <==> r.IsLate(f, k, s, start) && forall q :: p <= q < s ==> !r.IsLate(f, k, q, start)
    decreases s - p
  {
    hide LiveOf, Run.Live, Run.IsLate;
    if p < s {
      if r.IsLate(f, k, p, start) {
        assert r.StopFrom(f, k, p, start) == Late(k, p);
      } else {
        assert r.StopFrom(f, k, p, start) == r.StopFrom(f, k, p + 1, start);
        FirstLateStops(r, f, k, p + 1, start, s);
      }
    } else if !r.IsLate(f, k, s, start) {
      GoesPast(r, f, k, s, start);
    }
  }

  lemma LateMeans(r: Run, f: nat, k: nat, q: nat, start: real)
    requires |r.entries| == |r.initial| && k < |r.entries| && q < |r.Live(k)|
    ensures r.IsLate(f, k, q, start)
            <==> && r.entries[k].filter.ShouldSave(r.initial[k][r.Live(k)[q]].value)
                 && r.at(ActorDone(f, k, q)) - start >= r.budget
  {
    hide LiveOf, LevelFilter.ShouldSave;
  }

  /** A frame stops at a live actor of the level it is at if and only if that is the first one, among those to load,
      done when the time a frame may take has passed since its loop began. If there is none, it goes on with the next
      level, whose loop begins when the level does, or with the frame if the time of that does not count as one. */
  lemma StopsAtTheFirstOverBudget(r: Run, f: nat, k: nat, p: nat, start: real, s: nat)
    requires |r.entries| == |r.initial| && k < |r.entries| && r.entries[k].records.Some? && p <= s < |r.Live(k)|
    ensures r.StopFrom(f, k, p, start) == Late(k, s)
            <==> && r.entries[k].filter.ShouldSave(r.initial[k][r.Live(k)[s]].value)
                 && r.at(ActorDone(f, k, s)) - start >= r.budget
                 && forall q :: p <= q < s && r.entries[k].filter.ShouldSave(r.initial[k][r.Live(k)[q]].value)
                            ==> r.at(ActorDone(f, k, q)) - start < r.budget
  {
    hide Run.StopFrom, LiveOf, LevelFilter.ShouldSave, Run.IsLate;
    FirstLateStops(r, f, k, p, start, s);
    LateMeans(r, f, k, s, start);
    forall q | p <= q < s
      ensures r.IsLate(f, k, q, start)
              <==> && r.entries[k].filter.ShouldSave(r.initial[k][r.Live(k)[q]].value)
                   && r.at(ActorDone(f, k, q)) - start >= r.budget
    {
      LateMeans(r, f, k, q, start);
    }
  }

  /** An actor that is not late is not where the frame stops. */
  lemma GoesPast(r: Run, f: nat, k: nat, p: nat, start: real)
    requires |r.entries| == |r.initial| && k < |r.entries| && r.entries[k].records.Some? && p < |r.Live(k)|
    requires !r.IsLate(f, k, p, start)
    ensures r.StopFrom(f, k, p, start) != Late(k, p)
  {
    hide LiveOf;
    var stop := r.StopFrom(f, k, p + 1, start);
    assert r.StopFrom(f, k, p, start) == stop;
    if stop == Late(k, p) {
      StopIsFurther(r, f, k, p + 1, start);
    }
  }

  /** Within its level a frame does not stop before where it is. */
  lemma {:induction false} StopIsFurther(r: Run, f: nat, k: nat, p: nat, start: real)
    requires |r.entries| == |r.initial|
    ensures var stop := r.StopFrom(f, k, p, start); stop.Late? && stop.level == k ==> stop.actor >= p
    decreases |r.Live(k)| - p
  {
    hide LiveOf, Run.Live, Run.IsLate, Run.LevelStart;
    if k < |r.entries| && r.entries[k].records.Some? {
      if p >= |r.Live(k)| {
        StopIsNotBefore(r, f, k + 1, 0, r.LevelStart(f, k + 1));
      } else if !r.IsLate(f, k, p, start) {
        StopIsFurther(r, f, k, p + 1, start);
      }
    }
  }

  /** With time left for all of a level, the frame goes on with the next one. */
  lemma {:induction false} GoesOnWithinBudget(r: Run, f: nat, k: nat, p: nat, start: real)
    requires |r.entries| == |r.initial| && k < |r.entries| && r.entries[k].records.Some? && p <= |r.Live(k)|
    requires forall q :: p <= q < |r.Live(k)| && r.entries[k].filter.ShouldSave(r.initial[k][r.Live(k)[q]].value)
                         ==> r.at(ActorDone(f, k, q)) - start < r.budget
    ensures var now := r.at(LevelStarted(f, k + 1));
            r.StopFrom(f, k, p, start)
            == r.StopFrom(f, k + 1, 0, if now > 0.0 then now else r.at(FrameStarted(f, k + 1, 0)))
    decreases |r.Live(k)| - p
  {
    hide LiveOf;
    if p < |r.Live(k)| {
      assert r.StopFrom(f, k, p, start) == r.StopFrom(f, k, p + 1, start);
      GoesOnWithinBudget(r, f, k, p + 1, start);
    }
  }

  /** So no frame goes past an actor to load that is done too late. */
  lemma {:induction false} NeverPastTheBudget(r: Run, f: nat, k: nat, p: nat, start: real, q: nat)
    requires |r.entries| == |r.initial| && k < |r.entries| && r.entries[k].records.Some? && p <= q < |r.Live(k)|
    requires r.entries[k].filter.ShouldSave(r.initial[k][r.Live(k)[q]].value)
    requires r.at(ActorDone(f, k, q)) - start >= r.budget
    ensures var stop := r.StopFrom(f, k, p, start); stop.Late? && stop.level == k && stop.actor <= q
    decreases q - p
  {
    hide LiveOf, LevelFilter.ShouldSave, Run.IsLate;
    LateMeans(r, f, k, q, start);
    if p < q && !r.IsLate(f, k, p, start) {
      assert r.StopFrom(f, k, p, start) == r.StopFrom(f, k, p + 1, start);
      NeverPastTheBudget(r, f, k, p + 1, start, q);
    }
  }

  /** USlotDataTask_Loader's frame-split deserialization: it can stop after any actor and resume in a later frame. */
  class FrameLoader {
    const entries: seq<LevelEntry>
    const at: Clock
    const maxFrameMs: real

    var frame: nat
    var state: LoadState
    var currentLevel: nat
    var currentActorIndex: nat
    var currentLevelActors: seq<nat>

    /** The actor arrays as they were when loading began, and the entries some frame ran out of time on. */
    ghost var initial: seq<ActorArray>
    ghost var redone: seq<set<nat>>

    constructor (entries: seq<LevelEntry>, at: Clock, maxFrameMs: real)
      ensures this.entries == entries && this.at == at && this.maxFrameMs == maxFrameMs
      ensures state == NotStarted && frame == 0
    {
      this.entries, this.at, this.maxFrameMs := entries, at, maxFrameMs;
      frame, state, currentLevel, currentActorIndex, currentLevelActors := 0, NotStarted, 0, 0, [];
    }

    ghost function Spec(): Run
      reads this
    {
      Run(at, entries, initial, maxFrameMs)
    }

    ghost predicate Part(k: nat, boundary: nat)
      requires k < |entries| == |initial| == |redone|
      reads this, LevelsOf(entries)
    {
      PartlyLoaded(entries[k], initial[k], entries[k].level.actors, boundary, redone[k])
    }

    /** The first `n` levels are loaded, and those from `m` on have not been touched. */
    ghost predicate Around(n: nat, m: nat)
      requires |entries| == |initial| == |redone|
      reads this, LevelsOf(entries)
    {
      && (forall k :: 0 <= k < n && k < |entries| ==> Part(k, |initial[k]|) && entries[k].records.Some?)
      && (forall k :: m <= k < |entries| ==> entries[k].level.actors == initial[k] && redone[k] == {})
    }

    ghost predicate Shape()
      reads this
    {
      DistinctLevels(entries) && |entries| == |initial| == |redone|
    }

    /** In the middle of the current level. */
    ghost predicate Loading()
      reads this, LevelsOf(entries)
    {
      && Shape() && state == Deserializing
      && currentLevel < |entries| && entries[currentLevel].records.Some?
      && currentLevelActors == LiveOf(initial[currentLevel]) && currentActorIndex <= |currentLevelActors|
      && Around(currentLevel, currentLevel + 1)
      && Part(currentLevel, Boundary(currentLevelActors, currentActorIndex, |initial[currentLevel]|))
    }

    /** What holds between frames. A load fails at the first level without records, having loaded those before it. */
    ghost predicate Valid()
      reads this, LevelsOf(entries)
    {
      && Shape()
      && match state
         case NotStarted => true
         case Deserializing => Loading()
         case Finished(true) => Around(|entries|, |entries|)
         case Finished(false) =>
           currentLevel < |entries| && entries[currentLevel].records.None? && Around(currentLevel, currentLevel)
    }

    /** The load has come to a stop; the actor it is late on will be redone. */
    ghost predicate Reached(stop: Stop)
      requires |initial| == |redone|
      reads this
    {
      match stop
      case Late(k, p) =>
        && state == Deserializing && currentLevel == k && currentActorIndex == p
        && k < |initial| && p < |LiveOf(initial[k])| && LiveOf(initial[k])[p] in redone[k]
      case NoRecord(k) => state == Finished(false) && currentLevel == k
      case Through => state == Finished(true)
    }

    /** How far the load still has to go. */
    ghost function Left(): int
      reads this
    {
      if state == Deserializing then Spec().LeftAt(currentLevel, currentActorIndex) else 0
    }

    /** The same load, further on: what has been redone stays redone. */
    twostate predicate GoesOn()
      reads this
    {
      && initial == old(initial) && |redone| == |old(redone)|
      && forall k :: 0 <= k < |redone| ==> old(redone)[k] <= redone[k]
    }

    /** Deserializes an entry of a level that is a savable actor, and says whether it was. */
    static method LoadEntry(e: LevelEntry, i: nat) returns (wasActor: bool)
      requires e.records.Some? && i < |e.level.actors|
      modifies e.level`actors
      ensures e.level.actors == old(e.level.actors)[i := Once(e, old(e.level.actors)[i])]
      ensures var entry := old(e.level.actors)[i]; wasActor == (entry.Some? && e.filter.ShouldSave(entry.value))
    {
      var entry := e.level.actors[i];
      wasActor := entry.Some? && e.filter.ShouldSave(entry.value);
      if wasActor {
        var actor := DeserializeLevelActor(entry.value, e.records.value, e.filter);
        e.level.actors := e.level.actors[i := Some(actor)];
      }
      assert e.level.actors == old(e.level.actors)[i := Once(e, entry)];
    }

    /** Deserializes the current actor and checks the time; out of time, it stays the current actor. */
    method LoadCurrent(startMs: real) returns (late: bool)
      requires Loading() && currentActorIndex < |currentLevelActors|
      modifies this`currentActorIndex, this`redone, entries[currentLevel].level`actors
      ensures Loading() && GoesOn()
      ensures late == old(Spec().IsLate(frame, currentLevel, currentActorIndex, startMs))
      ensures currentActorIndex == old(currentActorIndex) + if late then 0 else 1
      ensures late ==> currentLevelActors[currentActorIndex] in redone[currentLevel]
    {
      hide PartlyLoaded, Once, LiveOf;
      var e, i := entries[currentLevel], currentLevelActors[currentActorIndex];
      ghost var was, before, redoneHere := initial[currentLevel], e.level.actors, redone[currentLevel];
      ghost var next := Boundary(currentLevelActors, currentActorIndex + 1, |was|);
      LoadBoundary(e, was, before, i, redoneHere);
      BoundaryNext(was, currentActorIndex);
      PassBoundary(e, was, before, i, next, redoneHere);
      late := false;
      var wasActor := LoadEntry(e, i);
      if wasActor {
        var currentMs := at(ActorDone(frame, currentLevel, currentActorIndex));
        if currentMs - startMs >= maxFrameMs {
          redone := redone[currentLevel := redoneHere + {i}];
          late := true;
          return;
        }
      }
      currentActorIndex := currentActorIndex + 1;
    }

    /** The loop over the current level's actors, until its end or out of time. */
    method FinishLevel(startMs: real) returns (late: bool)
      requires Loading()
      modifies this`currentActorIndex, this`redone, entries[currentLevel].level`actors
      ensures Loading() && GoesOn()
      ensures Spec().StopFrom(frame, currentLevel, currentActorIndex, startMs)
              == old(Spec().StopFrom(frame, currentLevel, currentActorIndex, startMs))
      ensures !late ==> currentActorIndex == |currentLevelActors|
      ensures late ==> currentActorIndex < |currentLevelActors|
                       && currentLevelActors[currentActorIndex] in redone[currentLevel]
                       && Spec().IsLate(frame, currentLevel, currentActorIndex, startMs)
    {
      hide LiveOf, PartlyLoaded, Run.IsSavable, FrameLoader.Around;
      late := false;
      while currentActorIndex < |currentLevelActors|
        invariant Loading() && GoesOn()
        invariant Spec().StopFrom(frame, currentLevel, currentActorIndex, startMs)
                  == old(Spec().StopFrom(frame, currentLevel, currentActorIndex, startMs))
        decreases |currentLevelActors| - currentActorIndex
      {
        late := LoadCurrent(startMs);
        if late {
          return;
        }
      }
    }

    /** Goes on with the current level, and with the levels after it, until done or out of time. */
    method DeserializeASyncLoop(startMs: real)
      requires Loading()
      modifies this`state, this`currentLevel, this`currentActorIndex, this`currentLevelActors, this`redone,
               LevelsOf(entries)
      ensures Valid() && state != NotStarted && GoesOn()
      ensures var start := if startMs > 0.0 then startMs
              else at(FrameStarted(frame, old(currentLevel), old(currentActorIndex)));
              Reached(old(Spec()).StopFrom(frame, old(currentLevel), old(currentActorIndex), start))
      decreases |entries| - currentLevel, 1
    {
      hide PartlyLoaded, OnceAll, LiveOf;
      var start := if startMs <= 0.0 then at(FrameStarted(frame, currentLevel, currentActorIndex)) else startMs;
      assert entries[currentLevel].level in LevelsOf(entries);
      var late := FinishLevel(start);
      if !late {
        NextLevel();
      }
    }

    /** The iteration of a level has ended: the next one follows within the same frame. */
    method NextLevel()
      requires Loading() && currentActorIndex == |currentLevelActors|
      modifies this`state, this`currentLevel, this`currentActorIndex, this`currentLevelActors, this`redone,
               LevelsOf(entries)
      ensures Valid() && state != NotStarted && GoesOn()
      ensures var next := old(currentLevel) + 1;
              Reached(old(Spec()).StopFrom(frame, next, 0, old(Spec()).LevelStart(frame, next)))
      decreases |entries| - currentLevel, 0
    {
      hide PartlyLoaded, OnceAll, LiveOf;
      var next := currentLevel + 1;
      if next < |entries| {
        DeserializeLevelASync(next);
        return;
      }
      state := Finished(true);
    }

    /** Makes a level with a record the current one, on a copy of its list of live actors. */
    method BeginLevel(k: nat)
      requires Shape() && k < |entries| && Around(k, k) && entries[k].records.Some?
      modifies this`state, this`currentLevel, this`currentActorIndex, this`currentLevelActors
      ensures Loading() && currentLevel == k && currentActorIndex == 0
    {
      hide LiveOf;
      state, currentLevel, currentActorIndex := Deserializing, k, 0;
      currentLevelActors := LiveEntries(entries[k].level.actors);
      BoundaryFirst(initial[k]);
    }

    /** Starts with a level; a level without a record ends the load. */
    method DeserializeLevelASync(k: nat)
      requires Shape() && k < |entries| && Around(k, k)
      modifies this`state, this`currentLevel, this`currentActorIndex, this`currentLevelActors, this`redone,
               LevelsOf(entries)
      ensures Valid() && state != NotStarted && GoesOn()
      ensures Reached(old(Spec()).StopFrom(frame, k, 0, old(Spec()).LevelStart(frame, k)))
      decreases |entries| - k, 2
    {
      hide PartlyLoaded, OnceAll, LiveOf;
      if entries[k].records.None? {
        state, currentLevel := Finished(false), k;
        return;
      }
      var startMs := at(LevelStarted(frame, k));
      BeginLevel(k);
      DeserializeASyncLoop(startMs);
    }

    /** Starts loading prepared levels. */
    method DeserializeASync()
      requires state == NotStarted && DistinctLevels(entries) && entries != []
      modifies this, LevelsOf(entries)
      ensures Valid() && state != NotStarted && frame == old(frame)
      ensures initial == old(ActorsOf(entries))
      ensures Reached(Spec().StopFrom(frame, 0, 0, Spec().LevelStart(frame, 0)))
    {
      initial := ActorsOf(entries);
      redone := seq(|entries|, _ => {});
      DeserializeLevelASync(0);
    }

    /** One frame: the load goes on from where it was to where the clock stops it. */
    method Tick()
      requires Valid() && state != NotStarted
      modifies this, LevelsOf(entries)
      ensures Valid() && state != NotStarted && GoesOn() && frame == old(frame) + 1
      ensures if old(state) != Deserializing
              then unchanged(`state, `currentLevel, `currentActorIndex, `currentLevelActors, `redone)
                   && unchanged(LevelsOf(entries))
              else Reached(old(Spec()).StopFrom(frame, old(currentLevel), old(currentActorIndex),
                                                at(FrameStarted(frame, old(currentLevel), old(currentActorIndex)))))
      ensures old(state) == Deserializing ==> KeepsToBudget()
    {
      hide LiveOf, PartlyLoaded, Run.StopFrom;
      frame := frame + 1;
      if state == Deserializing {
        FrameKeepsToBudget();
        DeserializeASyncLoop(0.0);
      }
    }

    /** The frame has not gone past an actor of its level that is to be loaded and was done too late: it is at that
        actor, or at one before it. */
    twostate predicate KeepsToBudget()
      requires old(currentLevel) < |entries| && old(currentLevel) < |old(initial)|
      requires old(currentLevelActors) == LiveOf(old(initial)[old(currentLevel)])
      reads this
    {
      var k, live := old(currentLevel), old(currentLevelActors);
      forall q ::
        && old(currentActorIndex) <= q < |live| && entries[k].filter.ShouldSave(old(initial)[k][live[q]].value)
        && at(ActorDone(frame, k, q)) - at(FrameStarted(frame, k, old(currentActorIndex))) >= maxFrameMs
        ==> state == Deserializing && currentLevel == k && currentActorIndex <= q
    }

    /** Where the clock stops the frame is not past any such actor. */
    lemma FrameKeepsToBudget()
      requires Loading()
      ensures var start := at(FrameStarted(frame, currentLevel, currentActorIndex));
              var stop := Spec().StopFrom(frame, currentLevel, currentActorIndex, start);
              forall q ::
                && currentActorIndex <= q < |currentLevelActors|
                && entries[currentLevel].filter.ShouldSave(initial[currentLevel][currentLevelActors[q]].value)
                && at(ActorDone(frame, currentLevel, q)) - start >= maxFrameMs
                ==> stop.Late? && stop.level == currentLevel && stop.actor <= q
    {
      hide LiveOf, Run.StopFrom, PartlyLoaded;
      var start := at(FrameStarted(frame, currentLevel, currentActorIndex));
      forall q |
        && currentActorIndex <= q < |currentLevelActors|
        && entries[currentLevel].filter.ShouldSave(initial[currentLevel][currentLevelActors[q]].value)
        && at(ActorDone(frame, currentLevel, q)) - start >= maxFrameMs
        ensures var stop := Spec().StopFrom(frame, currentLevel, currentActorIndex, start);
                stop.Late? && stop.level == currentLevel && stop.actor <= q
      {
        NeverPastTheBudget(Spec(), frame, currentLevel, currentActorIndex, start, q);
      }
    }

    lemma SomethingIsLeft()
      requires Valid() && state == Deserializing
      ensures Left() > 0
    {
      hide LiveOf;
    }

    /** A frame, and how far it gets: ahead if its first actor is done in time, and never back. */
    method RunFrame()
      requires Valid() && state != NotStarted
      modifies this, LevelsOf(entries)
      ensures Valid() && state != NotStarted && GoesOn() && frame == old(frame) + 1
      ensures state == Deserializing ==>
                old(state) == Deserializing
                  && Left() + (if FirstActorFits(at, maxFrameMs, frame) then 1 else 0) <= old(Left())
    {
      hide PartlyLoaded, LiveOf;
      if state == Deserializing {
        StopIsLater(Spec(), frame + 1, currentLevel, currentActorIndex,
                    at(FrameStarted(frame + 1, currentLevel, currentActorIndex)));
      }
      Tick();
    }

    /** Any number of frames: those whose first actor is done in time get ahead, so enough of them finish the load. */
    method RunFrames(frames: nat)
      requires Valid() && state != NotStarted
      modifies this, LevelsOf(entries)
      ensures Valid() && state != NotStarted && GoesOn() && frame == old(frame) + frames
      ensures FittingFrames(at, maxFrameMs, old(frame), frames) >= old(Left()) ==> state != Deserializing
    {
      hide FrameLoader.Valid, FrameLoader.Left, FirstActorFits;
      for i := 0 to frames
        invariant Valid() && state != NotStarted && GoesOn() && frame == old(frame) + i
        invariant state == Deserializing ==> Left() + FittingFrames(at, maxFrameMs, old(frame), i) <= old(Left())
      {
        RunFrame();
      }
      if state == Deserializing {
        SomethingIsLeft();
      }
    }

    /** A finished load has loaded every level as the synchronous load would, but for the actors redone. */
    lemma FinishedMeansLoaded(k: nat)
      requires Valid() && state == Finished(true) && k < |entries|
      ensures entries[k].records.Some?
      ensures entries[k].level.actors == OnceAll(entries[k], initial[k])
              <==> OnlyRepeatableRedone(entries[k], initial[k], redone[k])
    {
      assert Part(k, |initial[k]|);
      LoadedMeansSync(entries[k], initial[k], entries[k].level.actors, redone[k]);
    }

    /** Whatever the clock did, a finished load of repeatable actors is the synchronous load. */
    lemma RepeatableLoadsAlike(k: nat)
      requires Valid() && state == Finished(true) && k < |entries| && AllRepeatable(entries[k], initial[k])
      ensures entries[k].level.actors == OnceAll(entries[k], initial[k])
    {
      FinishedMeansLoaded(k);
    }

    /** An actor that was redone and is not repeatable makes the difference. */
    lemma RedoneDiffers(k: nat, i: nat)
      requires Valid() && state == Finished(true) && k < |entries| && entries[k].records.Some?
      requires i < |initial[k]| && i in redone[k]
               && !Repeatable(initial[k][i], entries[k].records.value, entries[k].filter)
      ensures entries[k].level.actors != OnceAll(entries[k], initial[k])
    {
      FinishedMeansLoaded(k);
    }

    /** Over the whole run: a frame-split load succeeds exactly when no level lacks its record. */
    lemma SucceedsIffAllHaveRecords()
      requires Valid() && state.Finished?
      ensures state.success <==> forall k :: 0 <= k < |entries| ==> entries[k].records.Some?
    {
      if state.success {
        forall k | 0 <= k < |entries|
          ensures entries[k].records.Some?
        {
          assert Part(k, |initial[k]|);
        }
      }
    }
  }

  // When the split load differs

  /** A second load of any actor of the level would take nothing new; this can be seen before the load. */
  ghost predicate AllRepeatable(e: LevelEntry, was: ActorArray) {
    e.records.Some? ==> forall i :: 0 <= i < |was| ==> Repeatable(was[i], e.records.value, e.filter)
  }

  /** The actors some frame ran out of time on come out of a second load as out of the first. */
  ghost predicate OnlyRepeatableRedone(e: LevelEntry, was: ActorArray, redone: set<nat>) {
    e.records.Some? ==> forall i :: i in redone && i < |was| ==> Repeatable(was[i], e.records.value, e.filter)
  }

  /** Redoing actors is harmless exactly when they are repeatable: only then is the result that of the synchronous
      load. */
  lemma LoadedMeansSync(e: LevelEntry, was: ActorArray, now: ActorArray, redone: set<nat>)
    requires PartlyLoaded(e, was, now, |was|, redone)
    ensures now == OnceAll(e, was) <==> OnlyRepeatableRedone(e, was, redone)
  {
    if e.records.Some? {
      forall i | 0 <= i < |was|
        ensures now[i] == Once(e, was[i]) <==> (i in redone ==> Repeatable(was[i], e.records.value, e.filter))
      {
        RepeatableEntry(was[i], e.records.value, e.filter);
      }
    } else {
      assert forall i :: 0 <= i < |was| ==> now[i] == was[i];
    }
    assert now == OnceAll(e, was) <==> forall i :: 0 <= i < |was| ==> now[i] == Once(e, was[i]);
  }

  /** A clock that stands still, but for the one moment at which actor `p` of level `k` is done: then it jumps. */
  function JumpingClock(k: nat, p: nat, jump: real): Clock {
    (m: Moment) => if m.frame > 0 || m == ActorDone(0, k, p) then 1.0 + jump else 1.0
  }

  lemma JumpTimes(k: nat, p: nat, jump: real, f: nat, k0: nat, p0: nat)
    ensures var at := JumpingClock(k, p, jump);
            var now := if f > 0 then 1.0 + jump else 1.0;
            && at(LevelStarted(f, k0)) == now && at(FrameStarted(f, k0, p0)) == now
            && at(ActorDone(f, k0, p0)) == if k0 == k && p0 == p then 1.0 + jump else now
  {
  }

  /** Under such a clock the first frame stops at that actor. */
  lemma {:induction false} JumpStopsTheFrame(r: Run, k: nat, p: nat, k0: nat, p0: nat)
    requires |r.entries| == |r.initial| && forall j :: 0 <= j < |r.entries| ==> r.entries[j].records.Some?
    requires r.budget > 0.0 && r.at == JumpingClock(k, p, r.budget)
    requires k < |r.entries| && p < |r.Live(k)| && r.IsSavable(k, p)
    requires k0 < k || (k0 == k && p0 <= p)
    ensures r.StopFrom(0, k0, p0, 1.0) == Late(k, p)
    decreases k - k0, |r.Live(k0)| - p0
  {
    hide LiveOf, JumpingClock, Run.Live, Run.IsSavable;
    JumpTimes(k, p, r.budget, 0, k0, p0);
    if p0 >= |r.Live(k0)| {
      JumpTimes(k, p, r.budget, 0, k0 + 1, 0);
      assert r.StopFrom(0, k0, p0, 1.0) == r.StopFrom(0, k0 + 1, 0, 1.0);
      JumpStopsTheFrame(r, k, p, k0 + 1, 0);
    } else if k0 != k || p0 != p {
      assert r.StopFrom(0, k0, p0, 1.0) == r.StopFrom(0, k0, p0 + 1, 1.0);
      JumpStopsTheFrame(r, k, p, k0, p0 + 1);
    } else {
      assert r.IsLate(0, k, p, 1.0);
    }
  }

  /** And every later frame goes through to the end. */
  lemma {:induction false} NothingStopsLaterFrames(r: Run, k: nat, p: nat, f: nat, k0: nat, p0: nat)
    requires |r.entries| == |r.initial| && forall j :: 0 <= j < |r.entries| ==> r.entries[j].records.Some?
    requires r.budget > 0.0 && r.at == JumpingClock(k, p, r.budget) && f > 0
    ensures r.StopFrom(f, k0, p0, 1.0 + r.budget) == Through
    decreases |r.entries| - k0, |r.Live(k0)| - p0
  {
    hide LiveOf, JumpingClock, Run.IsSavable, Run.Live;
    JumpTimes(k, p, r.budget, f, k0, p0);
    if k0 < |r.entries| {
      if p0 >= |r.Live(k0)| {
        JumpTimes(k, p, r.budget, f, k0 + 1, 0);
        NothingStopsLaterFrames(r, k, p, f, k0 + 1, 0);
      } else {
        NothingStopsLaterFrames(r, k, p, f, k0, p0 + 1);
      }
    }
  }

  /** A load whose first frame stops at a given savable actor. */
  method LoadThatStops(entries: seq<LevelEntry>, maxFrameMs: real, k: nat, p: nat) returns (loader: FrameLoader)
    requires DistinctLevels(entries) && maxFrameMs > 0.0
    requires forall j :: 0 <= j < |entries| ==> entries[j].records.Some?
    requires k < |entries| && p < |LiveOf(entries[k].level.actors)|
    requires entries[k].filter.ShouldSave(entries[k].level.actors[LiveOf(entries[k].level.actors)[p]].value)
    modifies LevelsOf(entries)
    ensures fresh(loader) && loader.entries == entries && loader.maxFrameMs == maxFrameMs
    ensures loader.at == JumpingClock(k, p, maxFrameMs) && loader.frame == 0
    ensures loader.Valid() && loader.initial == old(ActorsOf(entries)) && loader.Reached(Late(k, p))
  {
    hide PartlyLoaded, OnceAll, LiveOf, JumpingClock;
    loader := new FrameLoader(entries, JumpingClock(k, p, maxFrameMs), maxFrameMs);
    JumpTimes(k, p, maxFrameMs, 0, 0, 0);
    JumpStopsTheFrame(Run(loader.at, entries, ActorsOf(entries), maxFrameMs), k, p, 0, 0);
    loader.DeserializeASync();
  }

  /** Any actor that is not repeatable spoils the split load under some clock: the load finishes in two frames, and its
      level differs from that of the synchronous load. */
  method LoadThatDiffers(entries: seq<LevelEntry>, maxFrameMs: real, k: nat, i: nat) returns (loader: FrameLoader)
    requires DistinctLevels(entries) && maxFrameMs > 0.0
    requires forall j :: 0 <= j < |entries| ==> entries[j].records.Some?
    requires k < |entries| && i < |entries[k].level.actors|
    requires !Repeatable(entries[k].level.actors[i], entries[k].records.value, entries[k].filter)
    modifies LevelsOf(entries)
    ensures fresh(loader) && loader.entries == entries && loader.maxFrameMs == maxFrameMs
    ensures loader.Valid() && loader.state == Finished(true) && loader.initial == old(ActorsOf(entries))
    ensures entries[k].level.actors != OnceAll(entries[k], old(entries[k].level.actors))
  {
    hide PartlyLoaded, OnceAll, LiveOf, Repeatable, JumpingClock, Run.StopFrom, FrameLoader.Loading, FrameLoader.Around;
    NotRepeatableIsSavable(entries[k].level.actors[i], entries[k].records.value, entries[k].filter);
    var live := LiveEntries(entries[k].level.actors);
    var p :| 0 <= p < |live| && live[p] == i;
    loader := LoadThatStops(entries, maxFrameMs, k, p);
    JumpTimes(k, p, maxFrameMs, 1, k, p);
    NothingStopsLaterFrames(loader.Spec(), k, p, 1, k, p);
    loader.Tick();
    loader.RedoneDiffers(k, i);
  }

  /** The records that differ need nothing special: a save made them, of the same actor. */
  method SavedLoadThatDiffers(level: Level, maxFrameMs: real) returns (loader: FrameLoader)
    requires maxFrameMs > 0.0 && level.actors == [Some(PLAIN_DOOR)]
    modifies level
    ensures fresh(loader) && loader.Valid() && loader.state == Finished(true)
    ensures level.actors
            != RestoredLevel(old(level.actors), SavedActors([Some(MOVED_DOOR)], DOOR_FILTER), DOOR_FILTER)
  {
    hide SavedActors, Repeatable, FrameLoader.Valid, RestoredLevel;
    RestoringTwiceCanDiffer();
    var e := LevelEntry(level, Some(SavedActors([Some(MOVED_DOOR)], DOOR_FILTER)), DOOR_FILTER);
    loader := LoadThatDiffers([e], maxFrameMs, 0, 0);
  }

  lemma NotRepeatableIsSavable(entry: Option<Actor>, records: seq<ActorRecord>, f: LevelFilter)
    requires !Repeatable(entry, records, f)
    ensures entry.Some? && f.ShouldSave(entry.value)
  {
  }
}
