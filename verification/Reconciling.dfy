/** Preparing a level for loading: live actors and records are matched up, and what has no partner is destroyed or
    respawned. */
module Reconciling {
  import opened Engine
  import opened Actors
  import opened Levels

  /** Pointers to records, as indices into the level's record array. */
  ghost predicate Pointers(pending: seq<nat>, records: seq<ActorRecord>) {
    && (forall k :: 0 <= k < |pending| ==> pending[k] < |records|)
    && (forall k, l :: 0 <= k < l < |pending| ==> pending[k] != pending[l])
  }

  /** Removes the first pointer to a record of the given actor, moving the last pointer into its place. */
  method RemoveSingleRecordPtrSwap(pending: seq<nat>, records: seq<ActorRecord>, entry: Option<Actor>)
    returns (rest: seq<nat>, found: Option<nat>)
    requires Pointers(pending, records)
    ensures Pointers(rest, records)
    ensures found.None? ==>
              && rest == pending
              && forall k :: 0 <= k < |pending| && entry.Some? ==>
                               !records[pending[k]].base.Matches(entry.value.name, entry.value.cls)
    ensures found.Some? ==>
              && entry.Some? && |rest| == |pending| - 1
              && found.value < |records| && records[found.value].base.Matches(entry.value.name, entry.value.cls)
              && (forall j :: j in pending <==> j in rest || j == found.value)
              && found.value !in rest
  {
    rest, found := pending, None;
    if entry.None? {
      return;
    }
    for i := 0 to |pending|
      invariant rest == pending && found.None?
      invariant forall k :: 0 <= k < i ==> !records[pending[k]].base.Matches(entry.value.name, entry.value.cls)
    {
      if records[pending[i]].base.Matches(entry.value.name, entry.value.cls) {
        var last := |pending| - 1;
        rest, found := pending[i := pending[last]][..last], Some(pending[i]);
        RemovedAtSwap(pending, i);
        return;
      }
    }
  }

  lemma RemovedAtSwap(pending: seq<nat>, i: nat)
    requires i < |pending|
    requires forall k, l :: 0 <= k < l < |pending| ==> pending[k] != pending[l]
    ensures var last := |pending| - 1;
            var rest := pending[i := pending[last]][..last];
            && (forall k, l :: 0 <= k < l < |rest| ==> rest[k] != rest[l])
            && (forall j :: j in pending <==> j in rest || j == pending[i])
            && pending[i] !in rest
  {
    var last := |pending| - 1;
    var rest := pending[i := pending[last]][..last];
    forall j | j in pending ensures j in rest || j == pending[i] {
      var k :| 0 <= k < |pending| && pending[k] == j;
      if k != i {
        assert rest[if k == last then i else k] == j;
      }
    }
  }

  /** Record `j` is the record of the live actor at entry `i`. */
  predicate IsRecordOf(records: seq<ActorRecord>, j: nat, actors: ActorArray, i: nat) {
    && j < |records| && i < |actors| && actors[i].Some?
    && records[j].base.Matches(actors[i].value.name, actors[i].value.cls)
  }

  /** `owner` gives different records different live actors, each of the record's name and class. */
  ghost predicate Matched(owner: map<nat, nat>, records: seq<ActorRecord>, actors: ActorArray) {
    && (forall j :: j in owner ==> IsRecordOf(records, j, actors, owner[j]))
    && (forall j, k :: j in owner && k in owner && j != k ==> owner[j] != owner[k])
  }

  /** The matched records are those no longer pending. */
  ghost predicate PendingRest(owner: map<nat, nat>, pending: seq<nat>, records: seq<ActorRecord>) {
    && Pointers(pending, records)
    && forall j :: j in owner <==> 0 <= j < |records| && j !in pending
  }

  ghost predicate HasOwnedRecord(owner: map<nat, nat>, i: nat) {
    exists j :: j in owner && owner[j] == i
  }

  /** What the first `n` entries look like once actors without a record have been destroyed: exactly those are gone. */
  ghost predicate Pruned(was: ActorArray, now: ActorArray, owner: map<nat, nat>, f: LevelFilter, n: nat) {
    && |now| == |was| && n <= |was|
    && (forall i :: 0 <= i < n ==>
          now[i] == if was[i].Some? && f.ShouldSave(was[i].value) && !HasOwnedRecord(owner, i) then None else was[i])
    && (forall i :: n <= i < |was| ==> now[i] == was[i] && !HasOwnedRecord(owner, i))
  }

  /** The next entry found the record `j`. */
  lemma PrunedMatch(was: ActorArray, now: ActorArray, owner: map<nat, nat>, records: seq<ActorRecord>, f: LevelFilter,
                    n: nat, j: nat)
    requires Pruned(was, now, owner, f, n) && n < |was| && Matched(owner, records, now)
    requires j !in owner && IsRecordOf(records, j, now, n)
    ensures Pruned(was, now, owner[j := n], f, n + 1) && Matched(owner[j := n], records, now)
  {
    var owner' := owner[j := n];
    assert HasOwnedRecord(owner', n) by {
      assert j in owner' && owner'[j] == n;
    }
    forall i | 0 <= i < |was| && i != n ensures HasOwnedRecord(owner', i) <==> HasOwnedRecord(owner, i) {
      if HasOwnedRecord(owner, i) {
        var k :| k in owner && owner[k] == i;
        assert k in owner' && owner'[k] == i;
      }
    }
  }

  /** The next entry found no record: it goes if it is savable. */
  lemma PrunedAlone(was: ActorArray, now: ActorArray, owner: map<nat, nat>, records: seq<ActorRecord>, f: LevelFilter,
                    n: nat)
    requires Pruned(was, now, owner, f, n) && n < |was| && Matched(owner, records, now)
    ensures var now' := if was[n].Some? && f.ShouldSave(was[n].value) then now[n := None] else now;
            Pruned(was, now', owner, f, n + 1) && Matched(owner, records, now')
  {
    forall j | j in owner ensures owner[j] != n {
      assert !HasOwnedRecord(owner, n);
    }
  }

  /** Among the first `n` entries, whoever had a record has one still. */
  ghost predicate KeepsMatched(was: ActorArray, records: seq<ActorRecord>, owner: map<nat, nat>, n: nat) {
    forall i, j :: 0 <= i < n && IsRecordOf(records, j, was, i) ==> HasOwnedRecord(owner, i)
  }

  lemma KeepsMatchedNext(was: ActorArray, now: ActorArray, records: seq<ActorRecord>, owner: map<nat, nat>,
                         owner': map<nat, nat>, pending: seq<nat>, f: LevelFilter, n: nat)
    requires n < |was| && DistinctActors(was) && Pruned(was, now, owner, f, n) && Matched(owner, records, now)
    requires KeepsMatched(was, records, owner, n) && PendingRest(owner, pending, records)
    requires forall j :: j in owner ==> j in owner' && owner'[j] == owner[j]
    requires HasOwnedRecord(owner', n) || forall j :: j in pending ==> !IsRecordOf(records, j, was, n)
    ensures KeepsMatched(was, records, owner', n + 1)
  {
    forall i, j | 0 <= i < n + 1 && IsRecordOf(records, j, was, i) ensures HasOwnedRecord(owner', i) {
      if i < n {
        var k :| k in owner && owner[k] == i;
        assert k in owner' && owner'[k] == i;
      }
    }
  }

  /** Matches records with live actors and destroys the savable actors without a record. */
  method MatchActors(level: Level, records: seq<ActorRecord>, f: LevelFilter)
    returns (pending: seq<nat>, ghost owner: map<nat, nat>)
    requires level.Valid()
    modifies level
    ensures level.Valid()
    ensures Matched(owner, records, level.actors) && PendingRest(owner, pending, records)
    ensures |pending| <= |records|
    ensures Pruned(old(level.actors), level.actors, owner, f, |old(level.actors)|)
    ensures KeepsMatched(old(level.actors), records, owner, |old(level.actors)|)
    ensures old(level.garbage) <= level.garbage <= old(level.garbage) + NamesOf(old(level.actors))
  {
    pending := seq(|records|, j => j);
    owner := map[];
    forall j | 0 <= j < |records|
      ensures pending[j] == j && j in pending
    {
      assert pending[j] == j;
    }
    ghost var was := level.actors;
    var count := |level.actors|;
    for i := 0 to count
      invariant level.Valid()
      invariant Matched(owner, records, level.actors) && PendingRest(owner, pending, records)
      invariant |pending| <= |records|
      invariant Pruned(was, level.actors, owner, f, i) && KeepsMatched(was, records, owner, i)
      invariant old(level.garbage) <= level.garbage <= old(level.garbage) + NamesOf(was)
    {
      pending, owner := MatchNext(level, pending, records, f, i, was, owner);
    }
  }

  /** Handles one entry of the actor array. */
  method MatchNext(level: Level, pending: seq<nat>, records: seq<ActorRecord>, f: LevelFilter, i: nat,
                   ghost was: ActorArray, ghost owner: map<nat, nat>)
    returns (rest: seq<nat>, ghost owner': map<nat, nat>)
    requires level.Valid() && i < |was|
    requires Matched(owner, records, level.actors) && PendingRest(owner, pending, records)
    requires Pruned(was, level.actors, owner, f, i) && KeepsMatched(was, records, owner, i) && DistinctActors(was)
    modifies level
    ensures level.Valid()
    ensures Matched(owner', records, level.actors) && PendingRest(owner', rest, records) && |rest| <= |pending|
    ensures Pruned(was, level.actors, owner', f, i + 1) && KeepsMatched(was, records, owner', i + 1)
    ensures old(level.garbage) <= level.garbage <= old(level.garbage) + NamesOf(was)
  {
    var entry := level.actors[i];
    var found;
    rest, found := RemoveSingleRecordPtrSwap(pending, records, entry);
    if found.Some? {
      PrunedMatch(was, level.actors, owner, records, f, i, found.value);
      owner' := owner[found.value := i];
      assert HasOwnedRecord(owner', i) by {
        assert found.value in owner' && owner'[found.value] == i;
      }
      KeepsMatchedNext(was, level.actors, records, owner, owner', pending, f, i);
    } else {
      owner' := owner;
      KeepsMatchedNext(was, level.actors, records, owner, owner', pending, f, i);
      PrunedAlone(was, level.actors, owner, records, f, i);
      if entry.Some? && f.ShouldSave(entry.value) {
        level.Destroy(i);
      }
    }
  }

  /** The records are the same but for their names. */
  ghost predicate SameButNames(was: seq<ActorRecord>, now: seq<ActorRecord>) {
    && |now| == |was|
    && forall j :: 0 <= j < |was| ==> now[j] == was[j].(base := was[j].base.(name := now[j].base.name))
  }

  /** A record is renamed only if its name was taken: by the level, by garbage, by "no name", or by another record. */
  ghost predicate RenamedOnlyIfTaken(was: seq<ActorRecord>, now: seq<ActorRecord>, taken: set<Name>,
                                     owner: map<nat, nat>)
    requires |was| == |now|
  {
    forall j :: 0 <= j < |was| ==>
      || now[j].base.name == was[j].base.name
      || was[j].base.name in taken + {NAME_NONE}
      || NameOfAnother(now, owner, j, was[j].base.name)
  }

  /** A matched record other than `j` has the name. */
  ghost predicate NameOfAnother(records: seq<ActorRecord>, owner: map<nat, nat>, j: nat, name: Name) {
    exists k :: k in owner && k < |records| && k != j && records[k].base.name == name
  }

  /** The first `n` pending records have been respawned, at the end of the actor array. */
  ghost predicate Respawned(was: seq<ActorRecord>, now: seq<ActorRecord>, before: ActorArray, after: ActorArray,
                            pending: seq<nat>, owner: map<nat, nat>, owner': map<nat, nat>, n: nat)
  {
    && SameButNames(was, now)
    && n <= |pending| && |after| == |before| + n && after[..|before|] == before
    && (forall j :: j in owner ==> j < |was| && j in owner' && owner'[j] == owner[j] && now[j] == was[j])
    && (forall k :: 0 <= k < n ==> pending[k] in owner' && owner'[pending[k]] == |before| + k)
    && (forall k :: n <= k < |pending| ==> pending[k] < |was| && now[pending[k]] == was[pending[k]])
    && (forall j :: j in owner' ==> j in owner || exists k :: 0 <= k < n && pending[k] == j)
  }

  /** Everything respawning keeps, `n` pending records in. */
  ghost predicate Respawning(was: seq<ActorRecord>, now: seq<ActorRecord>, before: ActorArray, after: ActorArray,
                             pending: seq<nat>, owner: map<nat, nat>, owner': map<nat, nat>, garbage: set<Name>, n: nat)
  {
    && Respawned(was, now, before, after, pending, owner, owner', n)
    && Matched(owner', now, after)
    && RenamedOnlyIfTaken(was, now, NamesOf(before) + garbage, owner')
  }

  /** A taken name belongs to the level, or to a record respawned before. */
  lemma TakenNames(was: seq<ActorRecord>, now: seq<ActorRecord>, before: ActorArray, after: ActorArray,
                   pending: seq<nat>,
                   owner: map<nat, nat>, owner': map<nat, nat>, garbage: set<Name>, n: nat, name: Name)
    requires Respawning(was, now, before, after, pending, owner, owner', garbage, n) && Pointers(pending, was)
    requires n < |pending| && name in NamesOf(after)
    ensures name in NamesOf(before) || NameOfAnother(now, owner', pending[n], name)
  {
    var i :| 0 <= i < |after| && after[i].Some? && after[i].value.name == name;
    if i < |before| {
      assert before[i] == after[i];
    } else {
      var j := pending[i - |before|];
      assert j in owner' && IsRecordOf(now, j, after, owner'[j]);
    }
  }

  lemma MatchedNext(now: seq<ActorRecord>, after: ActorArray, owner: map<nat, nat>, j: nat, actor: Actor)
    requires Matched(owner, now, after) && j < |now| && j !in owner && Some(actor.cls) == now[j].base.cls
    ensures Matched(owner[j := |after|], now[j := Named(now[j], actor.name)], after + [Some(actor)])
  {
    var now', after', owner' := now[j := Named(now[j], actor.name)], after + [Some(actor)], owner[j := |after|];
    forall k | k in owner' ensures IsRecordOf(now', k, after', owner'[k]) && (k != j ==> owner'[k] != |after|) {
      if k != j {
        assert k in owner && IsRecordOf(now, k, after, owner[k]);
        assert now'[k] == now[k] && after'[owner[k]] == after[owner[k]];
      }
    }
  }

  lemma RenamedNext(was: seq<ActorRecord>, now: seq<ActorRecord>, taken: set<Name>, owner: map<nat, nat>, j: nat,
                    i: nat, name: Name)
    requires |was| == |now| && RenamedOnlyIfTaken(was, now, taken, owner)
    requires j < |now| && j !in owner && now[j] == was[j]
    requires name == was[j].base.name || was[j].base.name in taken + {NAME_NONE}
             || NameOfAnother(now, owner, j, was[j].base.name)
    ensures RenamedOnlyIfTaken(was, now[j := Named(now[j], name)], taken, owner[j := i])
  {
    var now', owner' := now[j := Named(now[j], name)], owner[j := i];
    forall m | 0 <= m < |was| && NameOfAnother(now, owner, m, was[m].base.name)
      ensures NameOfAnother(now', owner', m, was[m].base.name)
    {
      var k :| k in owner && k < |now| && k != m && now[k].base.name == was[m].base.name;
      assert k in owner' && now'[k].base.name == was[m].base.name;
    }
  }

  lemma RespawnedNext(was: seq<ActorRecord>, now: seq<ActorRecord>, before: ActorArray, after: ActorArray,
                      pending: seq<nat>, owner: map<nat, nat>, owner': map<nat, nat>, n: nat, actor: Actor)
    requires Respawned(was, now, before, after, pending, owner, owner', n)
    requires n < |pending| && Pointers(pending, was) && pending[n] !in owner && pending[n] !in owner'
    ensures var j := pending[n];
            Respawned(was, now[j := Named(now[j], actor.name)], before, after + [Some(actor)],
                      pending, owner, owner'[j := |after|], n + 1)
  {
    assert (after + [Some(actor)])[..|before|] == after[..|before|];
  }

  /** Spawning the next pending record's actor and putting the actual name on the record. */
  lemma RespawnNext(was: seq<ActorRecord>, now: seq<ActorRecord>, before: ActorArray, after: ActorArray,
                    pending: seq<nat>, owner: map<nat, nat>, owner': map<nat, nat>, garbage: set<Name>, n: nat,
                      actor: Actor)
    requires Respawning(was, now, before, after, pending, owner, owner', garbage, n)
    requires n < |pending| && PendingRest(owner, pending, was)
    requires Some(actor.cls) == now[pending[n]].base.cls
    requires now[pending[n]].base.name !in NamesOf(after) + garbage + {NAME_NONE}
             ==> actor.name == now[pending[n]].base.name
    ensures var j := pending[n];
            Respawning(was, now[j := Named(now[j], actor.name)], before, after + [Some(actor)],
                       pending, owner, owner'[j := |after|], garbage, n + 1)
  {
    var j := pending[n];
    assert j !in owner && j !in owner';
    RespawnedNext(was, now, before, after, pending, owner, owner', n, actor);
    MatchedNext(now, after, owner', j, actor);
    if was[j].base.name in NamesOf(after) {
      TakenNames(was, now, before, after, pending, owner, owner', garbage, n, was[j].base.name);
    }
    RenamedNext(was, now, NamesOf(before) + garbage, owner', j, |after|, actor.name);
  }

  lemma RespawnNone(records: seq<ActorRecord>, actors: ActorArray, pending: seq<nat>, owner: map<nat, nat>,
                    garbage: set<Name>)
    requires Matched(owner, records, actors) && PendingRest(owner, pending, records)
    ensures Respawning(records, records, actors, actors, pending, owner, owner, garbage, 0)
  {
  }

  lemma StillPending(was: seq<ActorRecord>, now: seq<ActorRecord>, before: ActorArray, after: ActorArray,
                     pending: seq<nat>, owner: map<nat, nat>, owner': map<nat, nat>, garbage: set<Name>, n: nat)
    requires Respawning(was, now, before, after, pending, owner, owner', garbage, n) && n < |pending|
    ensures pending[n] < |was| == |now| && now[pending[n]] == was[pending[n]]
  {
  }

  /** The actor spawned for a record, once it bears the actor's name. */
  function SpawnedFor(r: ActorRecord, spawning: Spawning): Actor
    requires r.base.cls.Some?
  {
    spawning.Spawned(r.base.cls.value, r.base.name, r.transform)
  }

  /** The entries from `first` on are the actors spawned for the first pending records, one for each. */
  ghost predicate SpawnedFrom(first: nat, actors: ActorArray, records: seq<ActorRecord>, pending: seq<nat>,
                              spawning: Spawning)
  {
    && first <= |actors| <= first + |pending|
    && forall k :: 0 <= k < |actors| - first ==>
         && pending[k] < |records| && records[pending[k]].base.cls.Some?
         && actors[first + k] == Some(SpawnedFor(records[pending[k]], spawning))
  }

  lemma SpawnedNext(first: nat, actors: ActorArray, records: seq<ActorRecord>, pending: seq<nat>, spawning: Spawning,
                    name: Name, was: seq<ActorRecord>, owner: map<nat, nat>)
    requires SpawnedFrom(first, actors, records, pending, spawning) && |actors| < first + |pending|
    requires PendingRest(owner, pending, was)
    requires var j := pending[|actors| - first]; j < |records| && records[j].base.cls.Some?
    ensures var j := pending[|actors| - first];
            var r := Named(records[j], name);
            SpawnedFrom(first, actors + [Some(SpawnedFor(r, spawning))], records[j := r], pending, spawning)
  {
    hide SpawnedFor;
  }

  /** Creates the actors that were saved and are not there, and puts the names they got on their records. */
  method RespawnActors(level: Level, records: seq<ActorRecord>, pending: seq<nat>, ghost owner: map<nat, nat>)
    returns (records': seq<ActorRecord>, ghost owner': map<nat, nat>)
    requires level.Valid()
    requires Matched(owner, records, level.actors) && PendingRest(owner, pending, records)
    requires forall j :: 0 <= j < |records| ==> records[j].base.cls.Some?
    modifies level`actors
    ensures level.Valid()
    ensures Respawning(records, records', old(level.actors), level.actors, pending, owner, owner', level.garbage,
                       |pending|)
    ensures SpawnedFrom(|old(level.actors)|, level.actors, records', pending, level.spawning)
  {
    hide Respawning, Matched, PendingRest, DistinctActors;
    records', owner' := records, owner;
    ghost var before := level.actors;
    RespawnNone(records, before, pending, owner, level.garbage);
    for k := 0 to |pending|
      invariant level.Valid()
      invariant Respawning(records, records', before, level.actors, pending, owner, owner', level.garbage, k)
      invariant SpawnedFrom(|before|, level.actors, records', pending, level.spawning) && |level.actors| == |before| + k
    {
      ghost var after, now := level.actors, records';
      StillPending(records, now, before, after, pending, owner, owner', level.garbage, k);
      var record := records'[pending[k]];
      var name := level.SpawnActor(record.base.cls.value, record.transform, record.base.name);
      SpawnedNext(|before|, after, now, pending, level.spawning, name, records, owner);
      RespawnNext(records, now, before, after, pending, owner, owner', level.garbage, k, level.actors[|after|].value);
      records' := records'[pending[k] := Named(record, name)];
      owner' := owner'[pending[k] := |after|];
    }
  }

  /** Every record has its own live actor, of its name and class, and every savable live actor has its record. */
  ghost predicate Reconciled(owner: map<nat, nat>, records: seq<ActorRecord>, actors: ActorArray, f: LevelFilter) {
    && Matched(owner, records, actors)
    && (forall j :: j in owner <==> 0 <= j < |records|)
    && (forall i :: 0 <= i < |actors| && actors[i].Some? && f.ShouldSave(actors[i].value) ==> HasOwnedRecord(owner, i))
  }

  /** Entries of the old array: actors without a record are gone if savable, and nothing else has changed. */
  ghost predicate Survived(was: ActorArray, now: ActorArray, owner: map<nat, nat>, f: LevelFilter) {
    && |was| <= |now|
    && forall i :: 0 <= i < |was| ==>
         now[i] == if was[i].Some? && f.ShouldSave(was[i].value) && !HasOwnedRecord(owner, i) then None else was[i]
  }

  /** The entries past the old array are those of records of their own, as spawned for them. */
  ghost predicate Joined(was: ActorArray, now: ActorArray, records: seq<ActorRecord>, owner: map<nat, nat>,
                         spawning: Spawning)
  {
    && |was| <= |now| <= |was| + |records|
    && (forall i :: |was| <= i < |now| ==> HasOwnedRecord(owner, i))
    && forall j :: j in owner && |was| <= owner[j] < |now| ==>
         && j < |records| && records[j].base.cls.Some?
         && now[owner[j]] == Some(SpawnedFor(records[j], spawning))
  }

  lemma SameLength(was: seq<ActorRecord>, now: seq<ActorRecord>)
    requires SameButNames(was, now)
    ensures |was| == |now|
  {
  }

  lemma RespawnedJoin(was: seq<ActorRecord>, now: seq<ActorRecord>, before: ActorArray, after: ActorArray,
                      pending: seq<nat>, owner: map<nat, nat>, owner': map<nat, nat>, garbage: set<Name>,
                      spawning: Spawning)
    requires Respawning(was, now, before, after, pending, owner, owner', garbage, |pending|)
    requires Matched(owner, was, before) && |pending| <= |was| && SpawnedFrom(|before|, after, now, pending, spawning)
    ensures Joined(before, after, now, owner', spawning)
  {
    hide SpawnedFor, RenamedOnlyIfTaken, SameButNames;
    SameLength(was, now);
    forall i | |before| <= i < |after|
      ensures HasOwnedRecord(owner', i)
    {
      assert pending[i - |before|] in owner' && owner'[pending[i - |before|]] == i;
    }
    forall j | j in owner' && |before| <= owner'[j] < |after|
      ensures j < |now| && now[j].base.cls.Some? && after[owner'[j]] == Some(SpawnedFor(now[j], spawning))
    {
      assert j !in owner;
      var k :| 0 <= k < |pending| && pending[k] == j;
      assert owner'[j] == |before| + k;
    }
  }

  lemma ReconciledNamesAreDistinct(owner: map<nat, nat>, records: seq<ActorRecord>, actors: ActorArray, f: LevelFilter)
    requires Reconciled(owner, records, actors, f) && DistinctActors(actors)
    ensures forall j, k :: 0 <= j < k < |records| ==> records[j].base.name != records[k].base.name
    ensures forall j :: 0 <= j < |records| ==> records[j].base.name != NAME_NONE
  {
    forall j, k | 0 <= j < k < |records| ensures records[j].base.name != records[k].base.name {
      assert IsRecordOf(records, j, actors, owner[j]) && IsRecordOf(records, k, actors, owner[k]);
      assert owner[j] != owner[k];
    }
    forall j | 0 <= j < |records| ensures records[j].base.name != NAME_NONE {
      assert IsRecordOf(records, j, actors, owner[j]);
    }
  }

  /** The pruned level with all pending records respawned is reconciled. */
  lemma RespawnedReconciles(was: ActorArray, pruned: ActorArray, after: ActorArray, records: seq<ActorRecord>,
                            now: seq<ActorRecord>, pending: seq<nat>, owner: map<nat, nat>, owner': map<nat, nat>,
                            garbage: set<Name>, f: LevelFilter)
    requires Pruned(was, pruned, owner, f, |was|) && PendingRest(owner, pending, records)
             && Matched(owner, records, pruned)
    requires Respawning(records, now, pruned, after, pending, owner, owner', garbage, |pending|)
    requires KeepsMatched(was, records, owner, |was|)
    ensures Reconciled(owner', now, after, f) && Survived(was, after, owner', f)
    ensures KeepsMatched(was, records, owner', |was|)
    ensures forall j :: j in owner' && owner'[j] < |was| ==> j < |records| && now[j] == records[j]
  {
    forall j ensures j in owner' <==> 0 <= j < |records| {
      if 0 <= j < |records| && j !in owner {
        var k :| 0 <= k < |pending| && pending[k] == j;
      }
    }
    forall i | 0 <= i < |was| ensures HasOwnedRecord(owner', i) <==> HasOwnedRecord(owner, i) {
      if HasOwnedRecord(owner, i) {
        var j :| j in owner && owner[j] == i;
        assert j in owner' && owner'[j] == i;
      }
      if HasOwnedRecord(owner', i) {
        var j :| j in owner' && owner'[j] == i;
        assert j in owner;
      }
    }
    forall i | 0 <= i < |after| && after[i].Some? && f.ShouldSave(after[i].value) ensures HasOwnedRecord(owner', i) {
      if i < |was| {
        assert after[i] == after[..|pruned|][i] == pruned[i];
      } else {
        var j := pending[i - |was|];
        assert j in owner' && owner'[j] == i;
      }
    }
    forall i | 0 <= i < |was| ensures after[i] == pruned[i] {
      assert after[i] == after[..|pruned|][i];
    }
  }

  /** Prepares a level and its records for loading. */
  method PrepareLevel(level: Level, records: seq<ActorRecord>, f: LevelFilter)
    returns (records': seq<ActorRecord>, ghost owner: map<nat, nat>)
    requires level.Valid()
    requires forall j :: 0 <= j < |records| ==> records[j].base.cls.Some?
    modifies level
    ensures level.Valid()
    ensures Reconciled(owner, records', level.actors, f)
    ensures Survived(old(level.actors), level.actors, owner, f)
    ensures KeepsMatched(old(level.actors), records, owner, |old(level.actors)|)
    ensures SameButNames(records, records')
    ensures forall j :: j in owner && owner[j] < |old(level.actors)| ==> records'[j] == records[j]
    ensures RenamedOnlyIfTaken(records, records', NamesOf(old(level.actors)) + old(level.garbage), owner)
    ensures Joined(old(level.actors), level.actors, records', owner, level.spawning)
  {
    ghost var was, garbage := level.actors, level.garbage;
    var pending;
    ghost var matched;
    pending, matched := MatchActors(level, records, f);
    ghost var pruned := level.actors;
    assert NamesOf(pruned) <= NamesOf(was) by {
      forall i | 0 <= i < |pruned| && pruned[i].Some? ensures pruned[i].value.name in NamesOf(was) {
        assert was[i] == pruned[i];
      }
    }
    records', owner := RespawnActors(level, records, pending, matched);
    RespawnedJoin(records, records', pruned, level.actors, pending, matched, owner, level.garbage, level.spawning);
    RespawnedReconciles(was, pruned, level.actors, records, records', pending, matched, owner, level.garbage, f);
    TakenByMore(records, records', NamesOf(pruned) + level.garbage, NamesOf(was) + garbage, owner);
  }

  lemma TakenByMore(was: seq<ActorRecord>, now: seq<ActorRecord>, taken: set<Name>, more: set<Name>,
                    owner: map<nat, nat>)
    requires |was| == |now| && taken <= more && RenamedOnlyIfTaken(was, now, taken, owner)
    ensures RenamedOnlyIfTaken(was, now, more, owner)
  {
  }
}
