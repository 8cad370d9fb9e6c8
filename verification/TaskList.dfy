/** Background tasks: work done by a thread pool, completion noticed and notified by the owner of the list. */
module TaskList {
  import opened Engine

  /** The completions notified so far, in order. */
  class Log {
    ghost var notified: seq<TaskHolder>

    ghost constructor ()
      ensures notified == []
    {
      notified := [];
    }
  }

  /** A task and its work: not started, queued in a pool or under way there, or finished. */
  class TaskHolder {
    var workNotFinished: bool
    var isQueued: bool
    var isNotified: bool

    constructor ()
      ensures !workNotFinished && !isQueued && !isNotified
    {
      workNotFinished, isQueued, isNotified := false, false, false;
    }

    predicate IsIdle()
      reads this
    {
      !workNotFinished && !isQueued
    }

    method StartBackgroundTask()
      requires IsIdle()
      modifies `workNotFinished, `isQueued
      ensures workNotFinished && isQueued
    {
      workNotFinished, isQueued := true, true;
    }

    /** The work is done on the calling thread. */
    method StartSynchronousTask()
      requires IsIdle()
      modifies `workNotFinished
      ensures IsIdle()
    {
      workNotFinished := true;
      workNotFinished := false;
    }

    /** The step of a pool thread. */
    method FinishThreadedWork()
      requires workNotFinished
      modifies `workNotFinished
      ensures !workNotFinished
    {
      workNotFinished := false;
    }

    /** Whether no work is left; if so the task no longer belongs to its pool. */
    method IsDone() returns (done: bool)
      modifies `isQueued
      ensures done == !workNotFinished
      ensures isQueued == (old(isQueued) && workNotFinished)
    {
      done := !workNotFinished;
      if done {
        isQueued := false;
      }
    }

    /** Does the work here if it is still in the queue, and waits for it otherwise. */
    method EnsureCompletion()
      modifies `workNotFinished, `isQueued
      ensures IsIdle()
    {
      workNotFinished, isQueued := false, false;
    }

    method TryNotifyFinish(ghost log: Log)
      modifies `isNotified, log
      ensures isNotified
      ensures log.notified == if old(isNotified) then old(log.notified) else old(log.notified) + [this]
    {
      if !isNotified {
        log.notified := log.notified + [this];
        isNotified := true;
      }
    }

    method Tick(ghost log: Log) returns (done: bool)
      modifies this, log
      ensures done == !workNotFinished && workNotFinished == old(workNotFinished)
      ensures isNotified == (old(isNotified) || done)
      ensures log.notified == if done && !old(isNotified) then old(log.notified) + [this] else old(log.notified)
    {
      done := IsDone();
      if done {
        TryNotifyFinish(log);
      }
    }

    method Cancel(ghost log: Log)
      modifies this, log
      ensures isNotified && !workNotFinished
      ensures log.notified == if old(isNotified) then old(log.notified) else old(log.notified) + [this]
    {
      if !IsIdle() {
        EnsureCompletion();
        TryNotifyFinish(log);
      } else {
        var done := IsDone();
        if done {
          TryNotifyFinish(log);
        }
      }
    }
  }

  // Conservation: every task created is in the list or has been notified, once

  ghost predicate Conserved<T>(created: seq<T>, listed: seq<T>, notified: seq<T>) {
    multiset(created) == multiset(listed) + multiset(notified)
  }

  lemma {:induction false} DistinctMeansOnce<T>(s: seq<T>)
    ensures Distinct(s) <==> forall x :: x in s ==> multiset(s)[x] == 1
  {
    if s != [] {
      var n := |s| - 1;
      var init, last := s[..n], s[n];
      assert s == init + [last];
      DistinctMeansOnce(init);
      if Distinct(s) {
        assert last !in init;
      } else {
        var i, j :| 0 <= i < j < |s| && s[i] == s[j];
        assert s == s[..j] + s[j..] && s[i] in s[..j] && s[j] in s[j..];
        assert multiset(s)[s[i]] == multiset(s[..j])[s[i]] + multiset(s[j..])[s[i]] >= 2;
      }
    }
  }

  /** With no task created twice: each is in the list or notified, never both, and never notified twice. */
  lemma ConservedMeansExactlyOnce<T>(created: seq<T>, listed: seq<T>, notified: seq<T>)
    requires Distinct(created) && Conserved(created, listed, notified)
    ensures forall t :: t in created ==> (t in listed) != (t in notified)
    ensures forall t :: t in listed || t in notified ==> t in created
    ensures Distinct(listed) && Distinct(notified)
  {
    DistinctMeansOnce(created);
    DistinctMeansOnce(listed);
    DistinctMeansOnce(notified);
    forall t
      ensures t in created ==> (t in listed) != (t in notified)
      ensures t in listed || t in notified ==> t in created
      ensures multiset(listed)[t] <= 1 && multiset(notified)[t] <= 1
    {
      assert multiset(created)[t] == multiset(listed)[t] + multiset(notified)[t];
      assert t in created <==> multiset(created)[t] > 0;
      assert t in listed <==> multiset(listed)[t] > 0;
      assert t in notified <==> multiset(notified)[t] > 0;
    }
  }

  /** The last element takes the place of the removed one. */
  function RemovedSwap<T>(s: seq<T>, i: nat): (r: seq<T>)
    requires i < |s|
    ensures |r| == |s| - 1 && forall k :: 0 <= k < |r| ==> r[k] == if k == i then s[|s| - 1] else s[k]
  {
    s[i := s[|s| - 1]][..|s| - 1]
  }

  lemma SwapRemovesOne<T>(s: seq<T>, i: nat)
    requires i < |s|
    ensures multiset(s) == multiset(RemovedSwap(s, i)) + multiset{s[i]}
  {
    var last := |s| - 1;
    assert s[i := s[last]] == RemovedSwap(s, i) + [s[i := s[last]][last]];
    assert s == s[..last] + [s[last]];
    if i == last {
      assert RemovedSwap(s, i) == s[..last];
    } else {
      assert multiset(s[i := s[last]]) == multiset(s) - multiset{s[i]} + multiset{s[last]};
    }
  }

  lemma NotifiedOneMore<T>(created: seq<T>, listed: seq<T>, notified: seq<T>, i: nat)
    requires i < |listed| && Conserved(created, listed, notified)
    ensures Conserved(created, RemovedSwap(listed, i), notified + [listed[i]])
  {
    SwapRemovesOne(listed, i);
  }

  lemma ListedOneMore<T>(created: seq<T>, listed: seq<T>, notified: seq<T>, task: T)
    requires Distinct(created) && Conserved(created, listed, notified) && task !in created
    ensures Distinct(created + [task]) && Conserved(created + [task], listed + [task], notified) && task !in notified
  {
    ConservedMeansExactlyOnce(created, listed, notified);
    assert multiset(created)[task] == 0;
  }

  datatype Op = Create(background: bool) | Tick | CancelAll

  /** Owns the tasks, and forgets each once it has been notified. */
  class ScopedTaskList {
    var tasks: seq<TaskHolder>
    ghost var created: seq<TaskHolder>
    ghost const log: Log

    ghost predicate Valid()
      reads this, log, created
    {
      Accounts(tasks)
    }

    /** Every task is accounted for, `listed` being those still to be notified. */
    ghost predicate Accounts(listed: seq<TaskHolder>)
      reads this, log, created
    {
      && Distinct(created) && Conserved(created, listed, log.notified)
      && (forall t :: t in created ==> (t.isNotified <==> t in log.notified))
      && (forall t :: t in created && t.isNotified ==> !t.workNotFinished)
    }

    constructor ()
      ensures Valid() && fresh(log) && created == [] && log.notified == []
    {
      tasks, created := [], [];
      log := new Log();
    }

    /** A task made, and started as its callers always do. */
    method CreateTask(background: bool) returns (task: TaskHolder)
      requires Valid()
      modifies this
      ensures Valid() && fresh(task) && task.IsIdle() == !background
      ensures created == old(created) + [task] && tasks == old(tasks) + [task]
      ensures log.notified == old(log.notified)
    {
      hide Distinct, Conserved;
      task := new TaskHolder();
      ListedOneMore(created, tasks, log.notified, task);
      tasks := tasks + [task];
      created := created + [task];
      if background {
        task.StartBackgroundTask();
      } else {
        task.StartSynchronousTask();
      }
    }

    /** Pool threads run: any tasks under way may finish. */
    method ThreadsRun()
      requires Valid()
      modifies created
      ensures Valid() && forall t :: t in created ==> t.workNotFinished ==> old(t.workNotFinished)
    {
      ConservedMeansExactlyOnce(created, tasks, log.notified);
      for i := 0 to |tasks|
        invariant Valid() && forall t :: t in created ==> t.workNotFinished ==> old(t.workNotFinished)
      {
        if * {
          if tasks[i].workNotFinished {
            tasks[i].FinishThreadedWork();
          }
        }
      }
    }

    /** One task of the list is ticked; if it is done it has to leave the list. */
    method TickOne(i: nat) returns (done: bool)
      requires Valid() && i < |tasks|
      modifies log, created
      ensures Accounts(if done then RemovedSwap(tasks, i) else tasks) && done == !tasks[i].workNotFinished
      ensures forall t :: t in created ==> t.workNotFinished == old(t.workNotFinished)
      ensures log.notified == old(log.notified) + if done then [tasks[i]] else []
    {
      hide Distinct, Conserved;
      ConservedMeansExactlyOnce(created, tasks, log.notified);
      assert tasks[i] in created;
      done := tasks[i].Tick(log);
      if done {
        NotifiedOneMore(created, tasks, old(log.notified), i);
      }
    }

    /** None of the first `i` tasks had finished its work when ticking began. */
    ghost predicate Ticked(i: int, finished: set<TaskHolder>)
      reads this, finished
    {
      && 0 <= i <= |tasks|
      && (forall t :: t in finished ==> t in created && !t.workNotFinished)
      && (forall k :: 0 <= k < i ==> tasks[k] !in finished)
    }

    method TickAt(i: nat, ghost finished: set<TaskHolder>) returns (next: nat)
      requires Valid() && Ticked(i, finished) && i < |tasks|
      modifies `tasks, log, created
      ensures Valid() && Ticked(next, finished) && old(log.notified) <= log.notified
      ensures |tasks| - next < |old(tasks)| - i
    {
      var done := TickOne(i);
      if done {
        tasks := RemovedSwap(tasks, i);
        next := i;
      } else {
        next := i + 1;
      }
    }

    /** Ticks every task and swap-removes the done ones, while threads go on running. */
    method Tick()
      requires Valid()
      modifies `tasks, log, created
      ensures Valid() && old(log.notified) <= log.notified
      ensures forall t :: t in old(tasks) && !old(t.workNotFinished) ==> t !in tasks && t in log.notified
    {
      ConservedMeansExactlyOnce(created, tasks, log.notified);
      ghost var finished := set t | t in tasks && !t.workNotFinished;
      var i := 0;
      while i < |tasks|
        invariant Valid() && Ticked(i, finished) && old(log.notified) <= log.notified
        decreases |tasks| - i
      {
        ThreadsRun();
        i := TickAt(i, finished);
      }
      ConservedMeansExactlyOnce(created, tasks, log.notified);
      assert forall t :: t in finished ==> t !in tasks && t in log.notified;
    }

    method CancelOne(task: TaskHolder, ghost rest: seq<TaskHolder>)
      requires Accounts([task] + rest)
      modifies log, created
      ensures Accounts(rest) && log.notified == old(log.notified) + [task]
    {
      ConservedMeansExactlyOnce(created, [task] + rest, log.notified);
      assert task in [task] + rest && task in created;
      task.Cancel(log);
    }

    /** With nothing listed any more, all have been notified. */
    lemma AllAccountedFor()
      requires Accounts([])
      ensures multiset(log.notified) == multiset(created) && forall t :: t in created ==> !t.workNotFinished
    {
      ConservedMeansExactlyOnce(created, [], log.notified);
    }

    /** Every task is cancelled, so completed and notified, and the list is emptied. */
    method CancelAll()
      requires Valid()
      modifies `tasks, log, created
      ensures Valid() && tasks == [] && old(log.notified) <= log.notified
      ensures multiset(log.notified) == multiset(created) && forall t :: t in created ==> !t.workNotFinished
    {
      hide Distinct, Conserved;
      for i := 0 to |tasks|
        invariant tasks == old(tasks)
        invariant Accounts(tasks[i..]) && old(log.notified) <= log.notified
      {
        assert tasks[i..] == [tasks[i]] + tasks[i + 1..];
        CancelOne(tasks[i], tasks[i + 1..]);
      }
      tasks := [];
      AllAccountedFor();
    }

    method Perform(op: Op)
      requires Valid()
      modifies this, log, created
      ensures Valid() && old(log.notified) <= log.notified && old(created) <= created
      ensures fresh(set t | t in created && t !in old(created))
      ensures op.CancelAll? ==> multiset(log.notified) == multiset(created)
    {
      match op
      case Create(background) =>
        var task := CreateTask(background);
      case Tick =>
        Tick();
      case CancelAll =>
        CancelAll();
    }
  }

  /** Over any run of operations, with threads finishing work in between: each task is notified at most once,
      none before its work is finished, none leaves the list un-notified, and cancelling all notifies all. */
  method Run(ops: seq<Op>) returns (list: ScopedTaskList)
    ensures fresh(list) && list.Valid()
    ensures forall t :: t in list.created ==> (t in list.tasks) != (t in list.log.notified)
    ensures Distinct(list.log.notified)
    ensures forall t :: t in list.log.notified ==> t in list.created && !t.workNotFinished
    ensures ops != [] && ops[|ops| - 1].CancelAll? ==> multiset(list.log.notified) == multiset(list.created)
  {
    list := new ScopedTaskList();
    for i := 0 to |ops|
      invariant list.Valid() && fresh(list) && fresh(list.log) && fresh(set t | t in list.created)
      invariant i > 0 && ops[i - 1].CancelAll? ==> multiset(list.log.notified) == multiset(list.created)
    {
      list.ThreadsRun();
      list.Perform(ops[i]);
    }
    ConservedMeansExactlyOnce(list.created, list.tasks, list.log.notified);
  }
}
