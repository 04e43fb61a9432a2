/** LSPWorkingPool (and the identical background-task methods of LSPBindings): per-file tables
    of background tasks and the requests that run them. Scheduling is recorded as a log of
    post and cancel events on the worker queue. */
module WorkingPool {
  import opened Wrappers
  import opened Files
  import opened Sessions

  /** The delay in milliseconds every background request is posted with. */
  const Delay: nat := 500

  /** A background task, compared by identity. */
  type TaskId = nat

  /** A request created by addBackgroundTask for a task on a file; `id` is its identity. */
  datatype Request = Request(id: nat, file: FileObj, task: TaskId)

  datatype PoolEvent = Post(request: Request, delay: nat) | Cancel(request: Request)

  /** One (task, request) pair of a file's table. */
  datatype Entry = Entry(task: TaskId, request: Request)

  /** A file's table as an insertion-ordered association list without repeated tasks. */
  ghost predicate DistinctTasks(table: seq<Entry>) {
    forall i, j :: 0 <= i < j < |table| ==> table[i].task != table[j].task
  }

  /** Map.get */
  function Find(table: seq<Entry>, t: TaskId): (r: Option<Request>)
    ensures r.Some? <==> exists i :: 0 <= i < |table| && table[i].task == t
    ensures r.Some? ==> Entry(t, r.value) in table
    decreases |table|
  {
    if table == [] then None
    else if table[0].task == t then Some(table[0].request)
    else Find(table[1..], t)
  }

  /** Map.put: an existing task keeps its place and gets the new request; a new task goes at
      the end. */
  function Put(table: seq<Entry>, t: TaskId, r: Request): seq<Entry>
    decreases |table|
  {
    if table == [] then [Entry(t, r)]
    else if table[0].task == t then [Entry(t, r)] + table[1..]
    else [table[0]] + Put(table[1..], t, r)
  }

  /** Map.remove */
  function RemoveTask(table: seq<Entry>, t: TaskId): seq<Entry>
    decreases |table|
  {
    if table == [] then []
    else if table[0].task == t then table[1..]
    else [table[0]] + RemoveTask(table[1..], t)
  }

  /** After put, the task maps to the new request, every other task is unaffected, and tasks
      stay distinct. */
  lemma {:induction false} PutSpec(table: seq<Entry>, t: TaskId, r: Request, u: TaskId)
    requires DistinctTasks(table)
    ensures DistinctTasks(Put(table, t, r))
    ensures Find(Put(table, t, r), t) == Some(r)
    ensures u != t ==> Find(Put(table, t, r), u) == Find(table, u)
    decreases |table|
  {
    if table != [] && table[0].task != t {
      PutSpec(table[1..], t, r, u);
      var rest := Put(table[1..], t, r);
      forall j | 0 <= j < |rest|
        ensures rest[j].task != table[0].task
      {
        if rest[j].task == t {
        } else {
          var f := Find(rest, rest[j].task);
          assert f.Some?;
          PutSpec(table[1..], t, r, rest[j].task);
        }
      }
    } else if table != [] {
      assert [Entry(t, r)] + table[1..] == [Entry(t, r)] + table[1..];
      assert forall i :: 1 <= i < |table| ==> table[i].task != t;
    }
  }

  /** After remove, the task is absent, every other task is unaffected, and tasks stay
      distinct. */
  lemma {:induction false} RemoveSpec(table: seq<Entry>, t: TaskId, u: TaskId)
    requires DistinctTasks(table)
    ensures DistinctTasks(RemoveTask(table, t))
    ensures Find(RemoveTask(table, t), t).None?
    ensures u != t ==> Find(RemoveTask(table, t), u) == Find(table, u)
    decreases |table|
  {
    if table != [] && table[0].task != t {
      RemoveSpec(table[1..], t, u);
      var rest := RemoveTask(table[1..], t);
      forall j | 0 <= j < |rest|
        ensures rest[j].task != table[0].task
      {
        RemoveSpec(table[1..], t, rest[j].task);
      }
    } else if table != [] {
      assert forall i :: 1 <= i < |table| ==> table[i].task != t;
    }
  }

  /** The posts scheduleBackgroundTasks makes for a table: one per entry, in table order. */
  function PostsOf(table: seq<Entry>): (posts: seq<PoolEvent>)
    ensures |posts| == |table|
    ensures forall i :: 0 <= i < |table| ==> posts[i] == Post(table[i].request, Delay)
  {
    seq(|table|, i requires 0 <= i < |table| => Post(table[i].request, Delay))
  }

  /** What running a request does: the task is invoked with the file's current session, or
      not at all when the file has none. */
  datatype TaskCall = TaskCall(task: TaskId, session: Session, file: FileObj)

  function RunRequest(r: Request, current: Option<Session>): (call: Option<TaskCall>)
    ensures call.Some? <==> current.Some?
    ensures call.Some? ==> call.value == TaskCall(r.task, current.value, r.file)
  {
    if current.None? then None else Some(TaskCall(r.task, current.value, r.file))
  }

  class Pool {
    var tasks: map<FileObj, seq<Entry>>
    var events: seq<PoolEvent>
    var nextId: nat

    /** Every table is free of repeated tasks and every request was created before. */
    ghost predicate Valid()
      reads this
    {
      forall f :: f in tasks ==>
        (DistinctTasks(tasks[f]) && forall i :: 0 <= i < |tasks[f]| ==> tasks[f][i].request.id < nextId)
    }

    constructor ()
      ensures Valid() && tasks == map[] && events == [] && nextId == 0
    {
      tasks, events, nextId := map[], [], 0;
    }

    /** backgroundTasksMapFor: the file's table, created empty when absent. */
    function TableFor(file: FileObj): (table: seq<Entry>)
      reads this
      ensures file in tasks ==> table == tasks[file]
      ensures file !in tasks ==> table == []
    {
      if file in tasks then tasks[file] else []
    }

    /** addBackgroundTask: a new request is stored for the task, replacing any previous one
        without cancelling it, and posted with the delay. */
    method AddBackgroundTask(file: FileObj, task: TaskId) returns (req: Request)
      requires Valid()
      modifies this
      ensures Valid()
      ensures req == Request(old(nextId), file, task) && nextId == old(nextId) + 1
      ensures tasks == old(tasks)[file := Put(old(TableFor(file)), task, req)]
      ensures events == old(events) + [Post(req, Delay)]
    {
      req := Request(nextId, file, task);
      var table := TableFor(file);
      PutSpec(table, task, req, task);
      tasks := tasks[file := Put(table, task, req)];
      nextId := nextId + 1;
      PutEntriesOlder(table, task, req, nextId);
      events := events + [Post(req, Delay)];
    }

    /** removeBackgroundTask: the task's entry is removed and its request cancelled; an
        unregistered task cancels nothing. */
    method RemoveBackgroundTask(file: FileObj, task: TaskId) returns (removed: Option<Request>)
      requires Valid()
      modifies this
      ensures Valid()
      ensures removed == Find(old(TableFor(file)), task)
      ensures tasks == old(tasks)[file := RemoveTask(old(TableFor(file)), task)]
      ensures events == old(events) + (if removed.Some? then [Cancel(removed.value)] else [])
      ensures nextId == old(nextId)
    {
      var table := TableFor(file);
      removed := Find(table, task);
      RemoveSpec(table, task, task);
      RemoveEntriesOlder(table, task, nextId);
      tasks := tasks[file := RemoveTask(table, task)];
      if removed.Some? {
        events := events + [Cancel(removed.value)];
      }
    }

    /** rescheduleBackgroundTask: the stored request is posted again when the task is
        registered; the table is only created when absent. */
    method RescheduleBackgroundTask(file: FileObj, task: TaskId) returns (posted: Option<Request>)
      requires Valid()
      modifies this
      ensures Valid()
      ensures posted == Find(old(TableFor(file)), task)
      ensures tasks == old(tasks)[file := old(TableFor(file))]
      ensures events == old(events) + (if posted.Some? then [Post(posted.value, Delay)] else [])
      ensures nextId == old(nextId)
    {
      var table := TableFor(file);
      tasks := tasks[file := table];
      posted := Find(table, task);
      if posted.Some? {
        events := events + [Post(posted.value, Delay)];
      }
    }

    /** scheduleBackgroundTasks: every request registered for the file is posted once, in
        table order; nothing is posted for other files. */
    method ScheduleBackgroundTasks(file: FileObj)
      requires Valid()
      modifies this
      ensures Valid()
      ensures tasks == old(tasks)[file := old(TableFor(file))]
      ensures events == old(events) + PostsOf(tasks[file])
      ensures nextId == old(nextId)
    {
      var table := TableFor(file);
      tasks := tasks[file := table];
      var k := 0;
      while k < |table|
        invariant 0 <= k <= |table|
        invariant tasks == old(tasks)[file := table] && nextId == old(nextId)
        invariant events == old(events) + PostsOf(table[..k])
      {
        assert PostsOf(table[..k + 1]) == PostsOf(table[..k]) + [Post(table[k].request, Delay)];
        events := events + [Post(table[k].request, Delay)];
        k := k + 1;
      }
      assert table[..k] == table;
    }
  }

  lemma {:induction false} PutEntriesOlder(table: seq<Entry>, t: TaskId, r: Request, bound: nat)
    requires r.id < bound
    requires forall i :: 0 <= i < |table| ==> table[i].request.id < bound
    ensures forall i :: 0 <= i < |Put(table, t, r)| ==> Put(table, t, r)[i].request.id < bound
    decreases |table|
  {
    if table != [] && table[0].task != t {
      PutEntriesOlder(table[1..], t, r, bound);
    }
  }

  lemma {:induction false} RemoveEntriesOlder(table: seq<Entry>, t: TaskId, bound: nat)
    requires forall i :: 0 <= i < |table| ==> table[i].request.id < bound
    ensures forall i :: 0 <= i < |RemoveTask(table, t)| ==> RemoveTask(table, t)[i].request.id < bound
    decreases |table|
  {
    if table != [] && table[0].task != t {
      RemoveEntriesOlder(table[1..], t, bound);
    }
  }

  /** A task added, then removed, is no longer registered, and its request is the one
      cancelled. */
  lemma AddThenRemove(table: seq<Entry>, t: TaskId, r: Request)
    requires DistinctTasks(table)
    ensures Find(Put(table, t, r), t) == Some(r)
    ensures Find(RemoveTask(Put(table, t, r), t), t).None?
  {
    PutSpec(table, t, r, t);
    RemoveSpec(Put(table, t, r), t, t);
  }

  /** Each request registered in a table is posted by schedule-all. */
  lemma RegisteredRequestsArePosted(table: seq<Entry>, t: TaskId)
    requires Find(table, t).Some?
    ensures Post(Find(table, t).value, Delay) in PostsOf(table)
  {
    var i :| 0 <= i < |table| && table[i] == Entry(t, Find(table, t).value);
    assert PostsOf(table)[i] == Post(table[i].request, Delay);
  }
}
