/** The task queue: a list in arrival order, the map of all live tasks and the
    map of running ones, all behind one lock. Each method is one locked section. */
module TaskQueue {
  import opened Lists

  class Task {
    const id: string
    /** Whether the task's context is done. */
    var cancelled: bool

    constructor (id: string)
      ensures this.id == id && !cancelled
    {
      this.id, cancelled := id, false;
    }
  }

  /** How a task left the list. */
  datatype Fate = Delivered | Dropped

  /** The queue's fields, with the tasks ever accepted, in order, and the fates
      of those that have left the list. */
  datatype Queue = Queue(
    tasks: seq<Task>,
    taskMap: map<string, Task>,
    running: map<string, Task>,
    closed: bool,
    accepted: seq<Task>,
    fates: seq<Fate>)

  const NEW_QUEUE: Queue := Queue([], map[], map[], false, [], [])

  // ------------------------------------------------ what the steps do

  datatype AddResult = Added | Closed | Duplicate | AlreadyCancelled

  function AddVerdict(q: Queue, t: Task, cancelled: bool): AddResult {
    if q.closed then Closed
    else if t.id in q.taskMap then Duplicate
    else if cancelled then AlreadyCancelled
    else Added
  }

  function Append(q: Queue, t: Task): Queue {
    q.(tasks := q.tasks + [t], taskMap := q.taskMap[t.id := t], accepted := q.accepted + [t])
  }

  function DropFirst(q: Queue): Queue
    requires q.tasks != []
  {
    q.(tasks := q.tasks[1..], taskMap := q.taskMap - {q.tasks[0].id}, fates := q.fates + [Dropped])
  }

  function DeliverFirst(q: Queue): Queue
    requires q.tasks != []
  {
    q.(tasks := q.tasks[1..], running := q.running[q.tasks[0].id := q.tasks[0]], fates := q.fates + [Delivered])
  }

  /** Drops the cancelled tasks at the front. */
  function Drain(q: Queue, cancelled: set<Task>): (drained: Queue)
    ensures drained.tasks != [] ==> drained.tasks[0] !in cancelled
    decreases |q.tasks|
  {
    if q.tasks != [] && q.tasks[0] in cancelled then Drain(DropFirst(q), cancelled) else q
  }

  /** The queue after a Get, whether or not it found a task. */
  function AfterGet(q: Queue, cancelled: set<Task>): Queue {
    var d := Drain(q, cancelled);
    if d.tasks == [] then d else DeliverFirst(d)
  }

  function Finish(q: Queue, id: string): Queue {
    q.(taskMap := q.taskMap - {id}, running := q.running - {id})
  }

  // ---------------------------------------------------- the invariant

  ghost predicate DistinctIds(tasks: seq<Task>) {
    forall i, j :: 0 <= i < j < |tasks| ==> tasks[i].id != tasks[j].id
  }

  ghost predicate Queued(q: Queue, id: string) {
    exists i :: 0 <= i < |q.tasks| && q.tasks[i].id == id
  }

  /** The map of live tasks is the disjoint union of the listed and the running
      ones, and no two live tasks share an ID. */
  ghost predicate Agrees(q: Queue) {
    && DistinctIds(q.tasks)
    && (forall i :: 0 <= i < |q.tasks| ==>
          q.tasks[i].id in q.taskMap && q.taskMap[q.tasks[i].id] == q.tasks[i] && q.tasks[i].id !in q.running)
    && (forall id :: id in q.running ==>
          id in q.taskMap && q.taskMap[id] == q.running[id] && q.running[id].id == id)
    && (forall id :: id in q.taskMap ==> id in q.running || Queued(q, id))
  }

  /** In arrival order: the tasks that left the list, then those still in it. */
  ghost predicate Conserves(q: Queue) {
    && |q.fates| <= |q.accepted|
    && q.accepted[|q.fates|..] == q.tasks
  }

  ghost predicate Inv(q: Queue) {
    Agrees(q) && Conserves(q)
  }

  /** The tasks given out by Get, in the order they were accepted. */
  function DeliveredOf(accepted: seq<Task>, fates: seq<Fate>): (out: seq<Task>)
    requires |fates| <= |accepted|
  {
    if fates == [] then []
    else
      var n := |fates| - 1;
      DeliveredOf(accepted, fates[..n]) + if fates[n].Delivered? then [accepted[n]] else []
  }

  lemma {:induction false} DeliveredOfLonger(accepted: seq<Task>, more: seq<Task>, fates: seq<Fate>)
    requires |fates| <= |accepted|
    ensures DeliveredOf(accepted + more, fates) == DeliveredOf(accepted, fates)
  {
    if fates != [] {
      DeliveredOfLonger(accepted, more, fates[..|fates| - 1]);
    }
  }

  // ------------------------------------------- what every step keeps

  lemma AppendKeeps(q: Queue, t: Task)
    requires Inv(q) && t.id !in q.taskMap
    ensures Inv(Append(q, t))
  {
    AppendAgrees(q, t);
    AppendConserves(q, t);
  }

  lemma AppendConserves(q: Queue, t: Task)
    requires Conserves(q)
    ensures Conserves(Append(q, t))
  {
    assert (q.accepted + [t])[|q.fates|..] == q.accepted[|q.fates|..] + [t];
  }

  lemma AppendAgrees(q: Queue, t: Task)
    requires Agrees(q) && t.id !in q.taskMap
    ensures Agrees(Append(q, t))
  {
    var r := Append(q, t);
    forall id | id in r.taskMap ensures id in r.running || Queued(r, id) {
      if id == t.id {
        assert r.tasks[|q.tasks|].id == id;
      } else if id !in q.running {
        var i :| 0 <= i < |q.tasks| && q.tasks[i].id == id;
        assert r.tasks[i].id == id;
      }
    }
  }

  lemma PopConserves(q: Queue)
    requires Conserves(q) && q.tasks != []
    ensures Conserves(DropFirst(q)) && Conserves(DeliverFirst(q))
    ensures |q.fates| < |q.accepted| && q.accepted[|q.fates|] == q.tasks[0]
  {
    assert q.accepted[|q.fates| + 1..] == q.accepted[|q.fates|..][1..];
    assert q.accepted[|q.fates|] == q.accepted[|q.fates|..][0];
  }

  lemma RestIsQueued(q: Queue, id: string)
    requires q.tasks != [] && Queued(q, id) && id != q.tasks[0].id
    ensures exists i :: 0 <= i < |q.tasks[1..]| && q.tasks[1..][i].id == id
  {
    var i :| 0 <= i < |q.tasks| && q.tasks[i].id == id;
    assert q.tasks[1..][i - 1].id == id;
  }

  lemma DropKeeps(q: Queue)
    requires Inv(q) && q.tasks != []
    ensures Inv(DropFirst(q))
  {
    var r := DropFirst(q);
    PopConserves(q);
    forall id | id in r.taskMap && id !in r.running ensures Queued(r, id) {
      RestIsQueued(q, id);
    }
    forall i | 0 <= i < |r.tasks|
      ensures r.tasks[i].id in r.taskMap && r.taskMap[r.tasks[i].id] == r.tasks[i] && r.tasks[i].id !in r.running
    {
      assert r.tasks[i] == q.tasks[i + 1];
    }
  }

  lemma DeliverKeeps(q: Queue)
    requires Inv(q) && q.tasks != []
    ensures Inv(DeliverFirst(q)) && q.tasks[0].id !in q.running
  {
    var r := DeliverFirst(q);
    PopConserves(q);
    forall id | id in r.taskMap && id !in r.running ensures Queued(r, id) {
      RestIsQueued(q, id);
    }
    forall i | 0 <= i < |r.tasks|
      ensures r.tasks[i].id in r.taskMap && r.taskMap[r.tasks[i].id] == r.tasks[i] && r.tasks[i].id !in r.running
    {
      assert r.tasks[i] == q.tasks[i + 1];
    }
  }

  /** `d` is `q` after some cancelled tasks left the front of the list. */
  ghost predicate DroppedInto(q: Queue, d: Queue, cancelled: set<Task>) {
    && Inv(q) && Inv(d)
    && d.accepted == q.accepted && d.running == q.running && d.closed == q.closed
    && |q.fates| <= |d.fates|
    && (forall k :: 0 <= k < |q.fates| ==> d.fates[k] == q.fates[k])
    && (forall k :: |q.fates| <= k < |d.fates| ==> d.fates[k] == Dropped && q.accepted[k] in cancelled)
    && DeliveredOf(d.accepted, d.fates) == DeliveredOf(q.accepted, q.fates)
  }

  /** Dropping stops at the first task that is not cancelled, or at the end. */
  lemma {:induction false} DrainFindsFirst(q: Queue, cancelled: set<Task>) returns (n: nat)
    ensures n <= |q.tasks| && Drain(q, cancelled).tasks == q.tasks[n..]
    ensures forall i :: 0 <= i < n ==> q.tasks[i] in cancelled
    ensures n < |q.tasks| ==> q.tasks[n] !in cancelled
    decreases |q.tasks|
  {
    if q.tasks != [] && q.tasks[0] in cancelled {
      var m := DrainFindsFirst(DropFirst(q), cancelled);
      n := m + 1;
    } else {
      n := 0;
    }
  }

  lemma DropOne(q: Queue, cancelled: set<Task>)
    requires Inv(q) && q.tasks != [] && q.tasks[0] in cancelled
    ensures DroppedInto(q, DropFirst(q), cancelled)
  {
    DropKeeps(q);
    PopConserves(q);
    assert DropFirst(q).fates[..|q.fates|] == q.fates;
  }

  lemma {:induction false} DrainKeeps(q: Queue, cancelled: set<Task>)
    requires Inv(q)
    ensures DroppedInto(q, Drain(q, cancelled), cancelled)
    decreases |q.tasks|
  {
    if q.tasks != [] && q.tasks[0] in cancelled {
      DropOne(q, cancelled);
      DrainKeeps(DropFirst(q), cancelled);
      DroppedTwice(q, DropFirst(q), Drain(q, cancelled), cancelled);
    }
  }

  lemma DroppedTwice(q: Queue, d: Queue, e: Queue, cancelled: set<Task>)
    requires DroppedInto(q, d, cancelled) && DroppedInto(d, e, cancelled)
    ensures DroppedInto(q, e, cancelled)
  {
  }

  /** Get takes the first task that is not cancelled; the ones it passes are
      dropped, and it finds nothing only when every listed one is cancelled. */
  lemma GetKeeps(q: Queue, cancelled: set<Task>)
    requires Inv(q)
    ensures var d, r := Drain(q, cancelled), AfterGet(q, cancelled);
            && Inv(r) && r.accepted == q.accepted && r.closed == q.closed
            && (forall k :: |q.fates| <= k < |d.fates| ==> r.fates[k] == Dropped && q.accepted[k] in cancelled)
            && (if d.tasks == [] then
                  && r.running == q.running && |r.fates| == |r.accepted|
                  && DeliveredOf(r.accepted, r.fates) == DeliveredOf(q.accepted, q.fates)
                else
                  && d.tasks[0] == q.accepted[|d.fates|] && d.tasks[0] !in cancelled
                  && r.running == q.running[d.tasks[0].id := d.tasks[0]] && d.tasks[0].id !in q.running
                  && DeliveredOf(r.accepted, r.fates) == DeliveredOf(q.accepted, q.fates) + [d.tasks[0]])
  {
    DrainKeeps(q, cancelled);
    var d := Drain(q, cancelled);
    if d.tasks != [] {
      DeliverKeeps(d);
      DeliveredOfNext(d);
    }
  }

  lemma DeliveredOfNext(q: Queue)
    requires Conserves(q) && q.tasks != []
    ensures var r := DeliverFirst(q);
            && |q.fates| < |q.accepted| && q.accepted[|q.fates|] == q.tasks[0]
            && |r.fates| <= |r.accepted| && (forall k :: 0 <= k < |q.fates| ==> r.fates[k] == q.fates[k])
            && DeliveredOf(r.accepted, r.fates) == DeliveredOf(q.accepted, q.fates) + [q.tasks[0]]
  {
    PopConserves(q);
    assert (q.fates + [Delivered])[..|q.fates|] == q.fates;
  }

  /** Releasing an ID keeps the list and the maps in agreement exactly when the
      ID is not that of a listed task. */
  lemma FinishKeepsIffNotQueued(q: Queue, id: string)
    requires Inv(q)
    ensures Inv(Finish(q, id)) <==> !Queued(q, id)
  {
    var r := Finish(q, id);
    if Queued(q, id) {
      var i :| 0 <= i < |q.tasks| && q.tasks[i].id == id;
      assert r.tasks[i].id !in r.taskMap;
    } else {
      forall other | other in r.taskMap && other !in r.running ensures Queued(r, other) {
        assert Queued(q, other);
        var i :| 0 <= i < |q.tasks| && q.tasks[i].id == other;
        assert r.tasks[i].id == other;
      }
    }
  }

  lemma RunningIsNotQueued(q: Queue, id: string)
    requires Inv(q) && id in q.running
    ensures !Queued(q, id)
  {
  }

  // ------------------------------------------------ over any history

  datatype Op =
    | Add(t: Task, isCancelled: bool)
    | Get(cancelled: set<Task>)
    | Done(id: string)
    | Close

  function Apply(q: Queue, op: Op): Queue {
    match op
    case Add(t, isCancelled) => if AddVerdict(q, t, isCancelled).Added? then Append(q, t) else q
    case Get(cancelled) => AfterGet(q, cancelled)
    case Done(id) => Finish(q, id)
    case Close => q.(closed := true)
  }

  function AfterOps(ops: seq<Op>): Queue {
    if ops == [] then NEW_QUEUE else Apply(AfterOps(ops[..|ops| - 1]), ops[|ops| - 1])
  }

  /** Done is called only for IDs that Get has given out and that are running. */
  ghost predicate Disciplined(ops: seq<Op>) {
    forall k :: 0 <= k < |ops| && ops[k].Done? ==> ops[k].id in AfterOps(ops[..k]).running
  }

  lemma {:induction false} QueueInvariant(ops: seq<Op>)
    requires Disciplined(ops)
    ensures Inv(AfterOps(ops))
  {
    if ops != [] {
      var n := |ops| - 1;
      var q, op := AfterOps(ops[..n]), ops[n];
      DisciplinedBefore(ops);
      QueueInvariant(ops[..n]);
      match op {
        case Add(t, isCancelled) =>
          if AddVerdict(q, t, isCancelled).Added? {
            AppendKeeps(q, t);
          }
        case Get(cancelled) => GetKeeps(q, cancelled);
        case Done(id) =>
          RunningIsNotQueued(q, id);
          FinishKeepsIffNotQueued(q, id);
        case Close =>
      }
    }
  }

  ghost predicate SeenCancelled(ops: seq<Op>, t: Task) {
    exists j :: 0 <= j < |ops| && ops[j].Get? && t in ops[j].cancelled
  }

  /** A task is dropped only if some Get found it cancelled. */
  lemma {:induction false} DroppedWereCancelled(ops: seq<Op>)
    requires Disciplined(ops)
    ensures var q := AfterOps(ops);
            |q.fates| <= |q.accepted| &&
            forall k :: 0 <= k < |q.fates| && q.fates[k].Dropped? ==> SeenCancelled(ops, q.accepted[k])
  {
    QueueInvariant(ops);
    if ops != [] {
      var n := |ops| - 1;
      var front, op := ops[..n], ops[n];
      DisciplinedBefore(ops);
      DroppedWereCancelled(front);
      QueueInvariant(front);
      var q, r := AfterOps(front), AfterOps(ops);
      FatesGrow(q, op);
      forall k | 0 <= k < |r.fates| && r.fates[k].Dropped? ensures SeenCancelled(ops, r.accepted[k]) {
        if k < |q.fates| {
          var j :| 0 <= j < |front| && front[j].Get? && q.accepted[k] in front[j].cancelled;
          assert ops[j] == front[j];
        } else {
          assert op.Get? && r.accepted[k] in ops[n].cancelled;
        }
      }
    }
  }

  /** A step keeps the fates and decides others only in a Get, dropping only
      cancelled tasks. */
  lemma FatesGrow(q: Queue, op: Op)
    requires Inv(q)
    ensures var r := Apply(q, op);
            && |q.fates| <= |r.fates|
            && (forall k :: 0 <= k < |q.fates| ==> r.fates[k] == q.fates[k])
            && (forall k :: 0 <= k < |q.accepted| && k < |r.accepted| ==> r.accepted[k] == q.accepted[k])
            && (!op.Get? ==> r.fates == q.fates)
            && (op.Get? ==> forall k :: |q.fates| <= k < |r.fates| && r.fates[k].Dropped? ==>
                  k < |r.accepted| && r.accepted[k] in op.cancelled)
  {
    if op.Get? {
      var d := Drain(q, op.cancelled);
      DrainKeeps(q, op.cancelled);
      if d.tasks != [] {
        DeliveredOfNext(d);
      }
    }
  }

  lemma DisciplinedBefore(ops: seq<Op>)
    requires Disciplined(ops) && ops != []
    ensures Disciplined(ops[..|ops| - 1])
  {
    var front := ops[..|ops| - 1];
    forall k | 0 <= k < |front| && front[k].Done? ensures front[k].id in AfterOps(front[..k]).running {
      assert front[..k] == ops[..k] && front[k] == ops[k];
    }
  }

  ghost predicate CloseCalled(ops: seq<Op>) {
    exists k :: 0 <= k < |ops| && ops[k].Close?
  }

  /** The tasks that were offered before any Close, with a live context, and with
      an ID that no live task had, in the order they were offered. */
  ghost function Admitted(ops: seq<Op>): seq<Task> {
    if ops == [] then []
    else
      var front, op := ops[..|ops| - 1], ops[|ops| - 1];
      Admitted(front) +
      if op.Add? && !CloseCalled(front) && op.t.id !in AfterOps(front).taskMap && !op.isCancelled then [op.t] else []
  }

  /** Those, and no others, are accepted. */
  lemma {:induction false} AcceptedAreAdmitted(ops: seq<Op>)
    ensures AfterOps(ops).accepted == Admitted(ops)
    ensures AfterOps(ops).closed <==> CloseCalled(ops)
  {
    if ops != [] {
      var front, op := ops[..|ops| - 1], ops[|ops| - 1];
      AcceptedAreAdmitted(front);
      if op.Get? {
        DrainAccepts(AfterOps(front), op.cancelled);
      }
      CloseCalledNow(ops);
    }
  }

  lemma CloseCalledNow(ops: seq<Op>)
    requires ops != []
    ensures CloseCalled(ops) <==> CloseCalled(ops[..|ops| - 1]) || ops[|ops| - 1].Close?
  {
    var front := ops[..|ops| - 1];
    if CloseCalled(front) {
      var k :| 0 <= k < |front| && front[k].Close?;
      assert ops[k].Close?;
    }
    if CloseCalled(ops) {
      var k :| 0 <= k < |ops| && ops[k].Close?;
      assert k < |front| ==> front[k].Close?;
    }
  }

  lemma {:induction false} DrainAccepts(q: Queue, cancelled: set<Task>)
    ensures Drain(q, cancelled).accepted == q.accepted && Drain(q, cancelled).closed == q.closed
    decreases |q.tasks|
  {
    if q.tasks != [] && q.tasks[0] in cancelled {
      DrainAccepts(DropFirst(q), cancelled);
    }
  }

  lemma {:induction false} CountFates(accepted: seq<Task>, fates: seq<Fate>)
    requires |fates| <= |accepted|
    ensures |DeliveredOf(accepted, fates)| + |Filter((f: Fate) => f == Dropped, fates)| == |fates|
  {
    if fates != [] {
      var n := |fates| - 1;
      CountFates(accepted, fates[..n]);
      assert fates == fates[..n] + [fates[n]];
      FilterConcat((f: Fate) => f == Dropped, fates[..n], [fates[n]]);
    }
  }

  /** Nothing is lost or invented: the accepted tasks are the delivered, the
      dropped and the listed ones, the list is the tail of the arrivals, and a
      dropped task was found cancelled. */
  lemma Conservation(ops: seq<Op>)
    requires Disciplined(ops)
    ensures var q := AfterOps(ops);
            && |q.fates| <= |q.accepted|
            && q.accepted == q.accepted[..|q.fates|] + q.tasks
            && |q.accepted| == |DeliveredOf(q.accepted, q.fates)|
                               + |Filter((f: Fate) => f == Dropped, q.fates)| + |q.tasks|
            && (forall k :: 0 <= k < |q.fates| && q.fates[k].Dropped? ==> SeenCancelled(ops, q.accepted[k]))
  {
    QueueInvariant(ops);
    DroppedWereCancelled(ops);
    var q := AfterOps(ops);
    CountFates(q.accepted, q.fates);
  }

  // ---------------------------------------------------------- the class

  datatype GetResult = Got(task: Task) | QueueClosed | Waiting

  class TaskQueue {
    var tasks: seq<Task>
    var taskMap: map<string, Task>
    var runningTaskMap: map<string, Task>
    var closed: bool
    ghost var accepted: seq<Task>
    ghost var fates: seq<Fate>

    ghost function State(): Queue
      reads this
    {
      Queue(tasks, taskMap, runningTaskMap, closed, accepted, fates)
    }

    ghost predicate Valid()
      reads this
    {
      Inv(State())
    }

    /** The listed tasks whose context is done. */
    ghost function CancelledTasks(): set<Task>
      reads this, tasks
    {
      set t | t in tasks && t.cancelled
    }

    constructor ()
      ensures Valid() && State() == NEW_QUEUE
    {
      tasks, taskMap, runningTaskMap, closed := [], map[], map[], false;
      accepted, fates := [], [];
    }

    method Add(t: Task) returns (result: AddResult)
      requires Valid()
      modifies this
      ensures Valid()
      ensures result.Added? <==> !old(closed) && t.id !in old(taskMap) && !t.cancelled
      ensures result.Closed? <==> old(closed)
      ensures result.Duplicate? <==> !old(closed) && t.id in old(taskMap)
      ensures result.AlreadyCancelled? <==> !old(closed) && t.id !in old(taskMap) && t.cancelled
      ensures result == AddVerdict(old(State()), t, t.cancelled)
      ensures if result.Added? then
                && tasks == old(tasks) + [t] && taskMap == old(taskMap)[t.id := t] && accepted == old(accepted) + [t]
                && runningTaskMap == old(runningTaskMap) && closed == old(closed) && fates == old(fates)
              else State() == old(State())
    {
      if closed {
        return Closed;
      }
      if t.id in taskMap {
        return Duplicate;
      }
      if t.cancelled {
        return AlreadyCancelled;
      }
      AppendKeeps(State(), t);
      tasks := tasks + [t];
      taskMap := taskMap[t.id := t];
      accepted := accepted + [t];
      return Added;
    }

    /** Removes the first task of the list; a cancelled one releases its ID, any
        other becomes a running one. */
    method PopFirst() returns (task: Task)
      requires tasks != []
      modifies this
      ensures task == old(tasks[0])
      ensures State() == if task.cancelled then DropFirst(old(State())) else DeliverFirst(old(State()))
    {
      task := tasks[0];
      tasks := tasks[1..];
      if task.cancelled {
        taskMap := taskMap - {task.id};
        fates := fates + [Dropped];
      } else {
        runningTaskMap := runningTaskMap[task.id := task];
        fates := fates + [Delivered];
      }
    }

    /** One pass of Get under the lock: it waits when the list is empty and the
        queue still open. */
    method Get() returns (result: GetResult)
      requires Valid()
      modifies this
      ensures Valid()
      ensures State() == AfterGet(old(State()), old(CancelledTasks()))
      ensures var d := Drain(old(State()), old(CancelledTasks()));
              result == if d.tasks != [] then Got(d.tasks[0]) else if closed then QueueClosed else Waiting
    {
      ghost var done, d := CancelledTasks(), Drain(State(), CancelledTasks());
      assert Inv(AfterGet(State(), done)) by {
        GetKeeps(State(), done);
      }
      while |tasks| > 0
        invariant Drain(State(), done) == d
        invariant forall t :: t in tasks ==> (t in done <==> t.cancelled)
        decreases |tasks|
      {
        var task := PopFirst();
        if task.cancelled {
          continue;
        }
        return Got(task);
      }
      if closed {
        return QueueClosed;
      }
      result := Waiting;
    }

    /** Releases any ID; that of a listed task leaves the list and the maps in
        disagreement. */
    method Done(taskID: string)
      requires Valid()
      modifies this
      ensures State() == Finish(old(State()), taskID)
      ensures Valid() <==> !Queued(old(State()), taskID)
      ensures taskID in old(runningTaskMap) ==> Valid()
    {
      if taskID in runningTaskMap {
        RunningIsNotQueued(State(), taskID);
      }
      FinishKeepsIffNotQueued(State(), taskID);
      taskMap := taskMap - {taskID};
      runningTaskMap := runningTaskMap - {taskID};
    }

    method Close()
      requires Valid()
      modifies this
      ensures Valid() && State() == old(State()).(closed := true)
    {
      closed := true;
    }

    /** Marks the live task of that ID, listed or running, and nothing else. */
    method CancelTask(taskID: string) returns (found: bool)
      requires Valid()
      modifies if taskID in taskMap then {taskMap[taskID]} else {}
      ensures found <==> taskID in taskMap
      ensures found <==> taskID in runningTaskMap || Queued(State(), taskID)
      ensures found ==> taskMap[taskID].cancelled
      ensures Valid()
    {
      found := taskID in taskMap;
      if found {
        taskMap[taskID].cancelled := true;
      } else {
        found := taskID in runningTaskMap;
      }
    }

    method ActiveLength() returns (count: nat)
      requires Valid()
      ensures count == |Active(tasks)|
    {
      count := 0;
      for k := 0 to |tasks|
        invariant count == |Active(tasks[..k])|
      {
        assert tasks[..k + 1][..k] == tasks[..k];
        if !tasks[k].cancelled {
          count := count + 1;
        }
      }
      assert tasks[..|tasks|] == tasks;
    }

    /** The listed tasks that are not cancelled, in the order of addition. */
    method QueuedTasks() returns (infos: seq<Task>)
      requires Valid()
      ensures infos == Active(tasks)
      ensures forall i :: 0 <= i < |infos| ==> infos[i] in tasks && !infos[i].cancelled
      ensures forall i :: 0 <= i < |tasks| && !tasks[i].cancelled ==> tasks[i] in infos
    {
      ghost var at := ActiveInOrder(tasks);
      infos := [];
      for k := 0 to |tasks|
        invariant infos == Active(tasks[..k])
      {
        assert tasks[..k + 1][..k] == tasks[..k];
        if !tasks[k].cancelled {
          infos := infos + [tasks[k]];
        }
      }
      assert tasks[..|tasks|] == tasks;
      forall i | 0 <= i < |tasks| && !tasks[i].cancelled ensures tasks[i] in infos {
        assert i in at;
      }
    }
  }

  function Active(tasks: seq<Task>): (active: seq<Task>)
    reads tasks
  {
    if tasks == [] then []
    else
      var n := |tasks| - 1;
      Active(tasks[..n]) + if tasks[n].cancelled then [] else [tasks[n]]
  }

  /** Where the listed tasks stand: in ascending order, at the positions that hold
      a task which is not cancelled, and at all of those. */
  lemma {:induction false} ActiveInOrder(tasks: seq<Task>) returns (at: seq<int>)
    ensures |at| == |Active(tasks)| && forall i, j :: 0 <= i < j < |at| ==> at[i] < at[j]
    ensures forall i :: 0 <= i < |at| ==>
              0 <= at[i] < |tasks| && Active(tasks)[i] == tasks[at[i]] && !tasks[at[i]].cancelled
    ensures forall k :: 0 <= k < |tasks| && !tasks[k].cancelled ==> k in at
  {
    if tasks == [] {
      at := [];
    } else {
      var n := |tasks| - 1;
      var front := ActiveInOrder(tasks[..n]);
      if tasks[n].cancelled {
        at := front;
      } else {
        at := front + [n];
      }
      forall k | 0 <= k < |tasks| && !tasks[k].cancelled ensures k in at {
        assert k < n ==> tasks[..n][k] == tasks[k] && k in front;
      }
    }
  }
}
