/** The workers of the task pool as a state machine: any number of workers step
    in any interleaving with callers that add, cancel and close. */
module WorkerPool {
  import opened Lists
  import opened TaskQueue

  /** Where a worker stands in its loop. */
  datatype Worker =
    | Outside                     // about to take a semaphore slot
    | Asking                      // holds a slot, wants a task
    | Holding(task: Task)         // Get returned the task
    | Begun(task: Task)           // the start event is out
    | Executed(task: Task)        // the task's Execute returned
    | Announced(task: Task)       // the done event is out
    | Leaving                     // the task's ID is released
    | Stopped                     // Get reported a closed queue

  datatype Event = StartEvent(task: Task, worker: nat) | DoneEvent(task: Task, worker: nat)

  datatype Pool = Pool(
    queue: Queue,
    cancelled: set<Task>,
    workers: seq<Worker>,
    slotsTaken: nat,
    events: seq<Event>)

  function Start(n: nat): Pool {
    Pool(NEW_QUEUE, {}, seq(n, _ => Outside), 0, [])
  }

  datatype Step =
    | AddTask(t: Task)
    | CancelContext(t: Task)
    | CloseQueue
    | TakeSlot(i: nat)
    | GetTask(i: nat)
    | EmitStart(i: nat)
    | Execute(i: nat)
    | EmitDone(i: nat)
    | Release(i: nat)
    | FreeSlot(i: nat)

  function HasTask(w: Worker): bool {
    w.Holding? || w.Begun? || w.Executed? || w.Announced?
  }

  /** The semaphore holds as many slots as there are workers; every task added is
      a new object. */
  ghost predicate Enabled(p: Pool, s: Step) {
    match s
    case AddTask(t) => t !in p.queue.accepted
    case CancelContext(_) => true
    case CloseQueue => true
    case TakeSlot(i) => i < |p.workers| && p.workers[i].Outside? && p.slotsTaken < |p.workers|
    case GetTask(i) => i < |p.workers| && p.workers[i].Asking?
    case EmitStart(i) => i < |p.workers| && p.workers[i].Holding?
    case Execute(i) => i < |p.workers| && p.workers[i].Begun?
    case EmitDone(i) => i < |p.workers| && p.workers[i].Executed?
    case Release(i) => i < |p.workers| && p.workers[i].Announced?
    case FreeSlot(i) => i < |p.workers| && p.workers[i].Leaving? && p.slotsTaken > 0
  }

  function Move(p: Pool, i: nat, w: Worker): Pool
    requires i < |p.workers|
  {
    p.(workers := p.workers[i := w])
  }

  /** The outcome of one pass of Get for worker `i`: it may go on waiting. */
  ghost function AfterGetBy(p: Pool, i: nat): Pool
    requires i < |p.workers|
  {
    var d := Drain(p.queue, p.cancelled);
    var q := AfterGet(p.queue, p.cancelled);
    var w := if d.tasks != [] then Holding(d.tasks[0]) else if q.closed then Stopped else Asking;
    Move(p.(queue := q), i, w)
  }

  ghost function Next(p: Pool, s: Step): Pool
    requires Enabled(p, s)
  {
    match s
    case AddTask(t) =>
      if AddVerdict(p.queue, t, t in p.cancelled).Added? then p.(queue := Append(p.queue, t)) else p
    case CancelContext(t) => p.(cancelled := p.cancelled + {t})
    case CloseQueue => p.(queue := p.queue.(closed := true))
    case TakeSlot(i) => Move(p.(slotsTaken := p.slotsTaken + 1), i, Asking)
    case GetTask(i) => AfterGetBy(p, i)
    case EmitStart(i) =>
      Move(p.(events := p.events + [StartEvent(p.workers[i].task, i)]), i, Begun(p.workers[i].task))
    case Execute(i) => Move(p, i, Executed(p.workers[i].task))
    case EmitDone(i) =>
      Move(p.(events := p.events + [DoneEvent(p.workers[i].task, i)]), i, Announced(p.workers[i].task))
    case Release(i) => Move(p.(queue := Finish(p.queue, p.workers[i].task.id)), i, Leaving)
    case FreeSlot(i) => Move(p.(slotsTaken := p.slotsTaken - 1), i, Outside)
  }

  /** `steps` lead from `p` to `r`, each enabled when taken. */
  ghost predicate Leads(p: Pool, steps: seq<Step>, r: Pool)
    decreases |steps|
  {
    if steps == [] then p == r
    else Enabled(p, steps[0]) && Leads(Next(p, steps[0]), steps[1..], r)
  }

  // ---------------------------------------------------------- invariant

  /** The events about one task, in order. */
  function About(events: seq<Event>, t: Task): (about: seq<Event>) {
    if events == [] then []
    else
      var k := |events| - 1;
      About(events[..k], t) + if events[k].task == t then [events[k]] else []
  }

  /** What worker `i` must have announced about the task it has. */
  function Expected(w: Worker, i: nat): seq<Event>
    requires HasTask(w)
  {
    match w
    case Holding(_) => []
    case Begun(t) => [StartEvent(t, i)]
    case Executed(t) => [StartEvent(t, i)]
    case Announced(t) => [StartEvent(t, i), DoneEvent(t, i)]
  }

  function TaskOf(w: Worker): Option<Task> {
    if HasTask(w) then Some(w.task) else None
  }

  /** The task each worker has, if any. */
  function HeldTasks(workers: seq<Worker>): (held: seq<Option<Task>>)
    ensures |held| == |workers|
    ensures forall i :: 0 <= i < |workers| ==> held[i] == TaskOf(workers[i])
  {
    seq(|workers|, i requires 0 <= i < |workers| => TaskOf(workers[i]))
  }

  ghost predicate HeldId(held: seq<Option<Task>>, id: string) {
    exists i :: 0 <= i < |held| && held[i].Some? && held[i].value.id == id
  }

  /** Running tasks and workers with a task are in one-to-one correspondence. */
  ghost predicate Matched(running: map<string, Task>, held: seq<Option<Task>>) {
    && (forall i :: 0 <= i < |held| && held[i].Some? ==>
          held[i].value.id in running && running[held[i].value.id] == held[i].value)
    && (forall i, j :: 0 <= i < j < |held| && held[i].Some? && held[j].Some? ==>
          held[i].value.id != held[j].value.id)
    && (forall id :: id in running ==> HeldId(held, id))
  }

  ghost predicate Completed(events: seq<Event>, t: Task) {
    exists i: nat {:trigger StartEvent(t, i)} :: About(events, t) == [StartEvent(t, i), DoneEvent(t, i)]
  }

  /** A delivered task that a worker has was announced as far as that worker is;
      one that no worker has any more was started once and then ended once, by
      the same worker; nothing was announced about any other task. */
  ghost predicate Narrated(delivered: seq<Task>, events: seq<Event>, workers: seq<Worker>) {
    && (forall i :: 0 <= i < |workers| && HasTask(workers[i]) ==>
          workers[i].task in delivered && About(events, workers[i].task) == Expected(workers[i], i))
    && (forall t :: t in delivered && Some(t) !in HeldTasks(workers) ==> Completed(events, t))
    && (forall k :: 0 <= k < |events| ==> events[k].task in delivered)
  }

  ghost predicate Distinct(tasks: seq<Task>) {
    forall i, j :: 0 <= i < j < |tasks| ==> tasks[i] != tasks[j]
  }

  ghost predicate QueueInv(q: Queue) {
    Inv(q) && Distinct(q.accepted)
  }

  function Delivered(q: Queue): seq<Task>
    requires |q.fates| <= |q.accepted|
  {
    DeliveredOf(q.accepted, q.fates)
  }

  ghost predicate PoolInv(p: Pool) {
    && QueueInv(p.queue)
    && Matched(p.queue.running, HeldTasks(p.workers))
    && Narrated(Delivered(p.queue), p.events, p.workers)
    && StoppedLast(p.queue, p.workers)
    && p.slotsTaken == InsideCount(p.workers)
  }

  /** A worker has stopped only with the queue closed and its list empty. */
  ghost predicate StoppedLast(q: Queue, workers: seq<Worker>) {
    forall i :: 0 <= i < |workers| && workers[i].Stopped? ==> q.closed && q.tasks == []
  }

  /** Workers that hold a semaphore slot; a stopped one never gives it back. */
  function InsideCount(workers: seq<Worker>): (n: nat)
    ensures n <= |workers|
  {
    if workers == [] then 0
    else
      var k := |workers| - 1;
      InsideCount(workers[..k]) + if workers[k].Outside? then 0 else 1
  }

  // -------------------------------------------------- bookkeeping facts

  lemma {:induction false} AboutNothing(events: seq<Event>, t: Task)
    requires forall e :: e in events ==> e.task != t
    ensures About(events, t) == []
  {
    if events != [] {
      AboutNothing(events[..|events| - 1], t);
    }
  }

  lemma AboutSnoc(events: seq<Event>, e: Event, t: Task)
    ensures About(events + [e], t) == About(events, t) + if e.task == t then [e] else []
  {
    assert (events + [e])[..|events|] == events;
  }

  lemma {:induction false} InsideAfterMove(workers: seq<Worker>, i: nat, w: Worker)
    requires i < |workers|
    ensures InsideCount(workers[i := w])
         == InsideCount(workers) + (if w.Outside? then 0 else 1) - (if workers[i].Outside? then 0 else 1)
    decreases |workers|
  {
    var k := |workers| - 1;
    if i == k {
      assert workers[i := w][..k] == workers[..k];
    } else {
      InsideAfterMove(workers[..k], i, w);
      assert workers[i := w][..k] == workers[..k][i := w];
    }
  }

  lemma {:induction false} DeliveredAreAccepted(accepted: seq<Task>, fates: seq<Fate>, t: Task)
    requires |fates| <= |accepted| && t in DeliveredOf(accepted, fates)
    ensures exists k :: 0 <= k < |fates| && accepted[k] == t
  {
    var n := |fates| - 1;
    if t in DeliveredOf(accepted, fates[..n]) {
      DeliveredAreAccepted(accepted, fates[..n], t);
    } else {
      assert accepted[n] == t;
    }
  }

  // ------------------------------------------------------ step by step

  lemma AddStep(p: Pool, t: Task)
    requires PoolInv(p) && t !in p.queue.accepted && t.id !in p.queue.taskMap && !p.queue.closed
    ensures PoolInv(p.(queue := Append(p.queue, t)))
  {
    var q := p.queue;
    AppendKeeps(q, t);
    DeliveredOfLonger(q.accepted, [t], q.fates);
  }

  /** Worker `i` has no task, or the same one, before and after. */
  lemma SameTasks(workers: seq<Worker>, i: nat, w: Worker)
    requires i < |workers| && TaskOf(w) == TaskOf(workers[i])
    ensures HeldTasks(workers[i := w]) == HeldTasks(workers)
  {
  }

  ghost predicate OnlyHolder(workers: seq<Worker>, i: nat, t: Task) {
    forall j :: 0 <= j < |workers| && j != i && HasTask(workers[j]) ==> workers[j].task != t
  }

  lemma HolderIsOnly(running: map<string, Task>, workers: seq<Worker>, i: nat)
    requires Matched(running, HeldTasks(workers)) && i < |workers| && HasTask(workers[i])
    ensures OnlyHolder(workers, i, workers[i].task)
  {
    var held := HeldTasks(workers);
    forall j | 0 <= j < |workers| && j != i && HasTask(workers[j]) ensures workers[j].task != workers[i].task {
      assert held[i].Some? && held[j].Some?;
    }
  }

  /** Worker `i` announces `e` about its task. */
  lemma AnnounceKeepsStory(
    delivered: seq<Task>, events: seq<Event>, e: Event, workers: seq<Worker>, i: nat, w: Worker)
    requires Narrated(delivered, events, workers)
    requires i < |workers| && HasTask(workers[i]) && HasTask(w) && w.task == workers[i].task == e.task
    requires OnlyHolder(workers, i, w.task)
    requires Expected(w, i) == Expected(workers[i], i) + [e]
    ensures Narrated(delivered, events + [e], workers[i := w])
  {
    var next, later := workers[i := w], events + [e];
    forall j | 0 <= j < |next| && HasTask(next[j])
      ensures next[j].task in delivered && About(later, next[j].task) == Expected(next[j], j)
    {
      AboutSnoc(events, e, next[j].task);
    }
    SameTasks(workers, i, w);
    assert HeldTasks(workers)[i] == Some(w.task);
    OthersStillCompleted(delivered, events, e, HeldTasks(workers));
  }

  lemma OthersStillCompleted(delivered: seq<Task>, events: seq<Event>, e: Event, held: seq<Option<Task>>)
    requires forall t :: t in delivered && Some(t) !in held ==> Completed(events, t)
    requires Some(e.task) in held
    ensures forall t :: t in delivered && Some(t) !in held ==> Completed(events + [e], t)
  {
    forall t | t in delivered && Some(t) !in held ensures Completed(events + [e], t) {
      AboutSnoc(events, e, t);
      StillCompleted(events, events + [e], t);
    }
  }

  lemma StillCompleted(events: seq<Event>, later: seq<Event>, t: Task)
    requires Completed(events, t) && About(later, t) == About(events, t)
    ensures Completed(later, t)
  {
    var k: nat :| About(events, t) == [StartEvent(t, k), DoneEvent(t, k)];
    assert About(later, t) == [StartEvent(t, k), DoneEvent(t, k)];
  }

  /** Worker `i` goes on with its task and announces nothing. */
  lemma QuietKeepsStory(delivered: seq<Task>, events: seq<Event>, workers: seq<Worker>, i: nat, w: Worker)
    requires Narrated(delivered, events, workers)
    requires i < |workers| && HasTask(workers[i]) && HasTask(w) && w.task == workers[i].task
    requires Expected(w, i) == Expected(workers[i], i)
    ensures Narrated(delivered, events, workers[i := w])
  {
    SameTasks(workers, i, w);
  }

  /** A worker without a task changes place in its loop. */
  lemma IdleMoveKeepsStory(delivered: seq<Task>, events: seq<Event>, workers: seq<Worker>, i: nat, w: Worker)
    requires Narrated(delivered, events, workers)
    requires i < |workers| && !HasTask(workers[i]) && !HasTask(w)
    ensures Narrated(delivered, events, workers[i := w])
  {
    SameTasks(workers, i, w);
  }

  /** A delivered task becomes that of worker `i`, nothing announced yet. */
  lemma TakeKeepsStory(delivered: seq<Task>, events: seq<Event>, workers: seq<Worker>, i: nat, t: Task)
    requires Narrated(delivered, events, workers)
    requires i < |workers| && !HasTask(workers[i]) && t !in delivered
    ensures Narrated(delivered + [t], events, workers[i := Holding(t)])
  {
    AboutNothing(events, t);
    var held, next := HeldTasks(workers), HeldTasks(workers[i := Holding(t)]);
    forall u | u in delivered + [t] && Some(u) !in next ensures Completed(events, u) {
      assert next[i] == Some(t);
      assert forall j :: 0 <= j < |held| && j != i ==> held[j] == next[j];
      assert held[i] == None;
    }
  }

  /** Worker `i` lets go of its task after announcing both events. */
  lemma ReleaseKeepsStory(delivered: seq<Task>, events: seq<Event>, workers: seq<Worker>, i: nat)
    requires Narrated(delivered, events, workers)
    requires i < |workers| && workers[i].Announced?
    ensures Narrated(delivered, events, workers[i := Leaving])
    ensures Completed(events, workers[i].task)
  {
    var t := workers[i].task;
    var held, next := HeldTasks(workers), HeldTasks(workers[i := Leaving]);
    assert About(events, t) == [StartEvent(t, i), DoneEvent(t, i)];
    forall u | u in delivered && Some(u) !in next ensures Completed(events, u) {
      if u != t {
        assert forall j :: 0 <= j < |held| ==> held[j] == next[j] || held[j] == Some(t);
      }
    }
  }

  lemma TakeKeepsMatch(running: map<string, Task>, workers: seq<Worker>, i: nat, t: Task)
    requires Matched(running, HeldTasks(workers))
    requires i < |workers| && !HasTask(workers[i]) && t.id !in running
    ensures Matched(running[t.id := t], HeldTasks(workers[i := Holding(t)]))
  {
    var held, next := HeldTasks(workers), HeldTasks(workers[i := Holding(t)]);
    assert forall j :: 0 <= j < |held| && j != i ==> next[j] == held[j];
    forall id | id in running[t.id := t] ensures HeldId(next, id) {
      if id == t.id {
        assert next[i].Some?;
      } else {
        assert HeldId(held, id);
        var j :| 0 <= j < |held| && held[j].Some? && held[j].value.id == id;
        assert next[j].Some?;
      }
    }
  }

  lemma ReleaseKeepsMatch(running: map<string, Task>, workers: seq<Worker>, i: nat)
    requires Matched(running, HeldTasks(workers))
    requires i < |workers| && HasTask(workers[i])
    ensures Matched(running - {workers[i].task.id}, HeldTasks(workers[i := Leaving]))
  {
    var id := workers[i].task.id;
    var held, next := HeldTasks(workers), HeldTasks(workers[i := Leaving]);
    assert held[i].Some? && held[i].value.id == id;
    assert forall j :: 0 <= j < |held| && j != i ==> next[j] == held[j];
    forall other | other in running - {id} ensures HeldId(next, other) {
      assert HeldId(held, other);
      var j :| 0 <= j < |held| && held[j].Some? && held[j].value.id == other;
      assert next[j].Some?;
    }
  }

  /** Get found nothing: the worker waits on, or stops if the queue is closed. */
  lemma FoundNothing(p: Pool, i: nat, r: Queue, w: Worker)
    requires PoolInv(p) && i < |p.workers| && p.workers[i].Asking?
    requires w == if r.closed then Stopped else Asking
    requires QueueInv(r) && r.tasks == [] && r.closed == p.queue.closed
    requires r.running == p.queue.running && Delivered(r) == Delivered(p.queue)
    ensures PoolInv(Move(p.(queue := r), i, w))
  {
    InsideAfterMove(p.workers, i, w);
    IdleMoveKeepsStory(Delivered(r), p.events, p.workers, i, w);
    SameTasks(p.workers, i, w);
  }

  /** Get handed a task to the worker. */
  lemma TookTask(p: Pool, i: nat, r: Queue, t: Task)
    requires PoolInv(p) && i < |p.workers| && p.workers[i].Asking?
    requires QueueInv(r) && (p.queue.tasks == [] ==> r.tasks == []) && r.closed == p.queue.closed
    requires t.id !in p.queue.running && r.running == p.queue.running[t.id := t]
    requires t !in Delivered(p.queue) && Delivered(r) == Delivered(p.queue) + [t]
    ensures PoolInv(Move(p.(queue := r), i, Holding(t)))
  {
    InsideAfterMove(p.workers, i, Holding(t));
    TakeKeepsStory(Delivered(p.queue), p.events, p.workers, i, t);
    TakeKeepsMatch(p.queue.running, p.workers, i, t);
  }

  /** What one pass of Get does to the queue, told apart by what it found. */
  lemma GetOutcome(q: Queue, cancelled: set<Task>)
    requires QueueInv(q)
    ensures var d, r := Drain(q, cancelled), AfterGet(q, cancelled);
            && QueueInv(r) && r.closed == q.closed && (q.tasks == [] ==> r.tasks == [])
            && (if d.tasks == [] then r.tasks == [] && r.running == q.running && Delivered(r) == Delivered(q)
                else
                  var t := d.tasks[0];
                  && t.id !in q.running && r.running == q.running[t.id := t]
                  && t !in Delivered(q) && Delivered(r) == Delivered(q) + [t])
  {
    var d := Drain(q, cancelled);
    GetKeeps(q, cancelled);
    EmptyStaysEmpty(q, cancelled);
    if d.tasks != [] {
      DrainKeeps(q, cancelled);
      ListedIsUndelivered(d);
    }
  }

  lemma GetStep(p: Pool, i: nat)
    requires PoolInv(p) && i < |p.workers| && p.workers[i].Asking?
    ensures PoolInv(AfterGetBy(p, i))
  {
    var d, r := Drain(p.queue, p.cancelled), AfterGet(p.queue, p.cancelled);
    GetOutcome(p.queue, p.cancelled);
    if d.tasks == [] {
      FoundNothing(p, i, r, if r.closed then Stopped else Asking);
    } else {
      TookTask(p, i, r, d.tasks[0]);
    }
  }

  lemma EmptyStaysEmpty(q: Queue, cancelled: set<Task>)
    ensures q.tasks == [] ==> AfterGet(q, cancelled).tasks == []
    ensures Drain(q, cancelled).tasks == [] ==> AfterGet(q, cancelled).tasks == []
  {
  }

  lemma ListedIsUndelivered(q: Queue)
    requires QueueInv(q) && q.tasks != []
    ensures q.tasks[0] !in Delivered(q)
  {
    PopConserves(q);
    if q.tasks[0] in Delivered(q) {
      DeliveredAreAccepted(q.accepted, q.fates, q.tasks[0]);
    }
  }

  lemma AnnounceStep(p: Pool, i: nat, w: Worker, e: Event)
    requires PoolInv(p) && i < |p.workers| && HasTask(p.workers[i]) && HasTask(w)
    requires w.task == p.workers[i].task == e.task
    requires Expected(w, i) == Expected(p.workers[i], i) + [e]
    ensures PoolInv(Move(p.(events := p.events + [e]), i, w))
  {
    assert Narrated(Delivered(p.queue), p.events + [e], p.workers[i := w]) by {
      HolderIsOnly(p.queue.running, p.workers, i);
      AnnounceKeepsStory(Delivered(p.queue), p.events, e, p.workers, i, w);
    }
    MoveKeepsRest(p, i, w);
  }

  /** A move that changes no worker's task changes neither the match nor the
      slots, and stops no worker. */
  lemma MoveKeepsRest(p: Pool, i: nat, w: Worker)
    requires Matched(p.queue.running, HeldTasks(p.workers)) && StoppedLast(p.queue, p.workers)
    requires i < |p.workers| && HasTask(p.workers[i]) && HasTask(w) && w.task == p.workers[i].task
    ensures Matched(p.queue.running, HeldTasks(p.workers[i := w]))
    ensures StoppedLast(p.queue, p.workers[i := w])
    ensures InsideCount(p.workers[i := w]) == InsideCount(p.workers)
  {
    SameTasks(p.workers, i, w);
    InsideAfterMove(p.workers, i, w);
  }

  lemma StartStep(p: Pool, i: nat)
    requires PoolInv(p) && Enabled(p, EmitStart(i))
    ensures PoolInv(Next(p, EmitStart(i)))
  {
    var t := p.workers[i].task;
    AnnounceStep(p, i, Begun(t), StartEvent(t, i));
  }

  lemma DoneStep(p: Pool, i: nat)
    requires PoolInv(p) && Enabled(p, EmitDone(i))
    ensures PoolInv(Next(p, EmitDone(i)))
  {
    var t := p.workers[i].task;
    AnnounceStep(p, i, Announced(t), DoneEvent(t, i));
  }

  lemma ExecuteStep(p: Pool, i: nat)
    requires PoolInv(p) && i < |p.workers| && p.workers[i].Begun?
    ensures PoolInv(Move(p, i, Executed(p.workers[i].task)))
  {
    var w := Executed(p.workers[i].task);
    QuietKeepsStory(Delivered(p.queue), p.events, p.workers, i, w);
    MoveKeepsRest(p, i, w);
  }

  lemma ReleaseStep(p: Pool, i: nat)
    requires PoolInv(p) && i < |p.workers| && p.workers[i].Announced?
    ensures PoolInv(Move(p.(queue := Finish(p.queue, p.workers[i].task.id)), i, Leaving))
  {
    var id := p.workers[i].task.id;
    assert HeldTasks(p.workers)[i].Some?;
    RunningIsNotQueued(p.queue, id);
    FinishKeepsIffNotQueued(p.queue, id);
    ReleaseKeepsStory(Delivered(p.queue), p.events, p.workers, i);
    ReleaseKeepsMatch(p.queue.running, p.workers, i);
    InsideAfterMove(p.workers, i, Leaving);
  }

  lemma IdleStep(p: Pool, i: nat, w: Worker, slots: nat)
    requires PoolInv(p) && i < |p.workers| && !HasTask(p.workers[i]) && !HasTask(w) && !w.Stopped?
    requires slots == p.slotsTaken + (if w.Outside? then 0 else 1) - (if p.workers[i].Outside? then 0 else 1)
    ensures PoolInv(Move(p.(slotsTaken := slots), i, w))
  {
    IdleMoveKeepsStory(Delivered(p.queue), p.events, p.workers, i, w);
    SameTasks(p.workers, i, w);
    InsideAfterMove(p.workers, i, w);
  }

  lemma ClosedKeeps(q: Queue)
    requires QueueInv(q)
    ensures QueueInv(q.(closed := true))
  {
    forall id | id in q.taskMap && id !in q.running ensures Queued(q.(closed := true), id) {
      assert Queued(q, id);
      var i :| 0 <= i < |q.tasks| && q.tasks[i].id == id;
    }
  }

  /** Cancelling a context or closing the queue moves no task and no worker. */
  lemma OutsideStep(p: Pool, r: Pool)
    requires PoolInv(p)
    requires r.workers == p.workers && r.events == p.events && r.slotsTaken == p.slotsTaken
    requires r.queue == p.queue || r.queue == p.queue.(closed := true)
    ensures PoolInv(r)
  {
    assert Delivered(r.queue) == Delivered(p.queue);
    assert QueueInv(r.queue) by {
      ClosedKeeps(p.queue);
    }
    assert Matched(r.queue.running, HeldTasks(r.workers));
    assert Narrated(Delivered(r.queue), r.events, r.workers);
  }

  lemma StepKeeps(p: Pool, s: Step)
    requires PoolInv(p) && Enabled(p, s)
    ensures PoolInv(Next(p, s))
  {
    match s {
      case AddTask(t) =>
        if AddVerdict(p.queue, t, t in p.cancelled).Added? {
          AddStep(p, t);
        }
      case CancelContext(_) => OutsideStep(p, Next(p, s));
      case CloseQueue => OutsideStep(p, Next(p, s));
      case TakeSlot(i) => IdleStep(p, i, Asking, p.slotsTaken + 1);
      case GetTask(i) => GetStep(p, i);
      case EmitStart(i) => StartStep(p, i);
      case Execute(i) => ExecuteStep(p, i);
      case EmitDone(i) => DoneStep(p, i);
      case Release(i) => ReleaseStep(p, i);
      case FreeSlot(i) => IdleStep(p, i, Outside, p.slotsTaken - 1);
    }
  }

  // ------------------------------------------------------- the theorems

  lemma {:induction false} StartInv(n: nat)
    ensures PoolInv(Start(n))
  {
    if n > 0 {
      StartInv(n - 1);
      assert Start(n).workers[..n - 1] == Start(n - 1).workers;
    }
  }

  /** Every state reachable in any interleaving satisfies the invariant. */
  lemma {:induction false} LeadsKeeps(p: Pool, steps: seq<Step>, r: Pool)
    requires PoolInv(p) && Leads(p, steps, r)
    ensures PoolInv(r) && |r.workers| == |p.workers|
    decreases |steps|
  {
    if steps != [] {
      StepKeeps(p, steps[0]);
      LeadsKeeps(Next(p, steps[0]), steps[1..], r);
    }
  }

  function HeldIds(workers: seq<Worker>): (ids: set<string>)
    ensures |ids| <= |workers|
  {
    if workers == [] then {}
    else
      var k := |workers| - 1;
      var ids := HeldIds(workers[..k]);
      if HasTask(workers[k]) then
        assert |ids + {workers[k].task.id}| <= |ids| + 1;
        ids + {workers[k].task.id}
      else ids
  }

  lemma {:induction false} HeldIdsComplete(workers: seq<Worker>, i: nat)
    requires i < |workers| && HasTask(workers[i])
    ensures workers[i].task.id in HeldIds(workers)
  {
    if i < |workers| - 1 {
      HeldIdsComplete(workers[..|workers| - 1], i);
    }
  }

  lemma SubsetSize<T>(a: set<T>, b: set<T>)
    requires a <= b
    ensures |a| <= |b|
  {
    assert b == a + (b - a);
  }

  lemma {:induction false} OutsideLeavesRoom(workers: seq<Worker>, i: nat)
    requires i < |workers| && workers[i].Outside?
    ensures InsideCount(workers) < |workers|
  {
    if i < |workers| - 1 {
      OutsideLeavesRoom(workers[..|workers| - 1], i);
    }
  }

  /** A worker about to take a semaphore slot always finds one free. */
  lemma SlotIsFree(n: nat, steps: seq<Step>, r: Pool, i: nat)
    requires Leads(Start(n), steps, r) && i < |r.workers| && r.workers[i].Outside?
    ensures Enabled(r, TakeSlot(i))
  {
    StartInv(n);
    LeadsKeeps(Start(n), steps, r);
    OutsideLeavesRoom(r.workers, i);
  }

  /** With `n` workers at most `n` tasks run at once. */
  lemma AtMostNRun(n: nat, steps: seq<Step>, r: Pool)
    requires Leads(Start(n), steps, r)
    ensures |r.queue.running.Keys| <= n
  {
    StartInv(n);
    LeadsKeeps(Start(n), steps, r);
    var held := HeldTasks(r.workers);
    forall id | id in r.queue.running.Keys ensures id in HeldIds(r.workers) {
      assert HeldId(held, id);
      var i :| 0 <= i < |held| && held[i].Some? && held[i].value.id == id;
      HeldIdsComplete(r.workers, i);
    }
    SubsetSize(r.queue.running.Keys, HeldIds(r.workers));
  }

  function DeliveredSoFar(p: Pool): seq<Task> {
    if |p.queue.fates| <= |p.queue.accepted| then Delivered(p.queue) else []
  }

  /** Every task ever delivered has been announced, by one worker, as nothing,
      as started, or as started and then ended; one whose ID is released has
      been announced as both, and its ID is released by that worker's step. */
  lemma EventsInPairs(n: nat, steps: seq<Step>, r: Pool, t: Task)
    requires Leads(Start(n), steps, r) && t in DeliveredSoFar(r)
    ensures exists i: nat {:trigger StartEvent(t, i)} ::
              About(r.events, t) <= [StartEvent(t, i), DoneEvent(t, i)]
    ensures !(t.id in r.queue.running && r.queue.running[t.id] == t) ==> Completed(r.events, t)
  {
    StartInv(n);
    LeadsKeeps(Start(n), steps, r);
    var held := HeldTasks(r.workers);
    if Some(t) in held {
      var i :| 0 <= i < |held| && held[i] == Some(t);
      assert About(r.events, t) == Expected(r.workers[i], i);
      assert Expected(r.workers[i], i) <= [StartEvent(t, i), DoneEvent(t, i)];
    } else {
      assert Completed(r.events, t);
      var i: nat :| About(r.events, t) == [StartEvent(t, i), DoneEvent(t, i)];
      assert About(r.events, t) <= [StartEvent(t, i), DoneEvent(t, i)];
    }
  }

  /** The ID is released only after both events. */
  lemma ReleasedAfterDone(n: nat, steps: seq<Step>, r: Pool, i: nat)
    requires Leads(Start(n), steps, r) && Enabled(r, Release(i))
    ensures var t := r.workers[i].task;
            About(r.events, t) == [StartEvent(t, i), DoneEvent(t, i)]
            && t.id in r.queue.running && r.queue.running[t.id] == t
  {
    ReachedInv(n, steps, r);
    AnnouncedIsRunning(r, i);
  }

  lemma ReachedInv(n: nat, steps: seq<Step>, r: Pool)
    requires Leads(Start(n), steps, r)
    ensures PoolInv(r)
  {
    StartInv(n);
    LeadsKeeps(Start(n), steps, r);
  }

  lemma AnnouncedIsRunning(p: Pool, i: nat)
    requires PoolInv(p) && i < |p.workers| && p.workers[i].Announced?
    ensures var t := p.workers[i].task;
            About(p.events, t) == [StartEvent(t, i), DoneEvent(t, i)]
            && t.id in p.queue.running && p.queue.running[t.id] == t
  {
    assert HeldTasks(p.workers)[i].Some?;
  }

  /** A worker that asks gets the first listed task that is not cancelled. If
      there is none it stops when the queue is closed and asks again when it is
      not. */
  lemma AskingEnds(p: Pool, i: nat)
    requires Enabled(p, GetTask(i))
    ensures var w := Next(p, GetTask(i)).workers[i];
            && (w.Holding? <==> exists t :: t in p.queue.tasks && t !in p.cancelled)
            && (w.Stopped? <==> p.queue.closed && forall t :: t in p.queue.tasks ==> t in p.cancelled)
            && (w.Asking? <==> !p.queue.closed && forall t :: t in p.queue.tasks ==> t in p.cancelled)
            && (w.Holding? ==>
                  exists k :: 0 <= k < |p.queue.tasks| && w.task == p.queue.tasks[k] && w.task !in p.cancelled
                              && forall j :: 0 <= j < k ==> p.queue.tasks[j] in p.cancelled)
  {
    var n := DrainFindsFirst(p.queue, p.cancelled);
    DrainAccepts(p.queue, p.cancelled);
  }

  /** A worker stops only once the queue is closed and every accepted task has
      been delivered or dropped, and nothing is accepted after that. */
  lemma StopsAfterDrain(n: nat, steps: seq<Step>, r: Pool, i: nat)
    requires Leads(Start(n), steps, r) && i < |r.workers| && r.workers[i].Stopped?
    ensures r.queue.closed && |r.queue.fates| == |r.queue.accepted|
    ensures forall t :: AddVerdict(r.queue, t, false) == Closed
  {
    ReachedInv(n, steps, r);
  }
}
