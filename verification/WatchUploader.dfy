/** The upload pool of the directory watcher. A path is in flight from the first
    submission until its last upload; a change during an upload sets its dirty
    bit and causes one more upload. Submitters and workers interleave freely;
    the machine covers runs before cancellation and before Close. */
module WatchUploader {

  datatype Job = Job(localPath: string, relPath: string)

  // ------------------------------------------------- the locked sections

  /** Submitting a path: in flight already, it becomes dirty; otherwise it enters
      clean and the caller must send the job. */
  function Marked(inflight: map<string, bool>, path: string): map<string, bool> {
    inflight[path := path in inflight]
  }

  function IsDirty(inflight: map<string, bool>, path: string): bool {
    path in inflight && inflight[path]
  }

  /** After an upload: a dirty path stays in flight, clean again; a clean one
      leaves. */
  function Settled(inflight: map<string, bool>, path: string): map<string, bool> {
    if IsDirty(inflight, path) then inflight[path := false] else inflight - {path}
  }

  class Uploader {
    var inflight: map<string, bool>

    constructor ()
      ensures inflight == map[]
    {
      inflight := map[];
    }

    method MarkSubmitted(path: string) returns (mustSend: bool)
      modifies this
      ensures inflight == Marked(old(inflight), path)
      ensures mustSend <==> path !in old(inflight)
      ensures path in inflight && (inflight[path] <==> !mustSend)
    {
      if path in inflight {
        inflight := inflight[path := true];
        return false;
      }
      inflight := inflight[path := false];
      mustSend := true;
    }

    method Settle(path: string) returns (needReupload: bool)
      modifies this
      ensures inflight == Settled(old(inflight), path)
      ensures needReupload <==> IsDirty(old(inflight), path)
      ensures inflight.Keys == old(inflight).Keys - if needReupload then {} else {path}
      ensures needReupload ==> !inflight[path]
    {
      needReupload := path in inflight && inflight[path];
      if needReupload {
        inflight := inflight[path := false];
      } else {
        inflight := inflight - {path};
      }
    }
  }

  // --------------------------------------------------- the whole machine

  datatype Worker = Idle | Processing(job: Job) | Requeueing(job: Job)

  /** An upload starts with the dirty bit as it finds it. */
  datatype Event = Submitted(path: string) | Started(path: string, dirty: bool)

  /** `sending` holds the jobs of submitters blocked on the channel. */
  datatype Pool = Pool(
    inflight: map<string, bool>,
    sending: seq<Job>,
    jobs: seq<Job>,
    capacity: nat,
    workers: seq<Worker>,
    log: seq<Event>)

  function Start(workers: nat, capacity: nat): Pool {
    Pool(map[], [], [], capacity, seq(workers, _ => Idle), [])
  }

  datatype Step =
    | Submit(job: Job)
    | Send(k: nat)
    | Take(w: nat)
    | Complete(w: nat)
    | Requeue(w: nat)

  predicate Enabled(p: Pool, s: Step) {
    match s
    case Submit(_) => true
    case Send(k) => k < |p.sending| && |p.jobs| < p.capacity
    case Take(w) => w < |p.workers| && p.workers[w].Idle? && p.jobs != []
    case Complete(w) => w < |p.workers| && p.workers[w].Processing?
    case Requeue(w) => w < |p.workers| && p.workers[w].Requeueing? && |p.jobs| < p.capacity
  }

  function RemoveAt<T>(s: seq<T>, k: nat): seq<T>
    requires k < |s|
  {
    s[..k] + s[k + 1..]
  }

  function Next(p: Pool, s: Step): Pool
    requires Enabled(p, s)
  {
    match s
    case Submit(job) =>
      p.(inflight := Marked(p.inflight, job.localPath),
         sending := if job.localPath in p.inflight then p.sending else p.sending + [job],
         log := p.log + [Submitted(job.localPath)])
    case Send(k) =>
      p.(sending := RemoveAt(p.sending, k), jobs := p.jobs + [p.sending[k]])
    case Take(w) =>
      p.(jobs := p.jobs[1..],
         workers := p.workers[w := Processing(p.jobs[0])],
         log := p.log + [Started(p.jobs[0].localPath, IsDirty(p.inflight, p.jobs[0].localPath))])
    case Complete(w) =>
      var job := p.workers[w].job;
      p.(inflight := Settled(p.inflight, job.localPath),
         workers := p.workers[w := if IsDirty(p.inflight, job.localPath) then Requeueing(job) else Idle])
    case Requeue(w) =>
      p.(jobs := p.jobs + [p.workers[w].job], workers := p.workers[w := Idle])
  }

  ghost predicate Leads(p: Pool, steps: seq<Step>, r: Pool)
    decreases |steps|
  {
    if steps == [] then p == r
    else Enabled(p, steps[0]) && Leads(Next(p, steps[0]), steps[1..], r)
  }

  // ------------------------------------------------------------ tokens

  function CountJobs(jobs: seq<Job>, path: string): nat {
    if jobs == [] then 0
    else CountJobs(jobs[1..], path) + if jobs[0].localPath == path then 1 else 0
  }

  lemma {:induction false} CountJobsConcat(a: seq<Job>, b: seq<Job>, path: string)
    ensures CountJobs(a + b, path) == CountJobs(a, path) + CountJobs(b, path)
  {
    if a == [] {
      assert a + b == b;
    } else {
      CountJobsConcat(a[1..], b, path);
      assert (a + b)[1..] == a[1..] + b;
    }
  }

  lemma OneJob(job: Job, path: string)
    ensures CountJobs([job], path) == if job.localPath == path then 1 else 0
  {
    assert [job][1..] == [];
  }

  lemma CountJobsRemove(jobs: seq<Job>, k: nat, path: string)
    requires k < |jobs|
    ensures CountJobs(RemoveAt(jobs, k), path) == CountJobs(jobs, path) - CountJobs([jobs[k]], path)
  {
    assert jobs == jobs[..k] + ([jobs[k]] + jobs[k + 1..]);
    CountJobsConcat(jobs[..k], [jobs[k]] + jobs[k + 1..], path);
    CountJobsConcat([jobs[k]], jobs[k + 1..], path);
    CountJobsConcat(jobs[..k], jobs[k + 1..], path);
  }

  predicate Works(w: Worker, path: string) {
    w.Processing? && w.job.localPath == path
  }

  predicate Requeues(w: Worker, path: string) {
    w.Requeueing? && w.job.localPath == path
  }

  function CountWorkers(workers: seq<Worker>, which: Worker -> bool): nat {
    if workers == [] then 0
    else CountWorkers(workers[1..], which) + if which(workers[0]) then 1 else 0
  }

  lemma {:induction false} CountWorkersUpdate(workers: seq<Worker>, i: nat, w: Worker, which: Worker -> bool)
    requires i < |workers|
    ensures CountWorkers(workers[i := w], which)
         == CountWorkers(workers, which) + (if which(w) then 1 else 0) - (if which(workers[i]) then 1 else 0)
    decreases |workers|
  {
    if i == 0 {
      assert workers[i := w][1..] == workers[1..];
    } else {
      CountWorkersUpdate(workers[1..], i - 1, w, which);
      assert workers[i := w][1..] == workers[1..][i - 1 := w];
    }
  }

  lemma {:induction false} TwoWorkersCount(workers: seq<Worker>, i: nat, j: nat, which: Worker -> bool)
    requires i < j < |workers| && which(workers[i]) && which(workers[j])
    ensures CountWorkers(workers, which) >= 2
    decreases |workers|
  {
    if i > 0 {
      TwoWorkersCount(workers[1..], i - 1, j - 1, which);
    } else {
      OneWorkerCounts(workers[1..], j - 1, which);
    }
  }

  lemma {:induction false} OneWorkerCounts(workers: seq<Worker>, i: nat, which: Worker -> bool)
    requires i < |workers| && which(workers[i])
    ensures CountWorkers(workers, which) >= 1
    decreases |workers|
  {
    if i > 0 {
      OneWorkerCounts(workers[1..], i - 1, which);
    }
  }

  /** Jobs of the path on their way to a worker: sent, queued or re-queued. */
  ghost function WaitingTokens(p: Pool, path: string): nat {
    CountJobs(p.sending, path) + CountJobs(p.jobs, path) + CountWorkers(p.workers, w => Requeues(w, path))
  }

  ghost function WorkingTokens(p: Pool, path: string): nat {
    CountWorkers(p.workers, w => Works(w, path))
  }

  /** The path's latest submission came after its latest start. */
  predicate Unseen(log: seq<Event>, path: string) {
    log != [] &&
    var last := log[|log| - 1];
    if last.path == path then last.Submitted? else Unseen(log[..|log| - 1], path)
  }

  /** The path's latest upload found it dirty when it started. */
  predicate BeganDirty(log: seq<Event>, path: string) {
    log != [] &&
    var last := log[|log| - 1];
    if last.path == path && last.Started? then last.dirty else BeganDirty(log[..|log| - 1], path)
  }

  function Submissions(log: seq<Event>, path: string): nat {
    if log == [] then 0
    else
      var last := log[|log| - 1];
      Submissions(log[..|log| - 1], path) + if last.path == path && last.Submitted? then 1 else 0
  }

  function Uploads(log: seq<Event>, path: string): nat {
    if log == [] then 0
    else
      var last := log[|log| - 1];
      Uploads(log[..|log| - 1], path) + if last.path == path && last.Started? then 1 else 0
  }

  lemma LogSnoc(log: seq<Event>, e: Event, path: string)
    ensures Unseen(log + [e], path) <==> if e.path == path then e.Submitted? else Unseen(log, path)
    ensures BeganDirty(log + [e], path) <==>
            if e.path == path && e.Started? then e.dirty else BeganDirty(log, path)
    ensures Submissions(log + [e], path) == Submissions(log, path) + if e.path == path && e.Submitted? then 1 else 0
    ensures Uploads(log + [e], path) == Uploads(log, path) + if e.path == path && e.Started? then 1 else 0
  {
    assert (log + [e])[..|log|] == log;
  }

  /** One token per path in flight, and none for any other; an unseen change is
      on its way to a worker, or its path is being uploaded and dirty; a path
      being uploaded is dirty only if it was found so or changed since; and each
      upload, waiting job and dirty bit has a submission of its own. */
  ghost predicate PathInv(p: Pool, path: string) {
    && WaitingTokens(p, path) + WorkingTokens(p, path) == (if path in p.inflight then 1 else 0)
    && (Unseen(p.log, path) ==>
          WaitingTokens(p, path) == 1 || (WorkingTokens(p, path) == 1 && IsDirty(p.inflight, path)))
    && (WorkingTokens(p, path) == 1 ==>
          (IsDirty(p.inflight, path) <==> Unseen(p.log, path) || BeganDirty(p.log, path)))
    && Uploads(p.log, path) + WaitingTokens(p, path) + (if IsDirty(p.inflight, path) then 1 else 0)
       <= Submissions(p.log, path)
  }

  ghost predicate PoolInv(p: Pool) {
    forall path :: PathInv(p, path)
  }

  lemma SubmitKeeps(p: Pool, job: Job, path: string)
    requires PathInv(p, path)
    ensures PathInv(Next(p, Submit(job)), path)
  {
    var next := Next(p, Submit(job));
    assert WaitingTokens(next, path)
        == WaitingTokens(p, path) + if job.localPath !in p.inflight && job.localPath == path then 1 else 0 by {
      CountJobsConcat(p.sending, [job], path);
      OneJob(job, path);
    }
    assert WorkingTokens(next, path) == WorkingTokens(p, path);
    LogSnoc(p.log, Submitted(job.localPath), path);
  }

  lemma SendKeeps(p: Pool, k: nat, path: string)
    requires PathInv(p, path) && Enabled(p, Send(k))
    ensures PathInv(Next(p, Send(k)), path)
  {
    CountJobsRemove(p.sending, k, path);
    CountJobsConcat(p.jobs, [p.sending[k]], path);
  }

  /** How replacing one worker changes both counts of a path. */
  lemma ReplaceWorker(p: Pool, w: nat, to: Worker, path: string)
    requires w < |p.workers|
    ensures var workers := p.workers[w := to];
            && CountWorkers(workers, x => Requeues(x, path))
               == CountWorkers(p.workers, x => Requeues(x, path))
                  + (if Requeues(to, path) then 1 else 0) - (if Requeues(p.workers[w], path) then 1 else 0)
            && CountWorkers(workers, x => Works(x, path))
               == CountWorkers(p.workers, x => Works(x, path))
                  + (if Works(to, path) then 1 else 0) - (if Works(p.workers[w], path) then 1 else 0)
  {
    CountWorkersUpdate(p.workers, w, to, x => Requeues(x, path));
    CountWorkersUpdate(p.workers, w, to, x => Works(x, path));
  }

  lemma TakeKeeps(p: Pool, w: nat, path: string)
    requires PathInv(p, path) && Enabled(p, Take(w))
    ensures PathInv(Next(p, Take(w)), path)
  {
    assert p.jobs == [p.jobs[0]] + p.jobs[1..];
    CountJobsConcat([p.jobs[0]], p.jobs[1..], path);
    ReplaceWorker(p, w, Processing(p.jobs[0]), path);
    LogSnoc(p.log, Started(p.jobs[0].localPath, IsDirty(p.inflight, p.jobs[0].localPath)), path);
  }

  lemma CompleteKeeps(p: Pool, w: nat, path: string)
    requires PathInv(p, path) && Enabled(p, Complete(w))
    ensures PathInv(Next(p, Complete(w)), path)
  {
    var next := Next(p, Complete(w));
    ReplaceWorker(p, w, next.workers[w], path);
    if p.workers[w].job.localPath == path {
      OneWorkerCounts(p.workers, w, x => Works(x, path));
    }
  }

  lemma RequeueKeeps(p: Pool, w: nat, path: string)
    requires PathInv(p, path) && Enabled(p, Requeue(w))
    ensures PathInv(Next(p, Requeue(w)), path)
  {
    ReplaceWorker(p, w, Idle, path);
    CountJobsConcat(p.jobs, [p.workers[w].job], path);
  }

  lemma StepKeeps(p: Pool, s: Step)
    requires PoolInv(p) && Enabled(p, s)
    ensures PoolInv(Next(p, s))
  {
    forall path ensures PathInv(Next(p, s), path) {
      assert PathInv(p, path);
      match s {
        case Submit(job) => SubmitKeeps(p, job, path);
        case Send(k) => SendKeeps(p, k, path);
        case Take(w) => TakeKeeps(p, w, path);
        case Complete(w) => CompleteKeeps(p, w, path);
        case Requeue(w) => RequeueKeeps(p, w, path);
      }
    }
  }

  lemma {:induction false} NoneBusy(n: nat, which: Worker -> bool)
    requires !which(Idle)
    ensures CountWorkers(seq(n, _ => Idle), which) == 0
  {
    if n > 0 {
      NoneBusy(n - 1, which);
      assert seq(n, _ => Idle)[1..] == seq(n - 1, _ => Idle);
    }
  }

  lemma StartInv(workers: nat, capacity: nat)
    ensures PoolInv(Start(workers, capacity))
  {
    forall path ensures PathInv(Start(workers, capacity), path) {
      NoneBusy(workers, w => Requeues(w, path));
      NoneBusy(workers, w => Works(w, path));
    }
  }

  lemma {:induction false} LeadsKeeps(p: Pool, steps: seq<Step>, r: Pool)
    requires PoolInv(p) && Leads(p, steps, r)
    ensures PoolInv(r)
    decreases |steps|
  {
    if steps != [] {
      StepKeeps(p, steps[0]);
      LeadsKeeps(Next(p, steps[0]), steps[1..], r);
    }
  }

  // ------------------------------------------------------- the theorems

  /** In every interleaving each path in flight has exactly one job, wherever it
      is, and any other path has none. */
  lemma OneTokenPerPath(workers: nat, capacity: nat, steps: seq<Step>, r: Pool, path: string)
    requires Leads(Start(workers, capacity), steps, r)
    ensures WaitingTokens(r, path) + WorkingTokens(r, path) == if path in r.inflight then 1 else 0
  {
    StartInv(workers, capacity);
    LeadsKeeps(Start(workers, capacity), steps, r);
    assert PathInv(r, path);
  }

  /** No file is ever uploaded by two workers at once. */
  lemma NeverUploadedTwiceAtOnce(workers: nat, capacity: nat, steps: seq<Step>, r: Pool, i: nat, j: nat)
    requires Leads(Start(workers, capacity), steps, r)
    requires i < j < |r.workers| && r.workers[i].Processing? && r.workers[j].Processing?
    ensures r.workers[i].job.localPath != r.workers[j].job.localPath
  {
    var path := r.workers[i].job.localPath;
    OneTokenPerPath(workers, capacity, steps, r, path);
    if r.workers[j].job.localPath == path {
      TwoWorkersCount(r.workers, i, j, w => Works(w, path));
    }
  }

  /** No change is lost: one submitted after the last upload of its path began is
      on its way to a worker, or that upload is running with the dirty bit set. */
  lemma NoLostChange(workers: nat, capacity: nat, steps: seq<Step>, r: Pool, path: string)
    requires Leads(Start(workers, capacity), steps, r) && Unseen(r.log, path)
    ensures path in r.inflight
    ensures WaitingTokens(r, path) == 1
         || (WorkingTokens(r, path) == 1 && IsDirty(r.inflight, path))
  {
    StartInv(workers, capacity);
    LeadsKeeps(Start(workers, capacity), steps, r);
    assert PathInv(r, path);
  }

  /** No upload without a cause: a path is never uploaded more often than it was
      submitted, in every interleaving. */
  lemma NoIdleUpload(workers: nat, capacity: nat, steps: seq<Step>, r: Pool, path: string)
    requires Leads(Start(workers, capacity), steps, r)
    ensures Uploads(r.log, path) <= Submissions(r.log, path)
  {
    StartInv(workers, capacity);
    LeadsKeeps(Start(workers, capacity), steps, r);
    assert PathInv(r, path);
  }

  /** A path being uploaded is dirty exactly when it was submitted since the upload
      began, or the upload already found it dirty; so one that began clean is dirty
      exactly when there is a change it has not seen. */
  lemma DirtyExactly(workers: nat, capacity: nat, steps: seq<Step>, r: Pool, i: nat)
    requires Leads(Start(workers, capacity), steps, r) && i < |r.workers| && r.workers[i].Processing?
    ensures var path := r.workers[i].job.localPath;
            IsDirty(r.inflight, path) <==> Unseen(r.log, path) || BeganDirty(r.log, path)
  {
    var path := r.workers[i].job.localPath;
    OneTokenPerPath(workers, capacity, steps, r, path);
    OneWorkerCounts(r.workers, i, w => Works(w, path));
    StartInv(workers, capacity);
    LeadsKeeps(Start(workers, capacity), steps, r);
    assert PathInv(r, path);
  }

  /** A path submitted twice before a worker takes it is dirty when its upload
      begins, and will be uploaded again although nothing came after. */
  lemma DirtyWithoutChange(job: Job) returns (r: Pool)
    ensures Leads(Start(1, 1), [Submit(job), Submit(job), Send(0), Take(0)], r)
    ensures r.workers == [Processing(job)] && IsDirty(r.inflight, job.localPath) && !Unseen(r.log, job.localPath)
  {
    var p0 := Start(1, 1);
    var p1 := Next(p0, Submit(job));
    var p2 := Next(p1, Submit(job));
    assert p2.sending == [job];
    var p3 := Next(p2, Send(0));
    assert p3.jobs == [job] && p3.workers == [Idle];
    r := Next(p3, Take(0));
    LastStep(p3, Take(0));
    MoreSteps(p2, Send(0), [Take(0)], r);
    MoreSteps(p1, Submit(job), [Send(0), Take(0)], r);
    MoreSteps(p0, Submit(job), [Submit(job), Send(0), Take(0)], r);
  }

  lemma LastStep(p: Pool, s: Step)
    requires Enabled(p, s)
    ensures Leads(p, [s], Next(p, s))
  {
    assert [s][1..] == [];
  }

  lemma MoreSteps(p: Pool, s: Step, steps: seq<Step>, r: Pool)
    requires Enabled(p, s) && Leads(Next(p, s), steps, r)
    ensures Leads(p, [s] + steps, r)
  {
    assert ([s] + steps)[1..] == steps;
  }

  lemma {:induction false} AllIdle(workers: seq<Worker>, which: Worker -> bool)
    requires !which(Idle) && forall i :: 0 <= i < |workers| ==> workers[i].Idle?
    ensures CountWorkers(workers, which) == 0
  {
    if workers != [] {
      AllIdle(workers[1..], which);
    }
  }

  /** When everything has come to rest nothing is in flight, and every submitted
      path was uploaded after its last submission. */
  lemma RestIsComplete(workers: nat, capacity: nat, steps: seq<Step>, r: Pool)
    requires Leads(Start(workers, capacity), steps, r)
    requires r.sending == [] && r.jobs == [] && forall i :: 0 <= i < |r.workers| ==> r.workers[i].Idle?
    ensures r.inflight == map[] && forall path :: !Unseen(r.log, path)
  {
    StartInv(workers, capacity);
    LeadsKeeps(Start(workers, capacity), steps, r);
    forall path ensures path !in r.inflight && !Unseen(r.log, path) {
      assert PathInv(r, path);
      AllIdle(r.workers, w => Requeues(w, path));
      AllIdle(r.workers, w => Works(w, path));
    }
  }
}
