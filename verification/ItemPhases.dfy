/** The life of one item of a batch task: what each report does to its phase and
    counters, and in which phase a group of items is left. */
module ItemPhases {
  import opened Lists
  import opened Totals
  import B = BatchExecution

  datatype Phase =
    | Waiting | Downloading | Transferring | Downloaded | Uploading
    | Retrying | Confirming | Completed | Failed | Stopped

  datatype Item = Item(
    phase: Phase,
    downloaded: int,
    uploaded: int,
    actualSize: int,
    retryAttempt: int,
    retryLimit: int)

  const NEW_ITEM := Item(Waiting, 0, 0, 0, 0, 0)

  datatype Event =
    | Activate(stream: bool)
    | Receive(n: int)
    | DownloadMarked
    | DownloadRecorded(size: int)
    | Upload(uploaded: int, total: int)
    | Retry(attempt: int, limit: int)
    | Failure(cancelled: bool)
    | Completion

  function Max(a: int, b: int): int {
    if a < b then b else a
  }

  ghost function After(i: Item, e: Event): Item {
    match e
    case Activate(stream) => i.(phase := if stream then Transferring else Downloading)
    case Receive(n) =>
      if n <= 0 then i
      else if i.phase == Transferring then i.(downloaded := i.downloaded + n, uploaded := i.uploaded + n)
      else i.(downloaded := i.downloaded + n)
    case DownloadMarked => i.(phase := Downloaded)
    case DownloadRecorded(size) =>
      var known := if size > 0 then size else i.actualSize;
      i.(actualSize := if known == 0 then i.downloaded else known,
         phase := if i.phase == Transferring then Transferring else Downloaded)
    case Upload(uploaded, total) =>
      if uploaded < i.uploaded && i.phase != Retrying then i
      else i.(uploaded := uploaded,
              actualSize := if total > 0 then total else i.actualSize,
              phase := if total > 0 && uploaded >= total then Confirming else Uploading)
    case Retry(attempt, limit) => i.(phase := Retrying, retryAttempt := attempt, retryLimit := limit)
    case Failure(cancelled) =>
      if i.phase in {Phase.Failed, Completed} then i else i.(phase := if cancelled then Stopped else Phase.Failed)
    case Completion =>
      i.(phase := Completed, retryAttempt := 0, retryLimit := 0,
         actualSize := if i.actualSize == 0 then Max(i.downloaded, i.uploaded) else i.actualSize)
  }

  ghost function AfterAll(i: Item, events: seq<Event>): Item {
    if events == [] then i
    else After(AfterAll(i, events[..|events| - 1]), events[|events| - 1])
  }

  /** The table of a task. Reports about an unknown item are dropped. */
  class ItemTable {
    var items: map<string, Item>

    constructor (ids: set<string>)
      ensures items == map id | id in ids :: NEW_ITEM
    {
      items := map id | id in ids :: NEW_ITEM;
    }

    method Report(id: string, e: Event)
      modifies this
      ensures items == if id in old(items) then old(items)[id := After(old(items[id]), e)] else old(items)
    {
      if id !in items {
        return;
      }
      var i := items[id];
      match e {
        case Activate(stream) =>
          i := i.(phase := if stream then Transferring else Downloading);
        case Receive(n) =>
          if n > 0 {
            i := i.(downloaded := i.downloaded + n);
            if i.phase == Transferring {
              i := i.(uploaded := i.uploaded + n);
            }
          }
        case DownloadMarked =>
          i := i.(phase := Downloaded);
        case DownloadRecorded(size) =>
          if size > 0 {
            i := i.(actualSize := size);
          }
          if i.actualSize == 0 {
            i := i.(actualSize := i.downloaded);
          }
          if i.phase != Transferring {
            i := i.(phase := Downloaded);
          }
        case Upload(uploaded, total) =>
          if uploaded < i.uploaded && i.phase != Retrying {
            return;
          }
          if total > 0 {
            i := i.(actualSize := total);
          }
          i := i.(uploaded := uploaded);
          i := i.(phase := if total > 0 && uploaded >= total then Confirming else Uploading);
        case Retry(attempt, limit) =>
          i := i.(phase := Retrying, retryAttempt := attempt, retryLimit := limit);
        case Failure(cancelled) =>
          if i.phase == Phase.Failed || i.phase == Completed {
            return;
          }
          i := i.(phase := if cancelled then Stopped else Phase.Failed);
        case Completion =>
          i := i.(phase := Completed, retryAttempt := 0, retryLimit := 0);
          if i.actualSize == 0 {
            i := i.(actualSize := Max(i.downloaded, i.uploaded));
          }
      }
      items := items[id := i];
    }

    /** The end of a task that returned an error: whatever is neither completed
        nor failed is stopped. */
    method Finish(ended: B.Outcome)
      modifies this
      ensures items.Keys == old(items).Keys
      ensures forall id :: id in items ==>
                if ended.Done? || old(items)[id].phase == Completed || old(items)[id].phase == Phase.Failed
                then items[id] == old(items)[id]
                else items[id] == old(items)[id].(phase := Stopped)
    {
      if ended.Done? {
        return;
      }
      items := map id | id in items :: Finished(items[id], ended);
    }

    /** One element from its activation to the report of its end. */
    method MarkEnd(id: string, ended: B.Outcome, done: Event)
      requires id in items && Midway(items[id].phase)
      requires done.DownloadMarked? || done.Completion?
      modifies this
      ensures id in items && items == old(items)[id := items[id]]
      ensures items[id].phase == if ended.Done? && done.DownloadMarked? then Downloaded else PhaseOf(ended)
    {
      Report(id, Activate(false));
      match ended {
        case Done => Report(id, done);
        case Failed => Report(id, Failure(false));
        case Cancelled => Report(id, Failure(true));
      }
    }

    /** Elements side by side, in whatever order they end: each reports its own
        end. */
    method MarkEnds(elems: seq<B.Element>, ended: string -> B.Outcome, done: Event)
      requires Distinct(elems) && AllMidway(items, elems)
      requires done.DownloadMarked? || done.Completion?
      modifies this
      ensures items.Keys == old(items).Keys
      ensures forall i :: 0 <= i < |elems| ==> items[elems[i].id].phase == EndPhase(ended(elems[i].id), done)
      ensures SameElsewhere(old(items), items, Ids(elems))
    {
      for k := 0 to |elems|
        invariant items.Keys == old(items).Keys
        invariant forall i :: 0 <= i < k ==> items[elems[i].id].phase == EndPhase(ended(elems[i].id), done)
        invariant forall i :: k <= i < |elems| ==> Midway(items[elems[i].id].phase)
        invariant SameElsewhere(old(items), items, Ids(elems))
      {
        MarkEnd(elems[k].id, ended(elems[k].id), done);
      }
    }

    /** The same report about each of some items. */
    method ReportAll(elems: seq<B.Element>, e: Event)
      requires Distinct(elems) && forall i :: 0 <= i < |elems| ==> elems[i].id in items
      modifies this
      ensures items.Keys == old(items).Keys
      ensures forall i :: 0 <= i < |elems| ==> items[elems[i].id] == After(old(items)[elems[i].id], e)
      ensures SameElsewhere(old(items), items, Ids(elems))
    {
      for k := 0 to |elems|
        invariant items.Keys == old(items).Keys
        invariant forall i :: 0 <= i < k ==> items[elems[i].id] == After(old(items)[elems[i].id], e)
        invariant forall i :: k <= i < |elems| ==> items[elems[i].id] == old(items)[elems[i].id]
        invariant SameElsewhere(old(items), items, Ids(elems))
      {
        Report(elems[k].id, e);
      }
    }

    method ReportLost(ok: seq<B.Element>, n: nat)
      requires n < |ok| && Distinct(ok)
      requires forall i :: 0 <= i < |ok| ==> ok[i].id in items && items[ok[i].id].phase == Downloaded
      modifies this
      ensures items.Keys == old(items).Keys && SameElsewhere(old(items), items, Ids(ok))
      ensures forall i :: 0 <= i < |ok| ==> items[ok[i].id].phase == if i == n then Phase.Failed else Downloaded
    {
      Report(ok[n].id, Failure(false));
    }

    method ReportSaved(ok: seq<B.Element>, ended: B.Outcome)
      requires Distinct(ok)
      requires forall i :: 0 <= i < |ok| ==> ok[i].id in items && items[ok[i].id].phase == Downloaded
      modifies this
      ensures items.Keys == old(items).Keys && SameElsewhere(old(items), items, Ids(ok))
      ensures forall i :: 0 <= i < |ok| ==> items[ok[i].id].phase == PhaseOf(ended)
    {
      ReportAll(ok, match ended case Done => Completion case Failed => Failure(false) case Cancelled => Failure(true));
    }

    method OpenAll(ok: seq<B.Element>, s: Surroundings) returns (n: nat)
      ensures n == Readable(ok, s)
    {
      for k := 0 to |ok|
        invariant k <= Readable(ok, s)
      {
        ReadableStops(ok, s, k);
        if s.cached(ok[k].id).None? {
          return k;
        }
      }
      n := |ok|;
    }

    /** The downloaded items: their cache files are read back one by one, and
        only if all of them can be is the batch saved. */
    method SaveItems(ok: seq<B.Element>, s: Surroundings) returns (error: B.Outcome)
      requires Distinct(ok) && forall i :: 0 <= i < |ok| ==> ok[i].id in items && items[ok[i].id].phase == Downloaded
      modifies this
      ensures items.Keys == old(items).Keys
      ensures forall i :: 0 <= i < |ok| ==> items[ok[i].id].phase == SavePhase(ok, i, s)
      ensures SameElsewhere(old(items), items, Ids(ok))
      ensures error == SaveError(ok, s)
    {
      if |ok| == 0 {
        return B.Failed;
      }
      var n := OpenAll(ok, s);
      if n < |ok| {
        ReportLost(ok, n);
        return B.Failed;
      }
      error := s.save(ok);
      ReportSaved(ok, error);
    }

    /** One batch group from download to upload. */
    method ProcessGroup(elems: seq<B.Element>, s: Surroundings, ignoreErrors: bool) returns (error: B.Outcome)
      requires Distinct(elems) && AllMidway(items, elems)
      modifies this
      ensures items.Keys == old(items).Keys && SameElsewhere(old(items), items, Ids(elems))
      ensures forall e :: e in elems ==> items[e.id].phase == LeftIn(elems, e, s, ignoreErrors)
      ensures error == GroupError(elems, s, ignoreErrors)
    {
      MarkEnds(elems, s.download, DownloadMarked);
      error := Wait(elems, s.download, s.rank, ignoreErrors);
      WaitErrorStops(elems, s.download, s.rank, ignoreErrors);
      if !error.Done? {
        return;
      }
      var ok := Successes(elems, s);
      SuccessesDistinct(elems, s);
      ghost var before := items;
      error := SaveItems(ok, s);
      GroupEndsUp(elems, s, ignoreErrors, before, items);
    }

    /** One call of the run. */
    method ProcessCall(c: B.Call, s: Surroundings, ignoreErrors: bool) returns (error: B.Outcome)
      requires Distinct(c.elems) && AllMidway(items, c.elems)
      modifies this
      ensures items.Keys == old(items).Keys && SameElsewhere(old(items), items, Ids(c.elems))
      ensures LeftAs(items, c, s, ignoreErrors)
      ensures error == CallError(c, s, ignoreErrors)
    {
      if c.asBatch {
        error := ProcessGroup(c.elems, s, ignoreErrors);
      } else {
        MarkEnds(c.elems, s.single, Completion);
        error := Wait(c.elems, s.single, s.rank, ignoreErrors);
      }
    }

    /** The whole task: calls are made in order until one ends with an error that
        counts, and after an error whatever is unfinished is stopped. If none
        does, each element is left as its call left it. At the end an item is
        midway exactly when the task ends without an error and the item's batch
        group stopped at the cache file of another one. */
    method RunTask(elems: seq<B.Element>, s: Surroundings, ignoreErrors: bool) returns (result: B.Outcome)
      requires Distinct(elems) && AllMidway(items, elems)
      modifies this
      ensures items.Keys == old(items).Keys
      ensures Result(B.Calls(B.Groups(elems)), s, ignoreErrors, result)
      ensures result.Done? ==> forall c :: c in B.Calls(B.Groups(elems)) ==> LeftAs(items, c, s, ignoreErrors)
      ensures !result.Done? ==> forall id :: id in items ==> !Midway(items[id].phase)
      ensures forall e :: e in elems ==>
                e.id in items
                && (Midway(items[e.id].phase) <==> result.Done? && SomeLost(B.Calls(B.Groups(elems)), e, s))
                && (result.Done? ==> (Midway(items[e.id].phase) <==> items[e.id].phase !in {Completed, Phase.Failed}))
    {
      var groups := B.ExecutionGroups(elems);
      ghost var all := B.Calls(groups);
      ghost var n := 0;
      var i := 0;
      assert groups[0..] == groups && all[0..] == all;
      RunStarts(elems, items, s, ignoreErrors);
      while i < |groups|
        invariant i <= |groups| && n <= |all| && B.Calls(groups[i..]) == all[n..]
        invariant items.Keys == old(items).Keys && Distinct(B.Handed(all))
        invariant Underway(all, n, items, s, ignoreErrors)
      {
        var call, end := B.NextCall(groups, i);
        assert all[n..][0] == call && all[n..][1..] == all[n + 1..];
        ghost var before := items;
        CallsApart(all, n, n);
        var error := ProcessCall(call, s, ignoreErrors);
        if B.Stops(error, ignoreErrors) {
          Finish(error);
          StoppedAt(all, n, before, s, ignoreErrors);
          return error;
        }
        RunGoesOn(all, n, before, items, s, ignoreErrors);
        i, n := end, n + 1;
      }
      assert groups[|groups|..] == [];
      RunEnds(elems, items, s, ignoreErrors);
      result := B.Done;
    }
  }

  ghost function Ids(elems: seq<B.Element>): set<string> {
    set e | e in elems :: e.id
  }

  /** Only these items differ. */
  ghost predicate SameElsewhere(before: map<string, Item>, after: map<string, Item>, ids: set<string>) {
    before.Keys == after.Keys && forall id :: id in before && id !in ids ==> after[id] == before[id]
  }

  ghost predicate AllMidway(items: map<string, Item>, elems: seq<B.Element>) {
    forall e :: e in elems ==> e.id in items && Midway(items[e.id].phase)
  }

  function EndPhase(ended: B.Outcome, done: Event): Phase {
    if ended.Done? && done.DownloadMarked? then Downloaded else PhaseOf(ended)
  }

  /** The phases after saving, when those after downloading were as they were. */
  lemma GroupEndsUp(elems: seq<B.Element>, s: Surroundings, ignoreErrors: bool,
                    before: map<string, Item>, after: map<string, Item>)
    requires Survives(elems, s, ignoreErrors)
    requires forall e :: e in elems ==>
               e.id in before && before[e.id].phase == EndPhase(s.download(e.id), DownloadMarked)
    requires var ok := Successes(elems, s);
             && Distinct(ok) && SameElsewhere(before, after, Ids(ok))
             && forall i :: 0 <= i < |ok| ==> ok[i].id in after && after[ok[i].id].phase == SavePhase(ok, i, s)
    ensures forall e :: e in elems ==> e.id in after && after[e.id].phase == LeftIn(elems, e, s, ignoreErrors)
    ensures forall id :: id in before && id !in Ids(elems) ==> id in after && after[id] == before[id]
  {
    var ok := Successes(elems, s);
    assert forall id :: id in Ids(ok) ==> id in Ids(elems) && s.download(id).Done?;
    forall e | e in elems
      ensures e.id in after && after[e.id].phase == LeftIn(elems, e, s, ignoreErrors)
    {
      if s.download(e.id).Done? {
        var i :| 0 <= i < |ok| && ok[i] == e;
        LeftInAsSaved(elems, e, s, ignoreErrors, i);
      } else {
        assert after[e.id] == before[e.id];
      }
    }
  }

  lemma LeftInAsSaved(elems: seq<B.Element>, e: B.Element, s: Surroundings, ignoreErrors: bool, i: nat)
    requires Survives(elems, s, ignoreErrors) && e in elems && s.download(e.id).Done?
    requires var ok := Successes(elems, s); i < |ok| && ok[i] == e && Distinct(ok)
    ensures LeftIn(elems, e, s, ignoreErrors) == SavePhase(Successes(elems, s), i, s)
  {
    var ok := Successes(elems, s);
    var n := Readable(ok, s);
    assert n < |ok| && i != n ==> ok[n].id != ok[i].id;
  }

  lemma {:induction false} ReadableStops(ok: seq<B.Element>, s: Surroundings, k: nat)
    requires k < |ok| && k <= Readable(ok, s)
    ensures s.cached(ok[k].id).None? <==> k == Readable(ok, s)
  {
  }

  /** The phase a downloaded item is left in by reading back and saving. */
  function SavePhase(ok: seq<B.Element>, i: nat, s: Surroundings): Phase
    requires i < |ok|
  {
    var n := Readable(ok, s);
    if n == |ok| then PhaseOf(s.save(ok)) else if i == n then Phase.Failed else Downloaded
  }

  function SaveError(ok: seq<B.Element>, s: Surroundings): B.Outcome {
    if ok == [] || Readable(ok, s) < |ok| then B.Failed else s.save(ok)
  }

  function Finished(i: Item, ended: B.Outcome): Item {
    if ended.Done? || i.phase in {Phase.Failed, Completed} then i else i.(phase := Stopped)
  }

  // ------------------------------------------------------ single items

  /** Several goroutines may report the end of one item. In whatever order they
      do, the item has failed exactly when one of the errors was more than a
      cancellation; a completed item is not touched. */
  lemma {:induction false} FailuresInAnyOrder(i: Item, failures: seq<Event>)
    requires failures != [] && forall k :: 0 <= k < |failures| ==> failures[k].Failure?
    ensures AfterAll(i, failures) ==
            if i.phase in {Phase.Failed, Completed} then i
            else i.(phase := if Failure(false) in failures then Phase.Failed else Stopped)
  {
    var n := |failures| - 1;
    var front, last := failures[..n], failures[n];
    assert Failure(false) in failures <==> Failure(false) in front || last == Failure(false) by {
      assert failures == front + [last];
    }
    if n == 0 {
      assert AfterAll(i, front) == i;
    } else {
      FailuresInAnyOrder(i, front);
    }
    assert AfterAll(i, failures) == After(AfterAll(i, front), last);
  }

  /** Without a retry the bytes shown as uploaded never fall, whatever is
      reported in whatever order. */
  lemma {:induction false} UploadedRises(i: Item, events: seq<Event>)
    requires i.phase != Retrying && forall k :: 0 <= k < |events| ==> !events[k].Retry?
    ensures AfterAll(i, events).uploaded >= i.uploaded && AfterAll(i, events).phase != Retrying
  {
    if events != [] {
      UploadedRises(i, events[..|events| - 1]);
      assert !events[|events| - 1].Retry?;
    }
  }

  /** The chunks among some reports, by their place. */
  ghost function ChunkSizes(events: seq<Event>): map<int, int> {
    map k: int | 0 <= k < |events| && events[k].Receive? && events[k].n > 0 :: events[k].n
  }

  lemma {:induction false} ChunkSizesSnoc(events: seq<Event>)
    requires events != []
    ensures var n := |events| - 1;
            Total(ChunkSizes(events)) == Total(ChunkSizes(events[..n]))
              + if events[n].Receive? && events[n].n > 0 then events[n].n else 0
  {
    var n := |events| - 1;
    var before, last := ChunkSizes(events[..n]), events[n];
    if last.Receive? && last.n > 0 {
      assert ChunkSizes(events) == before[n := last.n];
      TotalUpdate(before, n, last.n);
    } else {
      assert ChunkSizes(events) == before;
    }
  }

  /** The bytes shown as downloaded are those received, whatever else is
      reported. */
  lemma {:induction false} DownloadedIsReceived(i: Item, events: seq<Event>)
    ensures AfterAll(i, events).downloaded == i.downloaded + Total(ChunkSizes(events))
  {
    if events == [] {
      assert ChunkSizes(events) == map[];
    } else {
      DownloadedIsReceived(i, events[..|events| - 1]);
      ChunkSizesSnoc(events);
    }
  }

  /** An item activated to be streamed counts the bytes received as uploaded; one
      activated to be downloaded first does not. */
  lemma {:induction false} StreamedIsUploaded(i: Item, stream: bool, chunks: seq<Event>)
    requires forall k :: 0 <= k < |chunks| ==> chunks[k].Receive?
    ensures var r := AfterAll(i, [Activate(stream)] + chunks);
            && r.phase == (if stream then Transferring else Downloading)
            && r.uploaded == i.uploaded + if stream then Total(ChunkSizes(chunks)) else 0
  {
    var events := [Activate(stream)] + chunks;
    if chunks == [] {
      assert events[..0] == [] && ChunkSizes(chunks) == map[];
      assert AfterAll(i, events) == After(i, Activate(stream));
    } else {
      var n := |chunks| - 1;
      StreamedIsUploaded(i, stream, chunks[..n]);
      ChunkSizesSnoc(chunks);
      assert events[..|events| - 1] == [Activate(stream)] + chunks[..n] && events[|events| - 1] == chunks[n];
    }
  }

  /** An upload report is dropped when it falls behind without a retry. Otherwise
      it is shown, and the item is being confirmed exactly when the report reaches
      a known total. */
  lemma UploadShown(i: Item, events: seq<Event>, uploaded: int, total: int)
    ensures var before, r := AfterAll(i, events), AfterAll(i, events + [Upload(uploaded, total)]);
            if uploaded < before.uploaded && before.phase != Retrying then r == before
            else r.uploaded == uploaded && r.phase == if 0 < total <= uploaded then Confirming else Uploading
  {
    assert (events + [Upload(uploaded, total)])[..|events|] == events;
  }

  /** The attempt shown is the latest one announced, until the item completes. */
  lemma {:induction false} LatestRetry(i: Item, events: seq<Event>, k: nat)
    requires k < |events| && events[k].Retry?
    requires forall j :: k < j < |events| ==> !events[j].Retry? && !events[j].Completion?
    ensures AfterAll(i, events).retryAttempt == events[k].attempt && AfterAll(i, events).retryLimit == events[k].limit
    ensures k == |events| - 1 ==> AfterAll(i, events).phase == Retrying
  {
    if k < |events| - 1 {
      LatestRetry(i, events[..|events| - 1], k);
      assert !events[|events| - 1].Retry? && !events[|events| - 1].Completion?;
    }
  }

  /** A completed item shows no attempt any more, and has a size unless nothing
      ever moved. */
  lemma CompletedShown(i: Item, events: seq<Event>)
    ensures var before, r := AfterAll(i, events), AfterAll(i, events + [Completion]);
            && r.phase == Completed && r.retryAttempt == 0 == r.retryLimit
            && r.downloaded == before.downloaded && r.uploaded == before.uploaded
            && (before.actualSize != 0 ==> r.actualSize == before.actualSize)
            && (before.actualSize == 0 ==> r.actualSize >= r.downloaded && r.actualSize >= r.uploaded
                                           && r.actualSize in {r.downloaded, r.uploaded})
  {
    assert (events + [Completion])[..|events|] == events;
  }

  /** A recorded download gives a size if the item has none, and an item that is
      streamed goes on. */
  lemma DownloadShown(i: Item, events: seq<Event>, size: int)
    ensures var before, r := AfterAll(i, events), AfterAll(i, events + [DownloadRecorded(size)]);
            && (size > 0 ==> r.actualSize == size)
            && (size <= 0 ==> r.actualSize == if before.actualSize == 0 then before.downloaded else before.actualSize)
            && (before.phase == Transferring ==> r.phase == Transferring)
            && (before.phase != Transferring ==> r.phase == Downloaded)
  {
    assert (events + [DownloadRecorded(size)])[..|events|] == events;
  }

  /** An attempt to save the file that failed: what it reported as uploaded,
      nothing if the cache file could not be opened. */
  datatype Attempt = Attempt(uploads: seq<Event>)

  /** How the processing of one element goes. Of a streamed one, `reports` are the
      chunks received and the errors of the download and of the save, in whatever
      order the two report. */
  datatype ElementRun =
    | NoCacheFile(error: B.Outcome)
    | DownloadFails(chunks: seq<int>, error: B.Outcome)
    | NoSize(chunks: seq<int>, error: B.Outcome)
    | SaveFails(chunks: seq<int>, size: int, failed: seq<Attempt>, limit: int, error: B.Outcome)
    | Saved(chunks: seq<int>, size: int, failed: seq<Attempt>, limit: int, uploads: seq<Event>)
    | StreamFails(reports: seq<Event>)
    | Streamed(chunks: seq<int>, size: int)

  predicate IsRun(run: ElementRun) {
    match run
    case Saved(_, _, failed, _, uploads) => AllUploads(uploads) && forall a :: a in failed ==> AllUploads(a.uploads)
    case SaveFails(_, _, failed, _, error) => !error.Done? && forall a :: a in failed ==> AllUploads(a.uploads)
    case StreamFails(reports) =>
      (Failure(true) in reports || Failure(false) in reports) && forall e :: e in reports ==> e.Receive? || e.Failure?
    case Streamed(_, _) => true
    case _ => !run.error.Done?
  }

  predicate AllUploads(events: seq<Event>) {
    forall e :: e in events ==> e.Upload?
  }

  /** Of several errors, one that is more than a cancellation decides. */
  function EndOf(run: ElementRun): B.Outcome {
    match run
    case Saved(_, _, _, _, _) => B.Done
    case Streamed(_, _) => B.Done
    case StreamFails(reports) => if Failure(false) in reports then B.Failed else B.Cancelled
    case _ => run.error
  }

  function Received(chunks: seq<int>): seq<Event> {
    seq(|chunks|, i requires 0 <= i < |chunks| => Receive(chunks[i]))
  }

  /** Each failed attempt is followed by the notice that there will be another. */
  function Attempts(failed: seq<Attempt>, limit: int): seq<Event> {
    if failed == [] then []
    else
      var n := |failed| - 1;
      Attempts(failed[..n], limit) + failed[n].uploads + [Retry(|failed|, limit)]
  }

  /** The reports before the end of the element. */
  function Body(run: ElementRun): seq<Event> {
    match run
    case NoCacheFile(_) => [Activate(false)]
    case DownloadFails(chunks, _) => [Activate(false)] + Received(chunks)
    case NoSize(chunks, _) => [Activate(false)] + Received(chunks)
    case SaveFails(chunks, size, failed, limit, _) =>
      [Activate(false)] + Received(chunks) + [DownloadRecorded(size)] + Attempts(failed, limit)
    case Saved(chunks, size, failed, limit, uploads) =>
      [Activate(false)] + Received(chunks) + [DownloadRecorded(size)] + Attempts(failed, limit) + uploads
      + [Upload(size, size)]
    case StreamFails(_) => [Activate(true)]
    case Streamed(chunks, size) => [Activate(true)] + Received(chunks) + [DownloadRecorded(size)]
  }

  function Tail(run: ElementRun): seq<Event> {
    if EndOf(run).Done? then [Completion]
    else if run.StreamFails? then run.reports
    else [Failure(EndOf(run).Cancelled?)]
  }

  function PhaseOf(ended: B.Outcome): Phase {
    match ended
    case Done => Completed
    case Failed => Phase.Failed
    case Cancelled => Stopped
  }

  predicate Midway(p: Phase) {
    p !in {Completed, Phase.Failed, Stopped}
  }

  /** The phase an element ends in tells how its processing ended. */
  lemma ElementEndsInPhase(i: Item, run: ElementRun)
    requires Midway(i.phase) && IsRun(run)
    ensures AfterAll(i, Body(run) + Tail(run)).phase == PhaseOf(EndOf(run))
  {
    BodyIsQuiet(run);
    if EndOf(run).Done? {
      CompletionDecides(i, Body(run));
    } else {
      FailuresDecide(i, Body(run), Tail(run));
    }
  }

  lemma CompletionDecides(i: Item, body: seq<Event>)
    requires Midway(i.phase) && Quiet(body)
    ensures AfterAll(i, body + [Completion]).phase == Completed
  {
    assert (body + [Completion])[..|body|] == body;
  }

  lemma FailuresDecide(i: Item, body: seq<Event>, tail: seq<Event>)
    requires Midway(i.phase) && Quiet(body) && forall e :: e in tail ==> e.Receive? || e.Failure?
    requires Failure(true) in tail || Failure(false) in tail
    ensures AfterAll(i, body + tail).phase == if Failure(false) in tail then Phase.Failed else Stopped
  {
    StaysMidway(i, body);
    AfterAllConcat(i, body, tail);
    TailDecides(AfterAll(i, body), tail);
  }

  predicate Quiet(events: seq<Event>) {
    forall e :: e in events ==> !e.Completion? && !e.Failure?
  }

  lemma {:induction false} AttemptsAreQuiet(failed: seq<Attempt>, limit: int)
    requires forall a :: a in failed ==> AllUploads(a.uploads)
    ensures Quiet(Attempts(failed, limit))
  {
    if failed != [] {
      AttemptsAreQuiet(failed[..|failed| - 1], limit);
      assert failed[|failed| - 1] in failed;
    }
  }

  lemma BodyIsQuiet(run: ElementRun)
    requires IsRun(run)
    ensures Quiet(Body(run))
  {
    match run
    case Saved(chunks, _, failed, limit, _) => AttemptsAreQuiet(failed, limit); assert Quiet(Received(chunks));
    case SaveFails(chunks, _, failed, limit, _) => AttemptsAreQuiet(failed, limit); assert Quiet(Received(chunks));
    case DownloadFails(chunks, _) => assert Quiet(Received(chunks));
    case NoSize(chunks, _) => assert Quiet(Received(chunks));
    case Streamed(chunks, _) => assert Quiet(Received(chunks));
    case _ =>
  }

  lemma {:induction false} AfterAllConcat(i: Item, a: seq<Event>, b: seq<Event>)
    ensures AfterAll(i, a + b) == AfterAll(AfterAll(i, a), b)
  {
    if b == [] {
      assert a + b == a;
    } else {
      AfterAllConcat(i, a, b[..|b| - 1]);
      assert (a + b)[..|a + b| - 1] == a + b[..|b| - 1];
    }
  }

  /** Failures, with chunks that still arrive in between, decide as they would by
      themselves. */
  lemma {:induction false} TailDecides(i: Item, tail: seq<Event>)
    requires Midway(i.phase) && forall e :: e in tail ==> e.Receive? || e.Failure?
    ensures AfterAll(i, tail).phase ==
            if Failure(false) in tail then Phase.Failed else if Failure(true) in tail then Stopped else i.phase
  {
    if tail != [] {
      var front, last := tail[..|tail| - 1], tail[|tail| - 1];
      TailDecides(i, front);
      assert tail == front + [last] && last in tail;
      assert forall e :: e in tail <==> e in front || e == last;
      assert AfterAll(i, tail) == After(AfterAll(i, front), last);
    }
  }

  lemma {:induction false} StaysMidway(i: Item, events: seq<Event>)
    requires Midway(i.phase) && Quiet(events)
    ensures Midway(AfterAll(i, events).phase)
  {
    if events != [] {
      var front, last := events[..|events| - 1], events[|events| - 1];
      assert events == front + [last];
      StaysMidway(i, front);
    }
  }

  // ------------------------------------------------------ a batch group

  /** The outcomes around a task: of each download of a batch group, of each
      element processed by itself, of reading each cache file back and of saving
      some elements together; and how soon each element ends. */
  datatype Surroundings = Surroundings(
    download: string -> B.Outcome,
    single: string -> B.Outcome,
    cached: string -> Option<int>,
    save: seq<B.Element> -> B.Outcome,
    rank: string -> nat)

  predicate Distinct(elems: seq<B.Element>) {
    forall i, j :: 0 <= i < j < |elems| ==> elems[i].id != elems[j].id
  }

  /** Downloads that the group as a whole survives. */
  predicate Survives(elems: seq<B.Element>, s: Surroundings, ignoreErrors: bool) {
    forall i :: 0 <= i < |elems| ==> !B.Stops(s.download(elems[i].id), ignoreErrors)
  }

  /** Of the elements whose error counts, the one that ended first. */
  function FirstStop(elems: seq<B.Element>, ended: string -> B.Outcome, rank: string -> nat, ignoreErrors: bool)
      : (first: Option<B.Element>)
    ensures first.Some? ==> first.value in elems && B.Stops(ended(first.value.id), ignoreErrors)
    ensures forall e :: e in elems && B.Stops(ended(e.id), ignoreErrors) ==>
              first.Some? && rank(first.value.id) <= rank(e.id)
  {
    if elems == [] then None
    else
      var last := elems[|elems| - 1];
      var first := FirstStop(elems[..|elems| - 1], ended, rank, ignoreErrors);
      if B.Stops(ended(last.id), ignoreErrors) && (first.None? || rank(last.id) < rank(first.value.id)) then Some(last)
      else first
  }

  /** The error that waiting for all of them returns, if any. */
  function WaitError(elems: seq<B.Element>, ended: string -> B.Outcome, rank: string -> nat, ignoreErrors: bool): B.Outcome {
    var first := FirstStop(elems, ended, rank, ignoreErrors);
    if first.Some? then ended(first.value.id) else B.Done
  }

  method Wait(elems: seq<B.Element>, ended: string -> B.Outcome, rank: string -> nat, ignoreErrors: bool)
      returns (error: B.Outcome)
    ensures error == WaitError(elems, ended, rank, ignoreErrors)
  {
    var first: Option<B.Element> := None;
    for k := 0 to |elems|
      invariant first == FirstStop(elems[..k], ended, rank, ignoreErrors)
    {
      var e := elems[k];
      assert elems[..k + 1][..k] == elems[..k];
      if B.Stops(ended(e.id), ignoreErrors) && (first.None? || rank(e.id) < rank(first.value.id)) {
        first := Some(e);
      }
    }
    assert elems[..|elems|] == elems;
    error := if first.Some? then ended(first.value.id) else B.Done;
  }

  lemma {:induction false} WaitErrorStops(elems: seq<B.Element>, ended: string -> B.Outcome, rank: string -> nat,
                                          ignoreErrors: bool)
    ensures var error := WaitError(elems, ended, rank, ignoreErrors);
            if error.Done? then forall e :: e in elems ==> !B.Stops(ended(e.id), ignoreErrors)
            else B.Stops(error, ignoreErrors) && exists e :: e in elems && ended(e.id) == error
  {
    if elems != [] {
      var n := |elems| - 1;
      WaitErrorStops(elems[..n], ended, rank, ignoreErrors);
      assert elems == elems[..n] + [elems[n]];
    }
  }

  function Successes(elems: seq<B.Element>, s: Surroundings): (ok: seq<B.Element>)
    ensures forall i :: 0 <= i < |ok| ==> ok[i] in elems && s.download(ok[i].id).Done?
    ensures forall i :: 0 <= i < |elems| && s.download(elems[i].id).Done? ==> elems[i] in ok
  {
    if elems == [] then []
    else
      var n := |elems| - 1;
      Successes(elems[..n], s) + if s.download(elems[n].id).Done? then [elems[n]] else []
  }

  /** How many cache files are read back before one is missing. */
  function Readable(ok: seq<B.Element>, s: Surroundings): (n: nat)
    ensures n <= |ok|
    ensures forall i :: 0 <= i < n ==> s.cached(ok[i].id).Some?
    ensures n < |ok| ==> s.cached(ok[n].id).None?
  {
    if ok == [] || s.cached(ok[0].id).None? then 0 else 1 + Readable(ok[1..], s)
  }

  /** The phase an element of a group is left in when the group returns. */
  function LeftIn(elems: seq<B.Element>, e: B.Element, s: Surroundings, ignoreErrors: bool): Phase {
    var ok := Successes(elems, s);
    var n := Readable(ok, s);
    if !s.download(e.id).Done? then PhaseOf(s.download(e.id))
    else if !Survives(elems, s, ignoreErrors) then Downloaded
    else if n == |ok| then PhaseOf(s.save(ok))
    else if e.id == ok[n].id then Phase.Failed
    else Downloaded
  }

  /** The error of a group. */
  function GroupError(elems: seq<B.Element>, s: Surroundings, ignoreErrors: bool): B.Outcome {
    var error := WaitError(elems, s.download, s.rank, ignoreErrors);
    if !error.Done? then error else SaveError(Successes(elems, s), s)
  }

  /** They are the downloaded elements of the group, in order. */
  lemma {:induction false} SuccessesAreDownloaded(elems: seq<B.Element>, s: Surroundings, downloads: seq<B.Outcome>)
    requires |downloads| == |elems| && forall i :: 0 <= i < |elems| ==> downloads[i] == s.download(elems[i].id)
    ensures Successes(elems, s) == B.Downloaded(elems, downloads)
  {
    if elems != [] {
      var n := |elems| - 1;
      SuccessesAreDownloaded(elems[..n], s, downloads[..n]);
    }
  }

  lemma {:induction false} SuccessesDistinct(elems: seq<B.Element>, s: Surroundings)
    requires Distinct(elems)
    ensures Distinct(Successes(elems, s))
  {
    if elems != [] {
      var n := |elems| - 1;
      SuccessesDistinct(elems[..n], s);
      var front := Successes(elems[..n], s);
      forall i | 0 <= i < |front| ensures front[i].id != elems[n].id {
        assert front[i] in elems[..n];
      }
    }
  }

  // ---------------------------------------------------- the whole task

  function CallError(c: B.Call, s: Surroundings, ignoreErrors: bool): B.Outcome {
    if c.asBatch then GroupError(c.elems, s, ignoreErrors) else WaitError(c.elems, s.single, s.rank, ignoreErrors)
  }

  ghost predicate LeftAs(items: map<string, Item>, c: B.Call, s: Surroundings, ignoreErrors: bool) {
    forall e :: e in c.elems ==>
      e.id in items
      && items[e.id].phase == if c.asBatch then LeftIn(c.elems, e, s, ignoreErrors) else PhaseOf(s.single(e.id))
  }

  /** The first call with an error that counts gives the result. */
  ghost predicate Result(all: seq<B.Call>, s: Surroundings, ignoreErrors: bool, result: B.Outcome) {
    if result.Done? then forall k :: 0 <= k < |all| ==> !B.Stops(CallError(all[k], s, ignoreErrors), ignoreErrors)
    else exists k :: 0 <= k < |all| && FirstError(all, k, s, ignoreErrors) && result == CallError(all[k], s, ignoreErrors)
  }

  ghost predicate FirstError(all: seq<B.Call>, k: nat, s: Surroundings, ignoreErrors: bool)
    requires k < |all|
  {
    && B.Stops(CallError(all[k], s, ignoreErrors), ignoreErrors)
    && forall j :: 0 <= j < k ==> !B.Stops(CallError(all[j], s, ignoreErrors), ignoreErrors)
  }

  lemma PartsDistinct(a: seq<B.Element>, b: seq<B.Element>)
    requires Distinct(a + b)
    ensures Distinct(a) && Distinct(b) && forall x, y :: x in a && y in b ==> x.id != y.id
  {
    var all := a + b;
    assert forall i :: 0 <= i < |a| ==> all[i] == a[i];
    assert forall i :: 0 <= i < |b| ==> all[|a| + i] == b[i];
  }

  lemma {:induction false} HandedHolds(all: seq<B.Call>, k: nat)
    requires k < |all|
    ensures forall e :: e in all[k].elems ==> e in B.Handed(all)
  {
    if k > 0 {
      HandedHolds(all[1..], k - 1);
    }
  }

  /** Elements of different calls have different IDs. */
  lemma {:induction false} CallsApart(all: seq<B.Call>, j: nat, k: nat)
    requires Distinct(B.Handed(all)) && j <= k < |all|
    ensures Distinct(all[j].elems)
    ensures j < k ==> forall x, y :: x in all[j].elems && y in all[k].elems ==> x.id != y.id
  {
    PartsDistinct(all[0].elems, B.Handed(all[1..]));
    if j > 0 {
      CallsApart(all[1..], j - 1, k - 1);
    } else if k > 0 {
      HandedHolds(all[1..], k - 1);
    }
  }

  /** The first `n` calls are over, none with an error that counts, and the
      elements of the others are waiting. */
  ghost predicate Underway(all: seq<B.Call>, n: nat, items: map<string, Item>, s: Surroundings, ignoreErrors: bool)
    requires n <= |all|
  {
    && (forall k :: 0 <= k < n ==>
          LeftAs(items, all[k], s, ignoreErrors) && !B.Stops(CallError(all[k], s, ignoreErrors), ignoreErrors))
    && (forall k :: n <= k < |all| ==> AllMidway(items, all[k].elems))
  }

  lemma RunStarts(elems: seq<B.Element>, items: map<string, Item>, s: Surroundings, ignoreErrors: bool)
    requires Distinct(elems) && AllMidway(items, elems)
    ensures var all := B.Calls(B.Groups(elems)); Distinct(B.Handed(all)) && Underway(all, 0, items, s, ignoreErrors)
  {
    var all := B.Calls(B.Groups(elems));
    B.GroupsIsGrouping(elems);
    B.CallsHandEverything(B.Groups(elems));
    forall k | 0 <= k < |all| ensures AllMidway(items, all[k].elems) {
      HandedHolds(all, k);
    }
  }

  /** A call touches the items of no other call. */
  lemma RunGoesOn(all: seq<B.Call>, n: nat, before: map<string, Item>, after: map<string, Item>,
                  s: Surroundings, ignoreErrors: bool)
    requires Distinct(B.Handed(all)) && n < |all| && Underway(all, n, before, s, ignoreErrors)
    requires SameElsewhere(before, after, Ids(all[n].elems)) && LeftAs(after, all[n], s, ignoreErrors)
    requires !B.Stops(CallError(all[n], s, ignoreErrors), ignoreErrors)
    ensures Underway(all, n + 1, after, s, ignoreErrors)
  {
    forall k | 0 <= k < |all| && k != n
      ensures LeftAs(before, all[k], s, ignoreErrors) ==> LeftAs(after, all[k], s, ignoreErrors)
      ensures AllMidway(before, all[k].elems) ==> AllMidway(after, all[k].elems)
    {
      OtherCall(all, n, k);
      OtherUntouched(all[k], all[n], before, after, s, ignoreErrors);
    }
  }

  lemma OtherCall(all: seq<B.Call>, n: nat, k: nat)
    requires Distinct(B.Handed(all)) && n < |all| && k < |all| && k != n
    ensures forall e :: e in all[k].elems ==> e.id !in Ids(all[n].elems)
  {
    if k < n {
      CallsApart(all, k, n);
    } else {
      CallsApart(all, n, k);
    }
  }

  lemma OtherUntouched(other: B.Call, c: B.Call, before: map<string, Item>, after: map<string, Item>,
                       s: Surroundings, ignoreErrors: bool)
    requires SameElsewhere(before, after, Ids(c.elems)) && forall e :: e in other.elems ==> e.id !in Ids(c.elems)
    ensures LeftAs(before, other, s, ignoreErrors) ==> LeftAs(after, other, s, ignoreErrors)
    ensures AllMidway(before, other.elems) ==> AllMidway(after, other.elems)
  {
  }

  lemma StoppedAt(all: seq<B.Call>, n: nat, items: map<string, Item>, s: Surroundings, ignoreErrors: bool)
    requires n < |all| && Underway(all, n, items, s, ignoreErrors)
    requires B.Stops(CallError(all[n], s, ignoreErrors), ignoreErrors)
    ensures Result(all, s, ignoreErrors, CallError(all[n], s, ignoreErrors))
  {
    assert FirstError(all, n, s, ignoreErrors);
  }

  /** The element was downloaded, and its group stopped at the cache file of
      another one. */
  ghost predicate LostBeside(elems: seq<B.Element>, e: B.Element, s: Surroundings) {
    var ok := Successes(elems, s);
    var n := Readable(ok, s);
    e in ok && n < |ok| && e.id != ok[n].id
  }

  ghost predicate SomeLost(all: seq<B.Call>, e: B.Element, s: Surroundings) {
    exists k :: 0 <= k < |all| && all[k].asBatch && LostBeside(all[k].elems, e, s)
  }

  /** Midway, and likewise neither completed nor failed, is exactly what an error
      that does not count leaves behind a lost cache file. */
  lemma MidwayInCall(c: B.Call, e: B.Element, s: Surroundings, ignoreErrors: bool)
    requires e in c.elems && !B.Stops(CallError(c, s, ignoreErrors), ignoreErrors)
    ensures var phase := if c.asBatch then LeftIn(c.elems, e, s, ignoreErrors) else PhaseOf(s.single(e.id));
            && (Midway(phase) <==> c.asBatch && LostBeside(c.elems, e, s))
            && (Midway(phase) <==> phase !in {Completed, Phase.Failed})
  {
    if c.asBatch {
      WaitErrorStops(c.elems, s.download, s.rank, ignoreErrors);
      var ok := Successes(c.elems, s);
      assert Survives(c.elems, s, ignoreErrors);
      assert s.download(e.id).Done? <==> e in ok;
    } else {
      WaitErrorStops(c.elems, s.single, s.rank, ignoreErrors);
    }
  }

  lemma {:induction false} HandedBySome(all: seq<B.Call>, e: B.Element) returns (k: nat)
    requires e in B.Handed(all)
    ensures k < |all| && e in all[k].elems
  {
    if e in all[0].elems {
      k := 0;
    } else {
      var j := HandedBySome(all[1..], e);
      k := j + 1;
    }
  }

  lemma {:induction false} MidwayAtEnd(all: seq<B.Call>, items: map<string, Item>, e: B.Element, s: Surroundings,
                                       ignoreErrors: bool)
    requires Distinct(B.Handed(all)) && e in B.Handed(all) && Underway(all, |all|, items, s, ignoreErrors)
    ensures e.id in items
    ensures Midway(items[e.id].phase) <==> SomeLost(all, e, s)
    ensures Midway(items[e.id].phase) <==> items[e.id].phase !in {Completed, Phase.Failed}
  {
    var k := HandedBySome(all, e);
    assert LeftAs(items, all[k], s, ignoreErrors);
    MidwayInCall(all[k], e, s, ignoreErrors);
    forall j | 0 <= j < |all| && all[j].asBatch && LostBeside(all[j].elems, e, s) ensures j == k {
      if j != k {
        OtherCall(all, j, k);
      }
    }
  }

  lemma RunEnds(elems: seq<B.Element>, items: map<string, Item>, s: Surroundings, ignoreErrors: bool)
    requires Distinct(elems)
    requires var all := B.Calls(B.Groups(elems)); Underway(all, |all|, items, s, ignoreErrors)
    ensures forall e :: e in elems ==>
              e.id in items
              && (Midway(items[e.id].phase) <==> SomeLost(B.Calls(B.Groups(elems)), e, s))
              && (Midway(items[e.id].phase) <==> items[e.id].phase !in {Completed, Phase.Failed})
  {
    var all := B.Calls(B.Groups(elems));
    B.GroupsIsGrouping(elems);
    B.CallsHandEverything(B.Groups(elems));
    forall e | e in elems
      ensures e.id in items
      ensures Midway(items[e.id].phase) <==> SomeLost(all, e, s)
      ensures Midway(items[e.id].phase) <==> items[e.id].phase !in {Completed, Phase.Failed}
    {
      MidwayAtEnd(all, items, e, s, ignoreErrors);
    }
  }

  /** For one batch group: the error of the group does not count and some item is
      left behind exactly when errors are ignored, the downloads were survived,
      and of several downloaded files one could not be read back. */
  lemma LeftBehindIff(elems: seq<B.Element>, s: Surroundings, ignoreErrors: bool)
    requires Distinct(elems)
    ensures var ok := Successes(elems, s);
            (!B.Stops(GroupError(elems, s, ignoreErrors), ignoreErrors) && exists e :: LostBeside(elems, e, s)) <==>
            ignoreErrors && Survives(elems, s, ignoreErrors) && Readable(ok, s) < |ok| && |ok| > 1
  {
    var ok := Successes(elems, s);
    var n := Readable(ok, s);
    SuccessesDistinct(elems, s);
    WaitErrorStops(elems, s.download, s.rank, ignoreErrors);
    if n < |ok| && |ok| > 1 {
      var other := if n == 0 then 1 else 0;
      assert LostBeside(elems, ok[other], s);
    }
  }

  /** Two items of an album are downloaded and the cache file of the first is
      lost: with errors ignored the task goes on and the second one stays in the
      downloaded phase. */
  lemma LostCacheStrandsItem(a: B.Element, b: B.Element, s: Surroundings)
    requires a.id != b.id && s.download(a.id).Done? && s.download(b.id).Done? && s.cached(a.id).None?
    ensures LeftIn([a, b], b, s, true) == Downloaded && !B.Stops(GroupError([a, b], s, true), true)
  {
    assert [a, b][..1] == [a] && [a][..0] == [];
    assert Successes([a], s) == Successes([], s) + [a];
    assert Successes([a, b], s) == [a, b];
    WaitErrorStops([a, b], s.download, s.rank, true);
  }
}
