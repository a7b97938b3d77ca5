/** Upload counters: the bytes of one saved file, which the uploader reports per
    part, and the aggregate of a batch, which is fed by every item. */
module UploadProgress {
  import opened Lists
  import opened Totals

  // ------------------------------------------- one file, many part uploads

  /** What the uploader says about one of its uploads. */
  datatype Report = Report(id: int, uploaded: int)

  datatype Counter = Counter(total: int, uploaded: int, byID: map<int, int>)

  function FreshCounter(total: int): Counter {
    Counter(total, 0, map[])
  }

  function Previous(c: Counter, id: int): int {
    if id in c.byID then c.byID[id] else 0
  }

  function Count(c: Counter, r: Report): Counter {
    if r.uploaded <= Previous(c, r.id) then c
    else c.(byID := c.byID[r.id := r.uploaded], uploaded := c.uploaded + r.uploaded - Previous(c, r.id))
  }

  class FileProgress {
    var total: int
    var uploaded: int
    var byID: map<int, int>

    function State(): Counter
      reads this
    {
      Counter(total, uploaded, byID)
    }

    constructor (total: int)
      ensures State() == FreshCounter(total)
      ensures this.total == total && uploaded == 0 && byID == map[]
    {
      this.total, uploaded, byID := total, 0, map[];
    }

    /** The caller is told the new sum and the total, when there is news. */
    method Chunk(cancelled: bool, r: Report, total: int) returns (told: Option<(int, int)>)
      modifies this
      ensures State() == if cancelled then old(State()) else Count(old(State()), r)
      ensures told.None? <==> State() == old(State())
      ensures told.Some? ==>
                && told.value.0 == uploaded > old(uploaded)
                && told.value.1 == if this.total > 0 then this.total else total
    {
      if cancelled {
        return None;
      }
      var previous := if r.id in byID then byID[r.id] else 0;
      if r.uploaded <= previous {
        return None;
      }
      byID := byID[r.id := r.uploaded];
      uploaded := uploaded + r.uploaded - previous;
      var size := this.total;
      if size <= 0 {
        size := total;
      }
      told := Some((uploaded, size));
    }

    method Reset(total: int)
      modifies this
      ensures State() == FreshCounter(total)
      ensures this.total == total && uploaded == 0 && byID == map[]
    {
      this.total, uploaded, byID := total, 0, map[];
    }
  }

  datatype Event = Chunk(report: Report) | Reset(total: int)

  function AfterEvents(total: int, events: seq<Event>): Counter {
    if events == [] then FreshCounter(total)
    else
      var n := |events| - 1;
      match events[n]
      case Chunk(r) => Count(AfterEvents(total, events[..n]), r)
      case Reset(t) => FreshCounter(t)
  }

  /** The reports since the last reset. */
  function SinceReset(events: seq<Event>): (reports: seq<Report>) {
    if events == [] then []
    else
      var n := |events| - 1;
      match events[n]
      case Chunk(r) => SinceReset(events[..n]) + [r]
      case Reset(_) => []
  }

  /** `best` holds, for exactly the uploads that reported progress, the highest
      value each reported. */
  ghost predicate IsMaxima(best: map<int, int>, reports: seq<Report>) {
    && (forall id :: id in best ==> best[id] > 0 && Report(id, best[id]) in reports)
    && (forall r :: r in reports && r.uploaded > 0 ==> r.id in best && r.uploaded <= best[r.id])
  }

  /** At every point of every sequence of reports and resets, the counter is the
      sum of the highest value of each upload since the last reset. */
  lemma {:induction false} CounterIsSumOfMaxima(total: int, events: seq<Event>)
    ensures var c := AfterEvents(total, events);
            c.uploaded == Total(c.byID) && IsMaxima(c.byID, SinceReset(events))
  {
    if events != [] {
      var n := |events| - 1;
      CounterIsSumOfMaxima(total, events[..n]);
      match events[n] {
        case Chunk(r) =>
          CountKeepsMaxima(AfterEvents(total, events[..n]), SinceReset(events[..n]), r);
        case Reset(_) =>
      }
    }
  }

  lemma CountKeepsMaxima(c: Counter, reports: seq<Report>, r: Report)
    requires c.uploaded == Total(c.byID) && IsMaxima(c.byID, reports)
    ensures Count(c, r).uploaded == Total(Count(c, r).byID)
    ensures IsMaxima(Count(c, r).byID, reports + [r])
  {
    TotalUpdate(c.byID, r.id, r.uploaded);
    var best := Count(c, r).byID;
    forall id | id in best ensures best[id] > 0 && Report(id, best[id]) in reports + [r] {
      if best[id] != Previous(c, id) {
        assert Report(id, best[id]) == r;
      }
    }
    forall q | q in reports + [r] && q.uploaded > 0 ensures q.id in best && q.uploaded <= best[q.id] {
    }
  }

  // -------------------------------------------- a batch of many items

  /** What the progress display is told. */
  datatype Notice = Started(total: int) | Progress(uploaded: int, total: int)

  datatype Batch = Batch(uploaded: map<string, int>, uploadTotal: int, notices: seq<Notice>)

  const NEW_BATCH: Batch := Batch(map[], 0, [])

  datatype BatchEvent =
    | DownloadComplete(size: int)
    | BeginUpload
    | Upload(id: string, uploaded: int, total: int)

  function Smaller(a: int, b: int): int {
    if a < b then a else b
  }

  /** The highest value each item has reported, never above its own total. */
  function Noted(uploaded: map<string, int>, id: string, value: int): map<string, int> {
    if id !in uploaded || value > uploaded[id] then uploaded[id := value] else uploaded
  }

  function Begun(b: Batch): seq<Notice> {
    if b.notices == [] then [Started(b.uploadTotal)] else b.notices
  }

  ghost function Step(b: Batch, e: BatchEvent): Batch {
    match e
    case BeginUpload => b.(notices := Begun(b))
    case DownloadComplete(size) => if size > 0 then b.(uploadTotal := b.uploadTotal + size) else b
    case Upload(id, value, total) =>
      if value < 0 then b
      else
        var clipped := if total > 0 && value > total then total else value;
        var noted := Noted(b.uploaded, id, clipped);
        Batch(noted, b.uploadTotal,
              Begun(b) + [Progress(Smaller(Total(noted), b.uploadTotal), b.uploadTotal)])
  }

  class BatchProgress {
    /** Whether the display shows uploads at all. */
    const tracked: bool
    var uploaded: map<string, int>
    var uploadTotal: int
    var started: bool
    var notices: seq<Notice>

    ghost function State(): Batch
      reads this
    {
      Batch(uploaded, uploadTotal, notices)
    }

    ghost predicate Valid()
      reads this
    {
      started <==> notices != []
    }

    constructor (tracked: bool)
      ensures Valid() && State() == NEW_BATCH && this.tracked == tracked
    {
      this.tracked := tracked;
      uploaded, uploadTotal, started, notices := map[], 0, false, [];
    }

    method RecordDownloadComplete(size: int)
      requires Valid()
      modifies this
      ensures Valid() && State() == Step(old(State()), DownloadComplete(size))
    {
      if size > 0 {
        uploadTotal := uploadTotal + size;
      }
    }

    method StartUpload()
      requires Valid() && tracked
      modifies this
      ensures Valid() && started
      ensures State() == Step(old(State()), BeginUpload)
    {
      if !started {
        started := true;
        notices := notices + [Started(uploadTotal)];
      }
    }

    method UploadCallback(id: string, value: int, total: int)
      requires Valid()
      modifies this
      ensures Valid()
      ensures State() == if tracked then Step(old(State()), Upload(id, value, total)) else old(State())
    {
      if !tracked || value < 0 {
        return;
      }
      StartUpload();
      var clipped := value;
      if total > 0 && clipped > total {
        clipped := total;
      }
      if id !in uploaded || clipped > uploaded[id] {
        uploaded := uploaded[id := clipped];
      }
      var aggregate := Sum(uploaded);
      if aggregate > uploadTotal {
        aggregate := uploadTotal;
      }
      notices := notices + [Progress(aggregate, uploadTotal)];
    }
  }

  method Sum(m: map<string, int>) returns (sum: int)
    ensures sum == Total(m)
  {
    sum := 0;
    var rest := m;
    while rest != map[]
      invariant sum + Total(rest) == Total(m)
      decreases |rest|
    {
      var item :| item in rest;
      TotalRemove(rest, item);
      sum := sum + rest[item];
      rest := rest - {item};
    }
  }

  ghost function AfterBatchEvents(events: seq<BatchEvent>): Batch {
    if events == [] then NEW_BATCH
    else Step(AfterBatchEvents(events[..|events| - 1]), events[|events| - 1])
  }

  /** The display is told once that uploading starts, before any progress;
      progress never goes back and never passes the total known at the time. */
  ghost predicate WellOrdered(notices: seq<Notice>) {
    && (forall i :: 0 <= i < |notices| ==> (notices[i].Started? <==> i == 0))
    && (forall i :: 0 < i < |notices| && notices[i].Progress? ==> 0 <= notices[i].uploaded <= notices[i].total)
    && (forall i, j :: 0 < i < j < |notices| && notices[i].Progress? && notices[j].Progress? ==>
          notices[i].uploaded <= notices[j].uploaded && notices[i].total <= notices[j].total)
  }

  ghost predicate NoneNegative(m: map<string, int>) {
    forall id :: id in m ==> m[id] >= 0
  }

  /** What has been shown never exceeds what the state stands for. */
  ghost predicate Consistent(b: Batch) {
    && WellOrdered(b.notices) && NoneNegative(b.uploaded) && b.uploadTotal >= 0
    && (forall i :: 0 < i < |b.notices| && b.notices[i].Progress? ==>
          b.notices[i].uploaded <= Smaller(Total(b.uploaded), b.uploadTotal) && b.notices[i].total <= b.uploadTotal)
  }

  /** For every interleaving of completed downloads and upload reports, with
      retries that restart an item at zero and totals that grow meanwhile. */
  lemma {:induction false} AggregateNeverFalls(events: seq<BatchEvent>)
    ensures Consistent(AfterBatchEvents(events))
  {
    if events != [] {
      AggregateNeverFalls(events[..|events| - 1]);
      StepConsistent(AfterBatchEvents(events[..|events| - 1]), events[|events| - 1]);
    }
  }

  lemma StepConsistent(b: Batch, e: BatchEvent)
    requires Consistent(b)
    ensures Consistent(Step(b, e))
  {
    if e.Upload? && e.uploaded >= 0 {
      var noted := Noted(b.uploaded, e.id, Clip(e));
      TotalUpdate(b.uploaded, e.id, Clip(e));
      TotalNonNegative(noted);
      assert Total(noted) >= Total(b.uploaded);
      AppendConsistent(b, noted);
    }
  }

  lemma AppendConsistent(b: Batch, noted: map<string, int>)
    requires Consistent(b) && NoneNegative(noted) && 0 <= Total(noted) && Total(b.uploaded) <= Total(noted)
    ensures Consistent(Batch(noted, b.uploadTotal,
                             Begun(b) + [Progress(Smaller(Total(noted), b.uploadTotal), b.uploadTotal)]))
  {
  }

  ghost predicate Reported(events: seq<BatchEvent>, id: string, value: int) {
    exists k :: 0 <= k < |events| && IsReport(events[k], id, value)
  }

  ghost predicate AllReported(events: seq<BatchEvent>, uploaded: map<string, int>) {
    forall id :: id in uploaded ==> Reported(events, id, uploaded[id])
  }

  ghost predicate IsReport(e: BatchEvent, id: string, value: int) {
    e.Upload? && e.uploaded >= 0 && e.id == id && Clip(e) == value
  }

  lemma ReportedStays(events: seq<BatchEvent>, id: string, value: int)
    requires events != []
    ensures Reported(events[..|events| - 1], id, value) || IsReport(events[|events| - 1], id, value)
            ==> Reported(events, id, value)
  {
    var front := events[..|events| - 1];
    if Reported(front, id, value) {
      var k :| 0 <= k < |front| && IsReport(front[k], id, value);
      assert events[k] == front[k];
    }
  }

  /** What an item contributes is the highest value it ever reported, each
      report cut at its own total. */
  lemma {:induction false} ContributionsAreMaxima(events: seq<BatchEvent>)
    ensures var b := AfterBatchEvents(events);
            && (forall k :: 0 <= k < |events| && events[k].Upload? && events[k].uploaded >= 0 ==>
                  events[k].id in b.uploaded && b.uploaded[events[k].id] >= Clip(events[k]))
            && AllReported(events, b.uploaded)
  {
    if events != [] {
      var n := |events| - 1;
      ContributionsAreMaxima(events[..n]);
      var before, b := AfterBatchEvents(events[..n]), AfterBatchEvents(events);
      forall id | id in b.uploaded ensures Reported(events, id, b.uploaded[id]) {
        var value := b.uploaded[id];
        if id in before.uploaded && before.uploaded[id] == value {
          assert Reported(events[..n], id, before.uploaded[id]);
        } else {
          assert IsReport(events[n], id, value);
        }
        ReportedStays(events, id, value);
      }
      forall k | 0 <= k < n && events[k].Upload? && events[k].uploaded >= 0
        ensures events[k].id in b.uploaded && b.uploaded[events[k].id] >= Clip(events[k])
      {
        assert events[..n][k] == events[k];
      }
    }
  }

  function Clip(e: BatchEvent): (clipped: int)
    requires e.Upload?
    ensures clipped <= e.uploaded && (e.total > 0 ==> clipped <= e.total)
    ensures clipped == e.uploaded || 0 < e.total == clipped
  {
    if e.total > 0 && e.uploaded > e.total then e.total else e.uploaded
  }

  /** The completed downloads of known size, by their place in the run. */
  ghost function Sizes(events: seq<BatchEvent>): map<int, int> {
    map k: int | 0 <= k < |events| && events[k].DownloadComplete? && events[k].size > 0 :: events[k].size
  }

  /** The total known is the sum of the sizes downloaded so far. */
  lemma {:induction false} KnownIsDownloaded(events: seq<BatchEvent>)
    ensures AfterBatchEvents(events).uploadTotal == Total(Sizes(events))
  {
    if events == [] {
      assert Sizes(events) == map[];
    } else {
      var n := |events| - 1;
      var before, size := Sizes(events[..n]), events[n];
      KnownIsDownloaded(events[..n]);
      if size.DownloadComplete? && size.size > 0 {
        assert Sizes(events) == before[n := size.size];
        TotalUpdate(before, n, size.size);
      } else {
        assert Sizes(events) == before;
      }
    }
  }

  /** Every report of at least zero is followed by one notice with what the items
      contribute together, up to the total known; the first one is preceded by
      the start, and nothing else is told. */
  lemma AggregateIsTold(events: seq<BatchEvent>, e: BatchEvent)
    ensures var before, b := AfterBatchEvents(events), AfterBatchEvents(events + [e]);
            var known, sum := Total(Sizes(events)), Total(b.uploaded);
            var started := if before.notices == [] then [Started(known)] else before.notices;
            b.notices ==
            if e.BeginUpload? then started
            else if e.Upload? && e.uploaded >= 0 then started + [Progress(if sum < known then sum else known, known)]
            else before.notices
  {
    assert (events + [e])[..|events|] == events;
    KnownIsDownloaded(events);
  }
}
