/** The sliding-window transfer speed. Times are in nanoseconds. */
module SpeedMeter {
  const WINDOW: int := 5_000_000_000
  const PERIOD: int := 250_000_000

  datatype Sample = Sample(at: int, bytes: int)

  datatype Meter = Meter(samples: seq<Sample>, latest: Sample, hasData: bool)

  const EMPTY: Meter := Meter([], Sample(0, 0), false)

  // ------------------------------------------------- what is recorded

  /** Drops samples older than the cutoff, but never the last one. */
  function Trim(samples: seq<Sample>, cutoff: int): (kept: seq<Sample>)
  {
    if |samples| > 1 && samples[0].at < cutoff then Trim(samples[1..], cutoff) else samples
  }

  /** A sample is kept when a period has passed since the last one kept. */
  function Grow(samples: seq<Sample>, sample: Sample): (grown: seq<Sample>)
    requires samples != []
  {
    if sample.at - samples[|samples| - 1].at >= PERIOD then samples + [sample] else samples
  }

  function Record(m: Meter, now: int, transferred: int): Meter {
    var m1 := if m.hasData && transferred < m.latest.bytes then EMPTY else m;
    var at := if m1.hasData && now < m1.latest.at then m1.latest.at else now;
    var sample := Sample(at, transferred);
    if m1.samples == [] then Meter([sample], sample, true)
    else Meter(Trim(Grow(m1.samples, sample), at - WINDOW), sample, true)
  }

  class TransferMeter {
    var samples: seq<Sample>
    var latest: Sample
    var hasData: bool

    function State(): Meter
      reads this
    {
      Meter(samples, latest, hasData)
    }

    constructor ()
      ensures State() == EMPTY
    {
      samples, latest, hasData := [], Sample(0, 0), false;
    }

    method Reset()
      modifies this
      ensures State() == EMPTY
    {
      samples := samples[..0];
      latest := Sample(0, 0);
      hasData := false;
    }

    method RecordTransfer(now: int, transferred: int)
      modifies this
      ensures State() == Record(old(State()), now, transferred)
    {
      if hasData && transferred < latest.bytes {
        Reset();
      }
      var at := now;
      if hasData && at < latest.at {
        at := latest.at;
      }
      var sample := Sample(at, transferred);
      latest := sample;
      hasData := true;
      if |samples| == 0 {
        samples := samples + [sample];
        return;
      }
      if at - samples[|samples| - 1].at >= PERIOD {
        samples := samples + [sample];
      }
      var cutoff := at - WINDOW;
      ghost var target := Trim(samples, cutoff);
      while |samples| > 1 && samples[0].at < cutoff
        invariant Trim(samples, cutoff) == target
        invariant latest == sample && hasData
      {
        samples := samples[1..];
      }
    }

    method Speed() returns (speed: real)
      ensures speed == AverageSpeed(State())
    {
      if !hasData || |samples| == 0 {
        return 0.0;
      }
      var first, last := samples[0], latest;
      var elapsed := Seconds(last.at - first.at);
      if elapsed <= 0.0 || last.bytes <= first.bytes {
        return 0.0;
      }
      speed := (last.bytes - first.bytes) as real / elapsed;
    }
  }

  function Seconds(nanoseconds: int): real {
    nanoseconds as real / 1_000_000_000.0
  }

  function AverageSpeed(m: Meter): (speed: real)
    ensures speed >= 0.0
  {
    if !m.hasData || m.samples == [] then 0.0
    else
      var first, last := m.samples[0], m.latest;
      var elapsed := Seconds(last.at - first.at);
      if elapsed <= 0.0 || last.bytes <= first.bytes then 0.0
      else (last.bytes - first.bytes) as real / elapsed
  }

  // ----------------------------- what the samples stand for, over any run

  function Observe(observations: seq<Sample>): Meter {
    if observations == [] then EMPTY
    else
      var n := |observations| - 1;
      Record(Observe(observations[..n]), observations[n].at, observations[n].bytes)
  }

  /** One observation more: a falling counter restarts, and a clock that steps
      back is held. */
  function WithObservation(before: seq<Sample>, o: Sample): (effective: seq<Sample>)
    ensures effective != []
  {
    if before == [] || o.bytes < before[|before| - 1].bytes then [o]
    else
      var last := before[|before| - 1];
      before + [Sample(if o.at < last.at then last.at else o.at, o.bytes)]
  }

  /** The observations since the counter last restarted, with a clock that
      steps back held at its highest reading. */
  function Effective(observations: seq<Sample>): (effective: seq<Sample>)
    ensures observations != [] ==> effective != []
  {
    if observations == [] then []
    else
      var n := |observations| - 1;
      WithObservation(Effective(observations[..n]), observations[n])
  }

  /** While the clock and the counter never fall, every observation counts as it
      was made. */
  lemma {:induction false} SteadyIsEffective(observations: seq<Sample>)
    requires forall i, j :: 0 <= i < j < |observations| ==>
               observations[i].at <= observations[j].at && observations[i].bytes <= observations[j].bytes
    ensures Effective(observations) == observations
  {
    if observations != [] {
      var n := |observations| - 1;
      SteadyIsEffective(observations[..n]);
      assert observations == observations[..n] + [observations[n]];
    }
  }

  /** Each observation counts with its bytes, at its own time or that of the one
      before it, whichever is later; one with fewer bytes is the only one left. */
  lemma {:induction false} LatestIsEffective(observations: seq<Sample>, o: Sample)
    ensures var before, effective := Effective(observations), Effective(observations + [o]);
            var last := effective[|effective| - 1];
            && last.bytes == o.bytes
            && (before == [] || o.bytes < before[|before| - 1].bytes ==> effective == [o])
            && (before != [] && o.bytes >= before[|before| - 1].bytes ==>
                  && effective == before + [last]
                  && last.at >= o.at && last.at >= before[|before| - 1].at
                  && (last.at == o.at || last.at == before[|before| - 1].at))
  {
    assert (observations + [o])[..|observations|] == observations;
  }

  /** Consecutive samples are at least a period apart, and no later one holds
      fewer bytes. */
  ghost predicate Spaced(samples: seq<Sample>) {
    forall i :: 0 <= i < |samples| - 1 ==>
      samples[i].at + PERIOD <= samples[i + 1].at && samples[i].bytes <= samples[i + 1].bytes
  }

  lemma {:induction false} Span(samples: seq<Sample>, i: nat, j: nat)
    requires Spaced(samples) && i <= j < |samples|
    ensures samples[j].at - samples[i].at >= 250_000_000 * (j - i)
    ensures samples[i].bytes <= samples[j].bytes
    decreases j - i
  {
    if i < j {
      Span(samples, i, j - 1);
      assert samples[j - 1].at + PERIOD <= samples[j - 1 + 1].at;
    }
  }

  /** A sample taken less than a period before `e` is kept. */
  ghost predicate Covered(samples: seq<Sample>, e: Sample) {
    exists i :: 0 <= i < |samples| && samples[i].at <= e.at < samples[i].at + PERIOD
  }

  /** The newest sample is less than a period old, the oldest within the
      window, and none holds more bytes than the latest observation. */
  ghost predicate Anchored(samples: seq<Sample>, latest: Sample) {
    && samples != []
    && samples[|samples| - 1].at <= latest.at < samples[|samples| - 1].at + PERIOD
    && samples[|samples| - 1].bytes <= latest.bytes
    && latest.at - samples[0].at <= WINDOW
  }

  ghost predicate Genuine(samples: seq<Sample>, latest: Sample, effective: seq<Sample>) {
    && effective != [] && latest == effective[|effective| - 1]
    && (forall s :: s in samples ==> s in effective)
    && (forall e :: e in effective ==> e.at <= latest.at)
  }

  ghost predicate Reaching(samples: seq<Sample>, cutoff: int, effective: seq<Sample>) {
    forall e {:trigger Covered(samples, e)} :: e in effective && e.at >= cutoff + PERIOD ==> Covered(samples, e)
  }

  /** No observation from a sample on holds fewer bytes than the sample. */
  ghost predicate Lowest(samples: seq<Sample>, effective: seq<Sample>) {
    forall s, e :: s in samples && e in effective && s.at <= e.at ==> s.bytes <= e.bytes
  }

  ghost predicate Faithful(m: Meter, effective: seq<Sample>) {
    if effective == [] then m == EMPTY
    else
      && m.hasData
      && Spaced(m.samples)
      && Anchored(m.samples, m.latest)
      && Genuine(m.samples, m.latest, effective)
      && Reaching(m.samples, m.latest.at - WINDOW, effective)
  }

  lemma {:induction false} TrimKeeps(samples: seq<Sample>, cutoff: int)
    requires samples != [] && Spaced(samples)
    ensures var kept := Trim(samples, cutoff);
            && kept != [] && kept[|kept| - 1] == samples[|samples| - 1]
            && Spaced(kept)
            && (forall s :: s in kept ==> s in samples)
            && (forall s :: s in samples && s.at >= cutoff ==> s in kept)
            && (kept[0].at >= cutoff || |kept| == 1)
    decreases |samples|
  {
    if |samples| > 1 && samples[0].at < cutoff {
      RestIsSpaced(samples);
      TrimKeeps(samples[1..], cutoff);
      HeadOrRest(samples);
    }
  }

  lemma HeadOrRest(samples: seq<Sample>)
    requires samples != []
    ensures forall s :: s in samples <==> s == samples[0] || s in samples[1..]
  {
    forall s | s in samples && s != samples[0] ensures s in samples[1..] {
      var i :| 0 <= i < |samples| && samples[i] == s;
      assert samples[1..][i - 1] == s;
    }
  }

  lemma RestIsSpaced(samples: seq<Sample>)
    requires samples != [] && Spaced(samples)
    ensures Spaced(samples[1..])
  {
    var rest := samples[1..];
    forall i | 0 <= i < |rest| - 1
      ensures rest[i].at + PERIOD <= rest[i + 1].at && rest[i].bytes <= rest[i + 1].bytes
    {
      assert samples[i + 1].at + PERIOD <= samples[i + 1 + 1].at;
    }
  }

  lemma GrowKeeps(samples: seq<Sample>, sample: Sample)
    requires samples != [] && Spaced(samples)
    requires samples[|samples| - 1].at <= sample.at && samples[|samples| - 1].bytes <= sample.bytes
    ensures var grown := Grow(samples, sample);
            var last := grown[|grown| - 1];
            && Spaced(grown)
            && last.at <= sample.at < last.at + PERIOD && last.bytes <= sample.bytes
            && (forall s :: s in grown ==> s in samples || s == sample)
            && (forall s :: s in samples ==> s in grown)
  {
  }

  lemma CoverageSurvives(samples: seq<Sample>, kept: seq<Sample>, cutoff: int, e: Sample)
    requires Covered(samples, e) && e.at >= cutoff + PERIOD
    requires forall s :: s in samples && s.at >= cutoff ==> s in kept
    ensures Covered(kept, e)
  {
    var i :| 0 <= i < |samples| && samples[i].at <= e.at < samples[i].at + PERIOD;
    var s := samples[i];
    assert s in kept;
    var j :| 0 <= j < |kept| && kept[j] == s;
  }

  lemma TrimmedIsFaithful(m: Meter, before: seq<Sample>, sample: Sample)
    requires before != [] && Faithful(m, before)
    requires sample.at >= m.latest.at && sample.bytes >= m.latest.bytes
    ensures Faithful(Meter(Trim(Grow(m.samples, sample), sample.at - WINDOW), sample, true), before + [sample])
  {
    var cutoff := sample.at - WINDOW;
    var grown := Grow(m.samples, sample);
    GrowKeeps(m.samples, sample);
    TrimKeeps(grown, cutoff);
    ReachSurvives(m.samples, m.latest, Trim(grown, cutoff), before, sample);
    StepIsFaithful(m.samples, grown, Trim(grown, cutoff), before, sample);
  }

  /** Recording keeps every fact about the samples. */
  lemma RecordKeeps(m: Meter, before: seq<Sample>, now: int, bytes: int)
    requires before != [] && Faithful(m, before) && bytes >= m.latest.bytes
    ensures var at := if now < m.latest.at then m.latest.at else now;
            Faithful(Record(m, now, bytes), before + [Sample(at, bytes)])
  {
    TrimmedIsFaithful(m, before, Sample(if now < m.latest.at then m.latest.at else now, bytes));
    RecordContinues(m, now, bytes);
  }

  lemma RecordContinues(m: Meter, now: int, bytes: int)
    requires m.hasData && m.samples != [] && bytes >= m.latest.bytes
    ensures var sample := Sample(if now < m.latest.at then m.latest.at else now, bytes);
            Record(m, now, bytes) == Meter(Trim(Grow(m.samples, sample), sample.at - WINDOW), sample, true)
  {
  }

  lemma StepIsFaithful(samples: seq<Sample>, grown: seq<Sample>, kept: seq<Sample>, before: seq<Sample>, sample: Sample)
    requires forall s :: s in samples ==> s in before
    requires forall e :: e in before ==> e.at <= sample.at
    requires forall s :: s in grown ==> s in samples || s == sample
    requires forall s :: s in kept ==> s in grown
    requires Spaced(kept) && Anchored(kept, sample)
    requires Reaching(kept, sample.at - WINDOW, before + [sample])
    ensures Faithful(Meter(kept, sample, true), before + [sample])
  {
  }

  lemma ReachSurvives(samples: seq<Sample>, latest: Sample, kept: seq<Sample>, before: seq<Sample>, sample: Sample)
    requires Reaching(samples, latest.at - WINDOW, before) && latest.at <= sample.at
    requires forall s :: s in samples && s.at >= sample.at - WINDOW ==> s in kept
    requires kept != [] && kept[|kept| - 1].at <= sample.at < kept[|kept| - 1].at + PERIOD
    ensures Reaching(kept, sample.at - WINDOW, before + [sample])
  {
    var cutoff := sample.at - WINDOW;
    forall e | e in before + [sample] && e.at >= cutoff + PERIOD ensures Covered(kept, e) {
      if e == sample {
        assert kept[|kept| - 1].at <= e.at < kept[|kept| - 1].at + PERIOD;
      } else {
        CoverageSurvives(samples, kept, cutoff, e);
      }
    }
  }

  lemma FirstIsFaithful(sample: Sample)
    ensures Faithful(Meter([sample], sample, true), [sample])
  {
    var m := Meter([sample], sample, true);
    forall e | e in [sample] ensures Covered(m.samples, e) {
      assert m.samples[0].at <= e.at < m.samples[0].at + PERIOD;
    }
  }

  /** After any sequence of observations, with clocks stepping back and
      counters restarting: the samples are genuine observations since the last
      restart, spaced, within the window, and together they cover it. */
  lemma {:induction false} ObserveIsFaithful(observations: seq<Sample>)
    ensures Faithful(Observe(observations), Effective(observations))
  {
    if observations != [] {
      var n := |observations| - 1;
      var o, m, before := observations[n], Observe(observations[..n]), Effective(observations[..n]);
      ObserveIsFaithful(observations[..n]);
      if before == [] || o.bytes < m.latest.bytes {
        FirstIsFaithful(o);
      } else {
        RecordKeeps(m, before, o.at, o.bytes);
      }
    }
  }

  lemma GrownIsLowest(samples: seq<Sample>, latest: Sample, before: seq<Sample>, sample: Sample)
    requires Spaced(samples) && Anchored(samples, latest) && Lowest(samples, before)
    requires forall e :: e in before ==> e.at <= latest.at
    requires latest.at <= sample.at && latest.bytes <= sample.bytes
    ensures Lowest(Grow(samples, sample), before + [sample])
  {
    forall s | s in samples ensures s.bytes <= sample.bytes {
      var i :| 0 <= i < |samples| && samples[i] == s;
      Span(samples, i, |samples| - 1);
    }
  }

  lemma {:induction false} TrimWithin(samples: seq<Sample>, cutoff: int)
    ensures forall s :: s in Trim(samples, cutoff) ==> s in samples
    decreases |samples|
  {
    if |samples| > 1 && samples[0].at < cutoff {
      TrimWithin(samples[1..], cutoff);
    }
  }

  lemma KeptIsLowest(m: Meter, before: seq<Sample>, sample: Sample)
    requires before != [] && m.latest.at <= sample.at && m.latest.bytes <= sample.bytes
    ensures Faithful(m, before) && Lowest(m.samples, before) ==>
              Lowest(Trim(Grow(m.samples, sample), sample.at - WINDOW), before + [sample])
  {
    if Faithful(m, before) && Lowest(m.samples, before) {
      GrownIsLowest(m.samples, m.latest, before, sample);
      TrimWithin(Grow(m.samples, sample), sample.at - WINDOW);
    }
  }

  lemma RecordRestarts(m: Meter, before: seq<Sample>, o: Sample)
    requires if before == [] then m == EMPTY else m.hasData && m.latest == before[|before| - 1]
    ensures before == [] || o.bytes < m.latest.bytes ==>
              Record(m, o.at, o.bytes).samples == [o] && WithObservation(before, o) == [o]
  {
  }

  lemma StepIsLowest(m: Meter, before: seq<Sample>, o: Sample)
    requires Faithful(m, before) && Lowest(m.samples, before)
    ensures Lowest(Record(m, o.at, o.bytes).samples, WithObservation(before, o))
  {
    RecordRestarts(m, before, o);
    if before != [] && o.bytes >= m.latest.bytes {
      var sample := Sample(if o.at < m.latest.at then m.latest.at else o.at, o.bytes);
      var kept := Trim(Grow(m.samples, sample), sample.at - WINDOW);
      KeptIsLowest(m, before, sample);
      assert Record(m, o.at, o.bytes).samples == kept by {
        RecordContinues(m, o.at, o.bytes);
      }
      assert WithObservation(before, o) == before + [sample];
    }
  }

  /** No sample is undercut by an observation made when it was or later. */
  lemma {:induction false} ObserveIsLowest(observations: seq<Sample>)
    ensures Lowest(Observe(observations).samples, Effective(observations))
  {
    if observations != [] {
      var n := |observations| - 1;
      ObserveIsLowest(observations[..n]);
      ObserveIsFaithful(observations[..n]);
      StepIsLowest(Observe(observations[..n]), Effective(observations[..n]), observations[n]);
    }
  }

  /** The window in numbers: samples at least 250 ms apart, none older than 5 s,
      bytes never falling, at most 21 of them, and reaching back past every
      observation of the last 4.75 s. */
  lemma WindowBounds(observations: seq<Sample>)
    ensures var m := Observe(observations);
            && |m.samples| <= 21
            && (forall i :: 0 <= i < |m.samples| - 1 ==> m.samples[i + 1].at >= m.samples[i].at + 250_000_000)
            && (forall i :: 0 <= i < |m.samples| ==> m.latest.at - 5_000_000_000 <= m.samples[i].at <= m.latest.at)
            && (forall i, j :: 0 <= i < j < |m.samples| ==> m.samples[i].bytes <= m.samples[j].bytes)
            && (forall e :: e in Effective(observations) && e.at >= m.latest.at - 4_750_000_000 ==>
                  m.samples != [] && m.samples[0].at <= e.at)
  {
    ObserveIsFaithful(observations);
    var m := Observe(observations);
    var n := |m.samples|;
    forall i, j | 0 <= i <= j < n
      ensures m.samples[i].at <= m.samples[j].at && m.samples[i].bytes <= m.samples[j].bytes
    {
      Span(m.samples, i, j);
    }
    if n > 0 {
      Span(m.samples, 0, n - 1);
    }
    forall e | e in Effective(observations) && e.at >= m.latest.at - WINDOW + PERIOD
      ensures m.samples != [] && m.samples[0].at <= e.at
    {
      assert Covered(m.samples, e);
    }
  }

  /** The speed is the average from `first` to the latest observation, and no
      observation of the last 4.75 s is earlier or holds fewer bytes. */
  ghost predicate IsAverage(m: Meter, effective: seq<Sample>, first: Sample) {
    var last := m.latest;
    && first in effective && 0 <= last.at - first.at <= 5_000_000_000 && first.bytes <= last.bytes
    && (last.at == first.at ==> AverageSpeed(m) == 0.0)
    && (last.at > first.at ==>
          AverageSpeed(m) == (last.bytes - first.bytes) as real / ((last.at - first.at) as real / 1_000_000_000.0))
    && (forall e :: e in effective && e.at >= last.at - 4_750_000_000 ==> first.at <= e.at && first.bytes <= e.bytes)
  }

  /** The speed shown is the true average between two observations at most
      5 s apart, the later one the latest, both since the last restart; it is
      zero when nothing moved or no time passed. The earlier one reaches back over
      all of the last 4.75 s. */
  lemma SpeedIsAverage(observations: seq<Sample>) returns (first: Sample)
    requires observations != []
    ensures var effective, m := Effective(observations), Observe(observations);
            m.latest == effective[|effective| - 1] && IsAverage(m, effective, first)
  {
    ObserveIsFaithful(observations);
    ObserveIsLowest(observations);
    first := FaithfulAverage(Observe(observations), Effective(observations));
  }

  lemma FaithfulAverage(m: Meter, effective: seq<Sample>) returns (first: Sample)
    requires effective != []
    ensures Faithful(m, effective) && Lowest(m.samples, effective) ==>
              m.latest == effective[|effective| - 1] && IsAverage(m, effective, first)
  {
    if Faithful(m, effective) && Lowest(m.samples, effective) {
      first := m.samples[0];
      Span(m.samples, 0, |m.samples| - 1);
      FirstReaches(m.samples, m.latest.at - WINDOW, effective);
    } else {
      first := m.latest;
    }
  }

  lemma FirstReaches(samples: seq<Sample>, cutoff: int, effective: seq<Sample>)
    requires samples != [] && Spaced(samples) && Lowest(samples, effective) && Reaching(samples, cutoff, effective)
    ensures forall e :: e in effective && e.at >= cutoff + PERIOD ==> samples[0].at <= e.at && samples[0].bytes <= e.bytes
  {
    assert samples[0] in samples;
    forall e | e in effective && e.at >= cutoff + PERIOD ensures samples[0].at <= e.at {
      assert Covered(samples, e);
      var i :| 0 <= i < |samples| && samples[i].at <= e.at < samples[i].at + PERIOD;
      Span(samples, 0, i);
    }
  }

  /** Bytes that rose since an earlier observation of the last 4.75 s show as a
      positive speed. */
  lemma ProgressShows(observations: seq<Sample>, e: Sample)
    requires observations != [] && e in Effective(observations)
    requires var last := Observe(observations).latest;
             last.at - 4_750_000_000 <= e.at < last.at && e.bytes < last.bytes
    ensures AverageSpeed(Observe(observations)) > 0.0
  {
    var first := SpeedIsAverage(observations);
    ProgressIsPositive(Observe(observations), Effective(observations), first, e);
  }

  lemma ProgressIsPositive(m: Meter, effective: seq<Sample>, first: Sample, e: Sample)
    requires IsAverage(m, effective, first) && e in effective
    requires m.latest.at - 4_750_000_000 <= e.at < m.latest.at && e.bytes < m.latest.bytes
    ensures AverageSpeed(m) > 0.0
  {
    var last := m.latest;
    PositiveQuotient((last.bytes - first.bytes) as real, Seconds(last.at - first.at));
  }

  lemma PositiveQuotient(a: real, b: real)
    requires a > 0.0 && b > 0.0
    ensures a / b > 0.0
  {
  }
}
