/** How a batch task divides its elements among processors, and how the parallel
    downloads of one group are joined. */
module BatchExecution {
  import opened Lists

  /** A storage backend; some can save a whole group at once. */
  datatype Storage = Storage(handle: nat, savesBatches: bool)

  datatype Element = Element(id: string, storage: Storage, sourceGroupKey: string)

  datatype Group = Group(elems: seq<Element>, usesBatchSaver: bool)

  predicate Batchable(e: Element) {
    e.storage.savesBatches && e.sourceGroupKey != ""
  }

  predicate SameAlbum(a: Element, b: Element) {
    a.storage == b.storage && a.sourceGroupKey == b.sourceGroupKey
  }

  function ElementsOf(groups: seq<Group>): (elems: seq<Element>)
  {
    if groups == [] then [] else groups[0].elems + ElementsOf(groups[1..])
  }

  lemma {:induction false} ElementsOfConcat(a: seq<Group>, b: seq<Group>)
    ensures ElementsOf(a + b) == ElementsOf(a) + ElementsOf(b)
  {
    if a == [] {
      assert a + b == b;
    } else {
      calc {
        ElementsOf(a + b);
        { assert (a + b)[1..] == a[1..] + b; }
        a[0].elems + ElementsOf(a[1..] + b);
        { ElementsOfConcat(a[1..], b); }
        a[0].elems + (ElementsOf(a[1..]) + ElementsOf(b));
        ElementsOf(a) + ElementsOf(b);
      }
    }
  }

  // --------------------------------------------------- execution groups

  /** A batch group holds elements of one storage, which saves batches, and one
      non-empty key; any other group is a single element without these. */
  ghost predicate WellFormed(g: Group) {
    && g.elems != []
    && (g.usesBatchSaver ==>
          forall i :: 0 <= i < |g.elems| ==>
            && g.elems[i].storage == g.elems[0].storage && g.elems[i].storage.savesBatches
            && g.elems[i].sourceGroupKey == g.elems[0].sourceGroupKey != "")
    && (!g.usesBatchSaver ==>
          |g.elems| == 1 && (g.elems[0].storage.savesBatches ==> g.elems[0].sourceGroupKey == ""))
  }

  /** In-order groups; a batch group stops only where the album does. */
  ghost predicate IsGrouping(groups: seq<Group>, elems: seq<Element>) {
    && ElementsOf(groups) == elems
    && (forall i :: 0 <= i < |groups| ==> WellFormed(groups[i]))
    && (forall i :: 0 <= i < |groups| - 1 && groups[i].usesBatchSaver ==>
          groups[i].elems[0].storage == groups[i + 1].elems[0].storage ==>
            groups[i].elems[0].sourceGroupKey != groups[i + 1].elems[0].sourceGroupKey)
  }

  function AlbumEnd(elems: seq<Element>, end: nat): (n: nat)
    requires 1 <= end <= |elems|
    ensures end <= n <= |elems|
    ensures forall i :: end <= i < n ==> SameAlbum(elems[0], elems[i])
    ensures n < |elems| ==> !SameAlbum(elems[0], elems[n])
    decreases |elems| - end
  {
    if end < |elems| && SameAlbum(elems[0], elems[end]) then AlbumEnd(elems, end + 1) else end
  }

  function FirstLength(elems: seq<Element>): (n: nat)
    requires elems != []
    ensures 1 <= n <= |elems|
  {
    if Batchable(elems[0]) then AlbumEnd(elems, 1) else 1
  }

  function Groups(elems: seq<Element>): (groups: seq<Group>)
    decreases |elems|
  {
    if elems == [] then []
    else
      var n := FirstLength(elems);
      [Group(elems[..n], Batchable(elems[0]))] + Groups(elems[n..])
  }

  lemma {:induction false} GroupsIsGrouping(elems: seq<Element>)
    ensures IsGrouping(Groups(elems), elems)
    ensures elems != [] ==> Groups(elems) != [] && Groups(elems)[0].elems[0] == elems[0]
    decreases |elems|
  {
    if elems != [] {
      var n := FirstLength(elems);
      var first, rest := Group(elems[..n], Batchable(elems[0])), Groups(elems[n..]);
      assert elems == elems[..n] + elems[n..];
      FirstGroup(elems);
      GroupsIsGrouping(elems[n..]);
      ConsGrouping(first, rest, elems[n..]);
    }
  }

  lemma FirstGroup(elems: seq<Element>)
    requires elems != []
    ensures var n := FirstLength(elems);
            && WellFormed(Group(elems[..n], Batchable(elems[0])))
            && elems[..n][0] == elems[0]
            && (Batchable(elems[0]) && elems[n..] != [] ==> !SameAlbum(elems[0], elems[n..][0]))
  {
  }

  lemma ConsGrouping(first: Group, rest: seq<Group>, tail: seq<Element>)
    requires WellFormed(first) && IsGrouping(rest, tail)
    requires first.usesBatchSaver && rest != [] ==> !SameAlbum(first.elems[0], rest[0].elems[0])
    ensures IsGrouping([first] + rest, first.elems + tail)
  {
    assert ([first] + rest)[1..] == rest;
  }

  /** The grouping is the only one of its kind. */
  lemma {:induction false} GroupingIsUnique(groups: seq<Group>, elems: seq<Element>)
    requires IsGrouping(groups, elems)
    ensures groups == Groups(elems)
    decreases |groups|
  {
    if groups != [] {
      var first, rest := groups[0], groups[1..];
      var tail := ElementsOf(rest);
      var n := |first.elems|;
      assert elems == first.elems + tail && elems[..n] == first.elems && elems[n..] == tail;
      assert elems[0] == first.elems[0];
      if rest != [] {
        assert WellFormed(groups[1]);
        assert tail == rest[0].elems + ElementsOf(rest[1..]);
        assert tail[0] == groups[1].elems[0];
      }
      assert IsGrouping(rest, tail) by {
        assert forall i :: 0 <= i < |rest| ==> rest[i] == groups[i + 1];
      }
      GroupingIsUnique(rest, tail);
      if first.usesBatchSaver {
        EndIsThere(elems, n, 1);
      }
      assert groups == [first] + rest;
    }
  }

  lemma {:induction false} EndIsThere(elems: seq<Element>, n: nat, end: nat)
    requires 1 <= end <= n <= |elems|
    requires forall i :: 0 <= i < n ==> SameAlbum(elems[0], elems[i])
    requires n < |elems| ==> !SameAlbum(elems[0], elems[n])
    ensures AlbumEnd(elems, end) == n
    decreases n - end
  {
    if end < n {
      EndIsThere(elems, n, end + 1);
    }
  }

  method ExecutionGroups(elems: seq<Element>) returns (groups: seq<Group>)
    ensures groups == Groups(elems)
  {
    groups := [];
    var i := 0;
    assert elems[0..] == elems;
    while i < |elems|
      invariant i <= |elems|
      invariant groups + Groups(elems[i..]) == Groups(elems)
    {
      var elem := elems[i];
      if !elem.storage.savesBatches || elem.sourceGroupKey == "" {
        GroupsStep(groups, elems, i, i + 1);
        assert elems[i..i + 1] == [elem];
        groups := groups + [Group([elem], false)];
        i := i + 1;
        continue;
      }
      var end := i + 1;
      while end < |elems| && SameAlbum(elem, elems[end])
        invariant i < end <= |elems|
        invariant AlbumEnd(elems[i..], end - i) == FirstLength(elems[i..])
      {
        end := end + 1;
      }
      GroupsStep(groups, elems, i, end);
      groups := groups + [Group(elems[i..end], true)];
      i := end;
    }
    assert elems[|elems|..] == [];
  }

  lemma GroupsStep(groups: seq<Group>, elems: seq<Element>, i: nat, end: nat)
    requires i < end <= |elems| && end - i == FirstLength(elems[i..])
    ensures groups + Groups(elems[i..])
         == groups + [Group(elems[i..end], Batchable(elems[i]))] + Groups(elems[end..])
  {
    var tail := elems[i..];
    assert tail[..end - i] == elems[i..end] && tail[end - i..] == elems[end..];
  }

  // --------------------------------------------------------- the run

  datatype Outcome = Done | Failed | Cancelled

  predicate Stops(outcome: Outcome, ignoreErrors: bool) {
    outcome.Cancelled? || (outcome.Failed? && !ignoreErrors)
  }

  /** A call to a processor: one batch group, or the elements of a stretch of
      other groups together. */
  datatype Call = Call(elems: seq<Element>, asBatch: bool)

  function Stretch(groups: seq<Group>, end: nat): (n: nat)
    requires end <= |groups|
    ensures end <= n <= |groups|
    decreases |groups| - end
  {
    if end < |groups| && !groups[end].usesBatchSaver then Stretch(groups, end + 1) else end
  }

  function Calls(groups: seq<Group>): (calls: seq<Call>)
    decreases |groups|
  {
    if groups == [] then []
    else if groups[0].usesBatchSaver then [Call(groups[0].elems, true)] + Calls(groups[1..])
    else
      var n := Stretch(groups, 1);
      [Call(ElementsOf(groups[..n]), false)] + Calls(groups[n..])
  }

  function Handed(calls: seq<Call>): (elems: seq<Element>)
  {
    if calls == [] then [] else calls[0].elems + Handed(calls[1..])
  }

  /** Every element is in exactly one call, and the calls follow the order. */
  lemma {:induction false} CallsHandEverything(groups: seq<Group>)
    ensures Handed(Calls(groups)) == ElementsOf(groups)
    decreases |groups|
  {
    if groups == [] {
    } else if groups[0].usesBatchSaver {
      CallsHandEverything(groups[1..]);
      assert Calls(groups)[1..] == Calls(groups[1..]);
    } else {
      var n := Stretch(groups, 1);
      CallsHandEverything(groups[n..]);
      assert Calls(groups)[1..] == Calls(groups[n..]);
      assert groups == groups[..n] + groups[n..];
      ElementsOfConcat(groups[..n], groups[n..]);
    }
  }

  /** A batch call holds elements of one storage, which saves batches, and one
      non-empty key; any other call holds only elements without these. */
  ghost predicate WellFormedCall(c: Call) {
    && c.elems != []
    && (c.asBatch ==>
          forall i :: 0 <= i < |c.elems| ==>
            && c.elems[i].storage == c.elems[0].storage && c.elems[i].storage.savesBatches
            && c.elems[i].sourceGroupKey == c.elems[0].sourceGroupKey != "")
    && (!c.asBatch ==>
          forall i :: 0 <= i < |c.elems| ==> c.elems[i].storage.savesBatches ==> c.elems[i].sourceGroupKey == "")
  }

  /** Two calls in a row could not have been one. */
  ghost predicate Separate(c: Call, next: Call) {
    && c.elems != [] && next.elems != [] && (c.asBatch || next.asBatch)
    && (c.asBatch && next.asBatch ==>
          c.elems[0].storage == next.elems[0].storage ==> c.elems[0].sourceGroupKey != next.elems[0].sourceGroupKey)
  }

  /** Every element goes to one call, in order; albums go to batch calls, whole;
      stretches of other elements go to calls of their own, whole. */
  ghost predicate IsDispatch(calls: seq<Call>, elems: seq<Element>) {
    && Handed(calls) == elems
    && (forall i :: 0 <= i < |calls| ==> WellFormedCall(calls[i]))
    && (forall i, j {:trigger Separate(calls[i], calls[j])} :: 0 <= i && j == i + 1 < |calls| ==>
          Separate(calls[i], calls[j]))
  }

  lemma ConsDispatch(first: Call, rest: seq<Call>, tail: seq<Element>)
    requires WellFormedCall(first) && IsDispatch(rest, tail) && (rest != [] ==> Separate(first, rest[0]))
    ensures IsDispatch([first] + rest, first.elems + tail)
  {
    var all := [first] + rest;
    assert all[1..] == rest;
    forall i, j | 0 <= i && j == i + 1 < |all| ensures Separate(all[i], all[j]) {
      assert i > 0 ==> Separate(rest[i - 1], rest[j - 1]);
    }
  }

  lemma {:induction false} RestIsGrouping(groups: seq<Group>, n: nat)
    requires IsGrouping(groups, ElementsOf(groups)) && n <= |groups|
    ensures IsGrouping(groups[n..], ElementsOf(groups[n..]))
  {
    var rest := groups[n..];
    forall i | 0 <= i < |rest| - 1 && rest[i].usesBatchSaver
      ensures rest[i].elems[0].storage == rest[i + 1].elems[0].storage ==>
                rest[i].elems[0].sourceGroupKey != rest[i + 1].elems[0].sourceGroupKey
    {
      assert rest[i] == groups[n + i] && rest[i + 1] == groups[n + i + 1];
    }
  }

  /** The elements of a stretch. */
  lemma {:induction false} StretchElements(groups: seq<Group>)
    requires forall i :: 0 <= i < |groups| ==> WellFormed(groups[i]) && !groups[i].usesBatchSaver
    ensures groups != [] ==>
              groups[0].elems != [] && ElementsOf(groups) != [] && ElementsOf(groups)[0] == groups[0].elems[0]
    ensures forall e :: e in ElementsOf(groups) ==> e.storage.savesBatches ==> e.sourceGroupKey == ""
  {
    if groups != [] {
      assert WellFormed(groups[0]);
      StretchElements(groups[1..]);
    }
  }

  lemma {:induction false} StretchIsMaximal(groups: seq<Group>, end: nat)
    requires 1 <= end <= |groups| && forall i :: 0 <= i < end ==> !groups[i].usesBatchSaver
    ensures var n := Stretch(groups, end);
            && (forall i :: 0 <= i < n ==> !groups[i].usesBatchSaver)
            && (n < |groups| ==> groups[n].usesBatchSaver)
    decreases |groups| - end
  {
    if end < |groups| && !groups[end].usesBatchSaver {
      StretchIsMaximal(groups, end + 1);
    }
  }

  lemma FirstCall(groups: seq<Group>)
    requires groups != [] && forall i :: 0 <= i < |groups| ==> WellFormed(groups[i])
    ensures var c := Calls(groups)[0];
            && c.asBatch == groups[0].usesBatchSaver && WellFormedCall(c)
            && groups[0].elems != [] && c.elems[0] == groups[0].elems[0]
  {
    assert WellFormed(groups[0]);
    if !groups[0].usesBatchSaver {
      StretchIsMaximal(groups, 1);
      StretchElements(groups[..Stretch(groups, 1)]);
    }
  }

  lemma {:induction false} CallsAreDispatch(groups: seq<Group>)
    requires IsGrouping(groups, ElementsOf(groups))
    ensures IsDispatch(Calls(groups), ElementsOf(groups))
    decreases |groups|
  {
    if groups != [] {
      var n := if groups[0].usesBatchSaver then 1 else Stretch(groups, 1);
      var rest := groups[n..];
      FirstCall(groups);
      RestIsGrouping(groups, n);
      CallsAreDispatch(rest);
      if rest != [] {
        FirstCall(rest);
        if !groups[0].usesBatchSaver {
          StretchIsMaximal(groups, 1);
        }
      }
      assert groups == groups[..n] + rest;
      ElementsOfConcat(groups[..n], rest);
      SplitCalls(groups, n);
      ConsDispatch(Calls(groups)[0], Calls(rest), ElementsOf(rest));
    }
  }

  lemma SplitCalls(groups: seq<Group>, n: nat)
    requires groups != [] && n == if groups[0].usesBatchSaver then 1 else Stretch(groups, 1)
    ensures Calls(groups) == [Calls(groups)[0]] + Calls(groups[n..])
    ensures Calls(groups)[0].elems == ElementsOf(groups[..n])
  {
    if groups[0].usesBatchSaver {
      assert groups[..1] == [groups[0]];
      assert ElementsOf([groups[0]][1..]) == [];
    }
  }

  /** There is only one such division. */
  lemma {:induction false} DispatchIsUnique(a: seq<Call>, b: seq<Call>, elems: seq<Element>)
    requires IsDispatch(a, elems) && IsDispatch(b, elems)
    ensures a == b
    decreases |elems|
  {
    if a == [] || b == [] {
      assert elems == [] ==> a == [] && b == [];
    } else {
      SameStart(a, b, elems);
      NotShorter(a, b, elems);
      NotShorter(b, a, elems);
      var n := |a[0].elems|;
      assert a[0].elems == elems[..n] == b[0].elems;
      assert Handed(a[1..]) == elems[n..] == Handed(b[1..]);
      RestIsDispatch(a, elems);
      RestIsDispatch(b, elems);
      DispatchIsUnique(a[1..], b[1..], elems[n..]);
      assert a == [a[0]] + a[1..] && b == [b[0]] + b[1..];
    }
  }

  lemma RestIsDispatch(calls: seq<Call>, elems: seq<Element>)
    requires calls != [] && IsDispatch(calls, elems)
    ensures |calls[0].elems| <= |elems| && IsDispatch(calls[1..], elems[|calls[0].elems|..])
  {
    var rest := calls[1..];
    assert elems == calls[0].elems + Handed(rest);
    forall i, j | 0 <= i && j == i + 1 < |rest| ensures Separate(rest[i], rest[j]) {
      assert Separate(calls[i + 1], calls[j + 1]);
    }
  }

  lemma SameStart(a: seq<Call>, b: seq<Call>, elems: seq<Element>)
    requires a != [] && b != [] && IsDispatch(a, elems) && IsDispatch(b, elems)
    ensures elems != [] && a[0].elems[0] == elems[0] == b[0].elems[0] && a[0].asBatch == b[0].asBatch
  {
    assert WellFormedCall(a[0]) && WellFormedCall(b[0]);
    assert elems == a[0].elems + Handed(a[1..]) == b[0].elems + Handed(b[1..]);
  }

  /** The element after a call would not have fitted into it. */
  lemma NextElement(a: seq<Call>, elems: seq<Element>)
    requires a != [] && IsDispatch(a, elems) && |a[0].elems| < |elems|
    ensures var next := elems[|a[0].elems|];
            if a[0].asBatch then
              next.storage == elems[0].storage && next.storage.savesBatches ==> next.sourceGroupKey != elems[0].sourceGroupKey
            else next.storage.savesBatches && next.sourceGroupKey != ""
  {
    var n := |a[0].elems|;
    assert elems == a[0].elems + Handed(a[1..]);
    assert elems[n..] == Handed(a[1..]);
    assert a[1..] != [] && a[1..][0] == a[1];
    assert Separate(a[0], a[1]) && WellFormedCall(a[0]) && WellFormedCall(a[1]);
    assert Handed(a[1..]) == a[1].elems + Handed(a[1..][1..]);
    assert a[1].elems[0] == elems[n];
  }

  lemma NotShorter(a: seq<Call>, b: seq<Call>, elems: seq<Element>)
    requires a != [] && b != [] && IsDispatch(a, elems) && IsDispatch(b, elems)
    ensures |a[0].elems| >= |b[0].elems|
  {
    SameStart(a, b, elems);
    assert WellFormedCall(b[0]) && elems == b[0].elems + Handed(b[1..]);
    if |a[0].elems| < |elems| {
      NextElement(a, elems);
    }
  }

  /** Calls are made in order up to and including the first one whose outcome
      stops the run, and that outcome is the result; without one, all are. */
  ghost predicate RunsTo(made: seq<Call>, all: seq<Call>, outcome: nat -> Outcome, ignoreErrors: bool, result: Outcome) {
    && made <= all
    && (forall k: nat :: k < |made| - 1 ==> outcome(k).Done? || (outcome(k).Failed? && ignoreErrors))
    && (if result.Done? then
          made == all && forall k: nat :: k < |all| ==> outcome(k).Done? || (outcome(k).Failed? && ignoreErrors)
        else made != [] && result == outcome(|made| - 1) && (result.Failed? ==> !ignoreErrors))
  }

  /** With errors ignored only a cancellation stops the run; if there is none,
      every element is handed to exactly one call, in order. */
  method Execute(elems: seq<Element>, ignoreErrors: bool, outcome: nat -> Outcome)
    returns (made: seq<Call>, result: Outcome)
    ensures RunsTo(made, Calls(Groups(elems)), outcome, ignoreErrors, result)
    ensures IsDispatch(Calls(Groups(elems)), elems)
    ensures result.Done? ==> IsDispatch(made, elems)
    ensures ignoreErrors ==> !result.Failed?
  {
    var groups := ExecutionGroups(elems);
    GroupsIsGrouping(elems);
    CallsAreDispatch(groups);
    made, result := MakeCalls(groups, ignoreErrors, outcome);
  }

  method MakeCalls(groups: seq<Group>, ignoreErrors: bool, outcome: nat -> Outcome)
    returns (made: seq<Call>, result: Outcome)
    ensures RunsTo(made, Calls(groups), outcome, ignoreErrors, result)
  {
    ghost var all := Calls(groups);
    made := [];
    var i := 0;
    assert groups[0..] == groups;
    while i < |groups|
      invariant i <= |groups|
      invariant |made| <= |all| && made == all[..|made|]
      invariant Calls(groups[i..]) == all[|made|..]
      invariant forall k: nat :: k < |made| ==> !Stops(outcome(k), ignoreErrors)
    {
      var n := |made|;
      var call, end := NextCall(groups, i);
      assert all[n..][0] == call && all[n..][1..] == all[n + 1..];
      made, i := made + [call], end;
      if Stops(outcome(n), ignoreErrors) {
        return made, outcome(n);
      }
    }
    assert groups[|groups|..] == [];
    result := Done;
  }

  /** The call for the groups from `i` on, and where the next one starts. */
  method NextCall(groups: seq<Group>, i: nat) returns (call: Call, end: nat)
    requires i < |groups|
    ensures i < end <= |groups|
    ensures Calls(groups[i..]) == [call] + Calls(groups[end..])
  {
    if groups[i].usesBatchSaver {
      assert groups[i..][1..] == groups[i + 1..];
      return Call(groups[i].elems, true), i + 1;
    }
    end := EndOfStretch(groups, i);
    assert groups[i..][..end - i] == groups[i..end] && groups[i..][end - i..] == groups[end..];
    var together := Gather(groups[i..end]);
    call := Call(together, false);
  }

  /** Where the stretch of groups saved element by element ends. */
  method EndOfStretch(groups: seq<Group>, i: nat) returns (end: nat)
    requires i < |groups| && !groups[i].usesBatchSaver
    ensures i < end <= |groups| && end - i == Stretch(groups[i..], 1)
  {
    end := i + 1;
    while end < |groups| && !groups[end].usesBatchSaver
      invariant i < end <= |groups|
      invariant Stretch(groups[i..], end - i) == Stretch(groups[i..], 1)
    {
      end := end + 1;
    }
  }

  method Gather(groups: seq<Group>) returns (elems: seq<Element>)
    ensures elems == ElementsOf(groups)
  {
    elems := [];
    for g := 0 to |groups|
      invariant elems == ElementsOf(groups[..g])
    {
      assert groups[..g + 1] == groups[..g] + [groups[g]];
      ElementsOfConcat(groups[..g], [groups[g]]);
      elems := elems + groups[g].elems;
    }
    assert groups[..|groups|] == groups;
  }

  // ------------------------------------- joining the parallel downloads

  /** The elements whose download succeeded, in source order. */
  function Downloaded(elems: seq<Element>, downloads: seq<Outcome>): (ok: seq<Element>)
    requires |elems| == |downloads|
  {
    if elems == [] then []
    else
      var n := |elems| - 1;
      Downloaded(elems[..n], downloads[..n]) + if downloads[n].Done? then [elems[n]] else []
  }

  lemma DownloadedSnoc(elems: seq<Element>, downloads: seq<Outcome>, n: nat)
    requires n < |elems| == |downloads|
    ensures Downloaded(elems[..n + 1], downloads[..n + 1])
         == Downloaded(elems[..n], downloads[..n]) + if downloads[n].Done? then [elems[n]] else []
  {
    assert elems[..n + 1][..n] == elems[..n] && downloads[..n + 1][..n] == downloads[..n];
  }

  /** Where the downloaded ones of the first `n` elements stand: in ascending
      order, at the positions of the downloads that succeeded, and at all of
      those. */
  lemma {:induction false} DownloadedInOrder(elems: seq<Element>, downloads: seq<Outcome>, n: nat) returns (at: seq<int>)
    requires n <= |elems| == |downloads|
    ensures |at| == |Downloaded(elems[..n], downloads[..n])| && forall i, j :: 0 <= i < j < |at| ==> at[i] < at[j]
    ensures forall i :: 0 <= i < |at| ==>
              0 <= at[i] < n && downloads[at[i]].Done? && Downloaded(elems[..n], downloads[..n])[i] == elems[at[i]]
    ensures forall k {:trigger k in at} :: 0 <= k < n && downloads[k].Done? ==> k in at
  {
    if n == 0 {
      at := [];
    } else {
      at := DownloadedInOrder(elems, downloads, n - 1);
      DownloadedSnoc(elems, downloads, n - 1);
      if downloads[n - 1].Done? {
        at := at + [n - 1];
      }
    }
  }

  ghost predicate NoneStops(downloads: seq<Outcome>, ignoreErrors: bool) {
    forall i :: 0 <= i < |downloads| ==> downloads[i].Done? || (downloads[i].Failed? && ignoreErrors)
  }

  datatype Item = Item(element: Element, size: int)

  datatype Join = Uploads(items: seq<Item>) | Aborted

  /** The items uploaded, for whatever order the downloads finish in: the
      successful ones in source order, unless a failure counts, nothing was
      downloaded, or a cache file cannot be read back. Item `k` belongs to the
      `k`th successful element, the one a progress report for `k` names. */
  method ProcessBatch(
    elems: seq<Element>,
    downloads: seq<Outcome>,
    finishing: seq<nat>,
    ignoreErrors: bool,
    cached: string -> Option<int>)
    returns (join: Join)
    requires |downloads| == |elems|
    requires forall k :: 0 <= k < |finishing| ==> finishing[k] < |elems|
    requires forall i: nat :: i < |elems| ==> i in finishing
    ensures join.Uploads? <==>
              && NoneStops(downloads, ignoreErrors)
              && Downloaded(elems, downloads) != []
              && AllCached(Downloaded(elems, downloads), cached)
    ensures join.Uploads? ==>
              && |join.items| == |Downloaded(elems, downloads)|
              && forall k :: 0 <= k < |join.items| ==>
                   && join.items[k].element == Downloaded(elems, downloads)[k]
                   && cached(join.items[k].element.id) == Some(join.items[k].size)
  {
    var results := new Outcome[|elems|](_ => Failed);
    var failure := Done;
    for k := 0 to |finishing|
      invariant forall j :: 0 <= j < k ==> results[finishing[j]] == downloads[finishing[j]]
      invariant failure.Done? <==> forall j :: 0 <= j < k ==> !Stops(downloads[finishing[j]], ignoreErrors)
    {
      var i := finishing[k];
      results[i] := downloads[i];
      if Stops(downloads[i], ignoreErrors) && failure.Done? {
        failure := downloads[i];
      }
    }
    if !failure.Done? {
      return Aborted;
    }
    forall i: nat | i < |elems| ensures results[i] == downloads[i] && !Stops(downloads[i], ignoreErrors) {
      assert i in finishing;
    }
    var successElems := [];
    for i := 0 to |elems|
      invariant successElems == Downloaded(elems[..i], downloads[..i])
    {
      assert elems[..i + 1][..i] == elems[..i] && downloads[..i + 1][..i] == downloads[..i];
      if results[i].Done? {
        successElems := successElems + [elems[i]];
      }
    }
    assert elems[..|elems|] == elems && downloads[..|elems|] == downloads;
    if |successElems| == 0 {
      return Aborted;
    }
    join := OpenAll(successElems, cached);
  }

  ghost predicate AllCached(elems: seq<Element>, cached: string -> Option<int>) {
    forall k :: 0 <= k < |elems| ==> cached(elems[k].id).Some?
  }

  method OpenAll(elems: seq<Element>, cached: string -> Option<int>) returns (join: Join)
    ensures join.Uploads? <==> AllCached(elems, cached)
    ensures join.Uploads? ==>
              && |join.items| == |elems|
              && forall k :: 0 <= k < |elems| ==>
                   join.items[k].element == elems[k] && cached(elems[k].id) == Some(join.items[k].size)
  {
    var items: seq<Item> := [];
    for k := 0 to |elems|
      invariant |items| == k
      invariant forall j :: 0 <= j < k ==> items[j].element == elems[j] && cached(elems[j].id) == Some(items[j].size)
    {
      var size := cached(elems[k].id);
      if size.None? {
        return Aborted;
      }
      items := items + [Item(elems[k], size.value)];
    }
    join := Uploads(items);
  }
}
