/** One block of messages, in values: which elements it gives, what the batch
    engine makes of them and how the failed set changes. */
module BulkBlocks {
  import opened Lists
  import Decimal
  import opened History
  import opened Checkpoints

  /** How the batch engine leaves one element. Only a completed element is sure
      to be stored; any other may or may not have been. */
  datatype Outcome = Completed | Failed(wasStored: bool) | Stopped(wasStored: bool)

  /** What the surroundings do at each tick of one run: cancel the task's
      context, bring messages, let a call fail, decide how an element ends. */
  datatype Oracle = Oracle(
    cancelled: nat -> bool,
    arrivals: nat -> seq<Message>,
    loadFails: nat -> bool,
    saveFails: nat -> bool,
    resolveFails: nat -> bool,
    fetchFails: nat -> bool,
    refetchFails: nat -> bool,
    buildFails: (nat, int) -> bool,
    outcome: (nat, int) -> Outcome)

  /** A cancelled context stays cancelled and saves nothing. */
  ghost predicate Dependable(o: Oracle) {
    && (forall t: nat, u: nat :: t <= u && o.cancelled(t) ==> o.cancelled(u))
    && (forall t: nat :: o.cancelled(t) ==> o.saveFails(t))
  }

  /** Whether an element ending this way has its file stored. */
  predicate Stores(end: Outcome) {
    end.Completed? || end.wasStored
  }

  /** No file is stored but by completing its element. */
  ghost predicate StoresOnlyCompleted(o: Oracle) {
    forall t: nat, id :: Stores(o.outcome(t, id)) ==> o.outcome(t, id).Completed?
  }

  /** The engine leaves an element neither completed nor failed although the
      context is live when it returns. */
  predicate LeftMidway(o: Oracle, t: nat, id: int) {
    o.outcome(t, id).Stopped? && !o.cancelled(t + 1)
  }

  ghost predicate MayArrive(o: Oracle, m: Message) {
    exists t: nat :: m in o.arrivals(t)
  }

  /** Some outcome of the run stores, or leaves midway, an element of this ID. */
  ghost predicate MayStore(o: Oracle, id: int) {
    exists t: nat :: Stores(o.outcome(t, id))
  }

  ghost predicate MayStrand(o: Oracle, id: int) {
    exists t: nat :: LeftMidway(o, t, id)
  }

  /** The messages, stored files and stranded IDs that can be found in a world. */
  datatype Reach = Reach(messages: iset<Message>, stored: iset<int>, stranded: iset<int>)

  ghost predicate WithinReach(w: World, r: Reach) {
    && (forall m :: m in w.chat ==> m in r.messages)
    && (forall id :: id in w.stored ==> id in r.stored)
    && (forall id :: id in w.stranded ==> id in r.stranded)
  }

  /** All that the run can bring about. */
  ghost predicate Allows(o: Oracle, r: Reach) {
    && (forall t: nat, m :: m in o.arrivals(t) ==> m in r.messages)
    && (forall t: nat, id :: Stores(o.outcome(t, id)) ==> id in r.stored)
    && (forall t: nat, id :: LeftMidway(o, t, id) ==> id in r.stranded)
  }

  /** What there is already, and what the run may add. */
  ghost function ReachOf(w: World, o: Oracle): (r: Reach)
    ensures Allows(o, r) && WithinReach(w, r)
  {
    Reach(iset m | m in w.chat || MayArrive(o, m), iset id | id in w.stored || MayStore(o, id),
          iset id | id in w.stranded || MayStrand(o, id))
  }

  /** No call fails, nothing is cancelled and no element fails; but elements may
      be left midway. */
  ghost predicate Smooth(o: Oracle) {
    && (forall t: nat :: !o.cancelled(t) && !o.loadFails(t) && !o.saveFails(t) && !o.resolveFails(t)
                         && !o.fetchFails(t) && !o.refetchFails(t))
    && (forall t: nat, id :: !o.buildFails(t, id))
    && (forall t: nat, id :: !o.outcome(t, id).Failed?)
  }

  /** Nothing goes wrong in the run. */
  ghost predicate Undisturbed(o: Oracle) {
    Smooth(o) && forall t: nat, id :: o.outcome(t, id).Completed?
  }

  /** Messages arrive only with IDs above those in the chat. */
  function Arrived(chat: seq<Message>, more: seq<Message>): (later: seq<Message>)
    requires LegalChat(chat)
    ensures chat <= later && LegalChat(later) && forall m :: m in later ==> m in chat || m in more
  {
    if LegalChat(chat + more) then chat + more else chat
  }

  /** A chat may grow in any way that keeps it legal. */
  lemma AnyGrowthArrives(chat: seq<Message>, later: seq<Message>)
    requires chat <= later && LegalChat(later) && LegalChat(chat)
    ensures Arrived(chat, later[|chat|..]) == later
  {
    assert chat + later[|chat|..] == later;
  }

  const DEAD_CONNECTION_FAILURES: nat := 5

  ghost predicate InRangeIds(block: seq<Message>) {
    forall i :: 0 <= i < |block| ==> Decimal.InRange(block[i].id)
  }

  ghost predicate WantedIn(block: seq<Message>, id: int) {
    exists k :: 0 <= k < |block| && block[k].Wanted() && block[k].id == id
  }

  /** Every wanted message of the block is stored, in the failed set or among
      those left midway. */
  ghost predicate Settled(block: seq<Message>, stored: set<int>, failed: set<int>, stranded: set<int>) {
    forall i :: 0 <= i < |block| && block[i].Wanted() ==>
      block[i].id in stored || block[i].id in failed || block[i].id in stranded
  }

  /** The wanted messages an element is built for, in order. */
  function Buildable(o: Oracle, t: nat, block: seq<Message>): seq<int> {
    if block == [] then []
    else
      var m := block[|block| - 1];
      Buildable(o, t, block[..|block| - 1]) + if m.Wanted() && !o.buildFails(t, m.id) then [m.id] else []
  }

  function Unbuildable(o: Oracle, t: nat, block: seq<Message>): seq<int> {
    if block == [] then []
    else
      var m := block[|block| - 1];
      Unbuildable(o, t, block[..|block| - 1]) + if m.Wanted() && o.buildFails(t, m.id) then [m.id] else []
  }

  lemma OneMessage(o: Oracle, t: nat, m: Message)
    ensures Buildable(o, t, [m]) == if m.Wanted() && !o.buildFails(t, m.id) then [m.id] else []
    ensures Unbuildable(o, t, [m]) == if m.Wanted() && o.buildFails(t, m.id) then [m.id] else []
  {
    assert [m][..0] == [];
    assert Buildable(o, t, [m][..0]) == [] && Unbuildable(o, t, [m][..0]) == [];
  }

  lemma {:induction false} BuiltOrFailed(o: Oracle, t: nat, block: seq<Message>)
    ensures forall i :: 0 <= i < |block| && block[i].Wanted() ==>
              block[i].id in Buildable(o, t, block) || block[i].id in Unbuildable(o, t, block)
    ensures forall id :: id in Buildable(o, t, block) || id in Unbuildable(o, t, block) ==> WantedIn(block, id)
    ensures |Buildable(o, t, block)| <= |block|
  {
    if block != [] {
      var n := |block| - 1;
      BuiltOrFailed(o, t, block[..n]);
      forall id | WantedIn(block[..n], id) ensures WantedIn(block, id) {
        var k :| 0 <= k < n && block[..n][k].Wanted() && block[..n][k].id == id;
        assert block[k].Wanted() && block[k].id == id;
      }
      assert block[n].Wanted() ==> WantedIn(block, block[n].id);
    }
  }

  lemma BuildableWithin(o: Oracle, t: nat, block: seq<Message>)
    requires InRangeIds(block)
    ensures forall id :: id in Buildable(o, t, block) ==> Decimal.InRange(id)
    ensures |Buildable(o, t, block)| <= |block|
  {
    BuiltOrFailed(o, t, block);
  }

  ghost predicate NoRepeats(ids: seq<int>) {
    forall i, j :: 0 <= i < j < |ids| ==> ids[i] != ids[j]
  }

  /** Each message of a page gets at most one element. */
  lemma {:induction false} BuildableIsDistinct(o: Oracle, t: nat, block: seq<Message>)
    requires Rising(block)
    ensures NoRepeats(Buildable(o, t, block))
  {
    if block != [] {
      var n := |block| - 1;
      BuildableIsDistinct(o, t, block[..n]);
      BuiltOrFailed(o, t, block[..n]);
      var front := Buildable(o, t, block[..n]);
      forall i | 0 <= i < |front| ensures front[i] < block[n].id {
        assert front[i] in front;
        var k :| 0 <= k < n && block[..n][k].Wanted() && block[..n][k].id == front[i];
      }
    }
  }

  function CompletedIds(o: Oracle, end: nat, elems: seq<int>): set<int> {
    set id | id in elems && o.outcome(end, id).Completed?
  }

  function FailedOnes(o: Oracle, end: nat, elems: seq<int>): set<int> {
    set id | id in elems && o.outcome(end, id).Failed?
  }

  /** One more element adds one to the count of its outcome. */
  lemma CountOneMore(o: Oracle, end: nat, elems: seq<int>, k: nat)
    requires k < |elems|
    ensures var before, after := elems[..k], elems[..k + 1];
            var completed, failed := o.outcome(end, elems[k]).Completed?, o.outcome(end, elems[k]).Failed?;
            && |CompletedIds(o, end, after)| <= |CompletedIds(o, end, before)| + (if completed then 1 else 0)
            && |FailedOnes(o, end, after)| <= |FailedOnes(o, end, before)| + (if failed then 1 else 0)
            && (NoRepeats(elems) ==>
                  && |CompletedIds(o, end, after)| == |CompletedIds(o, end, before)| + (if completed then 1 else 0)
                  && |FailedOnes(o, end, after)| == |FailedOnes(o, end, before)| + (if failed then 1 else 0))
  {
    var before, after, id := elems[..k], elems[..k + 1], elems[k];
    assert after == before + [id];
    OneMore(CompletedIds(o, end, before), CompletedIds(o, end, after), id, o.outcome(end, id).Completed?);
    OneMore(FailedOnes(o, end, before), FailedOnes(o, end, after), id, o.outcome(end, id).Failed?);
    assert NoRepeats(elems) ==> id !in before;
  }

  lemma OneMore(before: set<int>, after: set<int>, id: int, counted: bool)
    requires forall x :: x in after <==> x in before || (counted && x == id)
    ensures |after| <= |before| + (if counted then 1 else 0)
    ensures id !in before ==> |after| == |before| + (if counted then 1 else 0)
  {
    if counted && id !in before {
      Smaller(before, after - {id});
      Smaller(after - {id}, before);
    } else {
      Smaller(before, after);
      Smaller(after, before);
    }
  }

  lemma {:induction false} CountsWithin(o: Oracle, end: nat, elems: seq<int>, n: nat)
    requires n <= |elems|
    ensures |CompletedIds(o, end, elems[..n])| + |FailedOnes(o, end, elems[..n])| <= n
    ensures NoRepeats(elems) && (forall id :: id in elems ==> o.outcome(end, id).Completed?) ==>
              |CompletedIds(o, end, elems[..n])| == n
  {
    if n == 0 {
      assert CompletedIds(o, end, elems[..0]) == {} && FailedOnes(o, end, elems[..0]) == {};
    } else {
      CountsWithin(o, end, elems, n - 1);
      CountOneMore(o, end, elems, n - 1);
    }
  }

  lemma CountMore(counted: set<int>, more: set<int>)
    ensures |counted + more| <= |counted| + |more|
  {
    var rest := more - counted;
    assert counted + more == counted + rest && |rest| <= |more| by {
      assert more == rest + (more * counted);
    }
  }

  /** The elements built for the scanned part of a page. */
  lemma BuiltInOrder(o: Oracle, t: nat, block: seq<Message>, done: seq<Message>)
    requires Rising(block) && InRangeIds(block) && done <= block
    ensures var elems := Buildable(o, t, done);
            && NoRepeats(elems) && (forall id :: id in elems ==> Decimal.InRange(id)) && |elems| <= |done|
            && |CompletedIds(o, t, elems)| <= |elems|
            && (elems == [] ==> |CompletedIds(o, t, elems)| == 0 && |FailedOnes(o, t, elems)| == 0)
            && (Undisturbed(o) ==> |CompletedIds(o, t, elems)| == |elems|)
  {
    var elems := Buildable(o, t, done);
    assert forall i :: 0 <= i < |done| ==> done[i] == block[i];
    BuildableIsDistinct(o, t, done);
    BuildableWithin(o, t, done);
    CountsWithin(o, t, elems, |elems|);
    assert elems[..|elems|] == elems;
  }

  /** Several elements failed and none completed. */
  ghost predicate DeadConnection(o: Oracle, end: nat, elems: seq<int>) {
    (forall id :: id in elems ==> !o.outcome(end, id).Completed?)
    && |FailedOnes(o, end, elems)| >= 5
  }

  lemma {:induction false} NoneCompletedIff(o: Oracle, end: nat, elems: seq<int>, n: nat)
    requires NoRepeats(elems) && n <= |elems|
    ensures |CompletedIds(o, end, elems[..n])| == 0 <==>
            forall i :: 0 <= i < n ==> !o.outcome(end, elems[i]).Completed?
  {
    if n == 0 {
      assert CompletedIds(o, end, elems[..0]) == {};
    } else {
      NoneCompletedIff(o, end, elems, n - 1);
      CountOneMore(o, end, elems, n - 1);
    }
  }

  /** The failed set once the engine is done with the elements: the completed
      ones have left it and the failed ones are in it. */
  ghost predicate AfterEngine(o: Oracle, end: nat, elems: seq<int>, failed: set<int>, after: set<int>) {
    forall id :: id in after <==>
      if id in elems && o.outcome(end, id).Completed? then false
      else id in failed || (id in elems && o.outcome(end, id).Failed?)
  }

  lemma AfterOneMore(o: Oracle, end: nat, elems: seq<int>, k: nat, failed: set<int>, before: set<int>, after: set<int>)
    requires k < |elems| && AfterEngine(o, end, elems[..k], failed, before)
    requires match o.outcome(end, elems[k])
             case Completed => after == before - {elems[k]}
             case Failed(_) => after == before + {elems[k]}
             case Stopped(_) => after == before
    ensures AfterEngine(o, end, elems[..k + 1], failed, after)
  {
    assert forall id :: id in elems[..k + 1] <==> id in elems[..k] || id == elems[k];
  }

  /** What the engine has left midway under a live context, with its file neither
      stored nor listed as failed. */
  ghost predicate LostMidway(o: Oracle, t: nat, elems: seq<int>, stored: set<int>, failed: set<int>, id: int) {
    id in elems && LeftMidway(o, t, id) && id !in stored && id !in failed
  }

  /** The failed set after a block: messages no element could be built for have
      joined it as well. */
  ghost predicate AfterBlock(o: Oracle, t: nat, block: seq<Message>, failed: set<int>, after: set<int>) {
    forall id :: id in after <==>
      if id in Buildable(o, t, block) && o.outcome(t, id).Completed? then false
      else id in failed || id in Unbuildable(o, t, block) || (id in Buildable(o, t, block) && o.outcome(t, id).Failed?)
  }

  /** A failed ID is dropped only for a stored file; only wanted messages of the
      block join the failed set or are stored. */
  ghost predicate Moved(block: seq<Message>, failed: set<int>, stored: set<int>, failedAfter: set<int>, storedAfter: set<int>) {
    && (forall id :: id in failed ==> id in failedAfter || id in storedAfter)
    && (forall id :: id in failedAfter ==> id in failed || WantedIn(block, id))
    && (forall id :: id in storedAfter ==> id in stored || WantedIn(block, id))
  }

  /** What the engine does to a block. The block is settled exactly when every
      element left midway is stored anyway, was in the failed set, or is counted
      among the stranded; without any stranded, that is the exact condition for
      losing nothing. */
  lemma EngineSettles(o: Oracle, t: nat, block: seq<Message>,
                      failed: set<int>, stored: set<int>, failedAfter: set<int>, storedAfter: set<int>, stranded: set<int>)
    requires AfterBlock(o, t, block, failed, failedAfter)
    requires forall id :: id in Buildable(o, t, block) && o.outcome(t, id).Completed? ==> id in storedAfter
    requires forall id :: id in storedAfter ==> id in stored || id in Buildable(o, t, block)
    ensures Moved(block, failed, stored, failedAfter, storedAfter)
    ensures Settled(block, storedAfter, failedAfter, stranded) <==>
            forall id :: id in Buildable(o, t, block) && o.outcome(t, id).Stopped? ==>
              id in storedAfter || id in failed || id in Unbuildable(o, t, block) || id in stranded
  {
    BuiltOrFailed(o, t, block);
    if Settled(block, storedAfter, failedAfter, stranded) {
      forall id | id in Buildable(o, t, block) && o.outcome(t, id).Stopped?
        ensures id in storedAfter || id in failed || id in Unbuildable(o, t, block) || id in stranded
      {
        assert WantedIn(block, id);
      }
    }
  }

  /** A single message whose element the engine leaves midway, unstored, under a
      live context: the block is not settled, so moving the cursor over it loses
      the message. */
  lemma MidwayIsLost(o: Oracle, t: nat, m: Message, stored: set<int>)
    requires m.Wanted() && !o.buildFails(t, m.id) && o.outcome(t, m.id) == Stopped(false)
    requires m.id !in stored
    ensures AfterBlock(o, t, [m], {}, {}) && !Settled([m], stored, {}, {})
  {
    OneMessage(o, t, m);
    assert [m][0].Wanted();
  }

  ghost predicate Within(some: set<int>, all: set<int>) {
    forall id :: id in some ==> id in all
  }

  lemma {:induction false} AllBuilt(o: Oracle, t: nat, block: seq<Message>)
    requires Smooth(o)
    ensures Unbuildable(o, t, block) == []
  {
    if block != [] {
      AllBuilt(o, t, block[..|block| - 1]);
    }
  }

  lemma NoneFailed(o: Oracle, t: nat, elems: seq<int>)
    requires Smooth(o)
    ensures FailedOnes(o, t, elems) == {}
  {
    assert forall id :: id in elems ==> !o.outcome(t, id).Failed?;
  }

  lemma SmoothBlock(o: Oracle, t: nat, block: seq<Message>, failed: set<int>, after: set<int>)
    requires AfterBlock(o, t, block, failed, after)
    ensures Smooth(o) ==> Within(after, failed) && !DeadConnection(o, t, Buildable(o, t, block))
  {
    if Smooth(o) {
      AllBuilt(o, t, block);
      NoneFailed(o, t, Buildable(o, t, block));
    }
  }

  function Find(chat: seq<Message>, id: int): (m: Option<Message>)
    ensures m.Some? ==> m.value in chat && m.value.id == id
  {
    if chat == [] then None
    else if chat[|chat| - 1].id == id then Some(chat[|chat| - 1])
    else Find(chat[..|chat| - 1], id)
  }

  lemma {:induction false} FindFinds(chat: seq<Message>, i: nat)
    requires Rising(chat) && i < |chat|
    ensures Find(chat, chat[i].id) == Some(chat[i])
  {
    if i < |chat| - 1 {
      FindFinds(chat[..|chat| - 1], i);
    }
  }

  lemma FindIsComplete(chat: seq<Message>, later: seq<Message>, id: int)
    requires chat <= later && LegalChat(later)
    ensures WantedIn(chat, id) ==> Find(later, id).Some? && Find(later, id).value.Wanted()
    ensures Find(later, id).Some? ==> Decimal.InRange(id)
  {
    if WantedIn(chat, id) {
      var k :| 0 <= k < |chat| && chat[k].Wanted() && chat[k].id == id;
      FindFinds(later, k);
    }
  }

  /** Of the IDs listed, those of wanted messages have left the failed set. */
  ghost predicate Cleared(chat: seq<Message>, ids: seq<int>, failed: set<int>) {
    forall j :: 0 <= j < |ids| && WantedIn(chat, ids[j]) ==> ids[j] !in failed
  }

  lemma ClearedStep(chat: seq<Message>, later: seq<Message>, ids: seq<int>, i: nat, before: set<int>, after: set<int>)
    requires i < |ids| && chat <= later && Within(after, before)
    ensures Cleared(chat, ids[..i], before) && (WantedIn(later, ids[i]) ==> ids[i] !in after) ==>
              Cleared(chat, ids[..i + 1], after)
  {
    assert forall j :: 0 <= j < i ==> ids[..i][j] == ids[j];
    if WantedIn(chat, ids[i]) {
      var k :| 0 <= k < |chat| && chat[k].Wanted() && chat[k].id == ids[i];
      assert later[k] == chat[k];
    }
  }

  /** A block of one failed message either leaves the failed set as it is or
      clears that message. */
  lemma SingleBlock(o: Oracle, t: nat, m: Message, failed: set<int>, after: set<int>)
    requires m.id in failed && AfterBlock(o, t, [m], failed, after)
    ensures Within(after, failed) && forall id :: id in failed && id != m.id ==> id in after
    ensures m.Wanted() && !o.buildFails(t, m.id) && o.outcome(t, m.id).Completed? ==> m.id !in after
    ensures |CompletedIds(o, t, Buildable(o, t, [m]))| <= 1
    ensures forall id :: id in Buildable(o, t, [m]) ==> id == m.id
  {
    OneMessage(o, t, m);
    var elems := Buildable(o, t, [m]);
    CountsWithin(o, t, elems, |elems|);
    assert elems[..|elems|] == elems;
  }
}
