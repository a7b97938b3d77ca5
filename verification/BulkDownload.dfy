/** The resumable bulk download of a chat. A run pages back to its checkpoint,
    replays the pages oldest first, retries what failed before and saves its
    checkpoint as it goes. */
module BulkDownload {
  import opened Lists
  import Decimal
  import opened FailedIds
  import opened History
  import opened Checkpoints
  import opened BulkBlocks
  import opened BulkPaging

  datatype Fetched = Page(msgs: seq<Message>) | FetchError

  datatype BlockResult = BlockResult(highest: int, capped: bool, dead: bool)

  class Task {
    const site: Site
    const oracle: Oracle
    const maxMessages: nat
    const attempts: int
    var failed: set<int>
    var saved: nat
    var now: nat
    /** What was there before, and what this run may add. */
    ghost const reach: Reach
    /** The files found at the start, and the elements counted as saved. */
    ghost const found: set<int>
    ghost var counted: set<int>

    constructor (site: Site, oracle: Oracle, maxMessages: nat, attempts: int)
      ensures this.site == site && this.oracle == oracle
      ensures this.maxMessages == maxMessages && this.attempts == attempts
      ensures failed == {} && saved == 0 && now == 0
      ensures reach == ReachOf(site.world, oracle) && found == site.world.stored && counted == {}
    {
      this.site, this.oracle, this.maxMessages, this.attempts := site, oracle, maxMessages, attempts;
      failed, saved, now := {}, 0, 0;
      reach, found, counted := ReachOf(site.world, oracle), site.world.stored, {};
    }

    /** The surroundings and the set are in order. */
    ghost predicate Ready()
      reads this, site
    {
      && site.Valid() && Dependable(oracle)
      && Allows(oracle, reach) && WithinReach(site.world, reach)
      && (StoresOnlyCompleted(oracle) ==> forall id :: id in site.world.stored ==> id in found || id in counted)
      && forall id :: id in failed ==> Decimal.InRange(id)
    }

    ghost predicate BelowCap()
      reads this`saved
    {
      maxMessages == 0 || saved < maxMessages
    }

    /** Time passes: messages may arrive. */
    method Tick()
      requires Ready()
      modifies this`now, site
      ensures Ready() && now == old(now) + 1
      ensures Grows(old(site.world), site.world)
      ensures site.world == old(site.world).(chat := site.world.chat)
      ensures Extends(old(site.history), site.history, true)
      ensures oracle.cancelled(old(now)) ==> oracle.cancelled(now)
    {
      site.IsLegal();
      now := now + 1;
      var w := site.world;
      var later := w.(chat := Arrived(w.chat, oracle.arrivals(now)));
      site.Grow(later);
    }

    method LoadCheckpoint() returns (lastRead: int)
      requires Ready() && failed == {} && now == 0
      modifies this`now, this`failed, site
      ensures Ready() && now == 1
      ensures Grows(old(site.world), site.world)
      ensures Extends(old(site.history), site.history, true)
      ensures 0 <= lastRead <= LastId(site.world.chat)
      ensures Accounted(site.world, lastRead, failed)
      ensures !oracle.loadFails(1) ==> lastRead == Cursor(site.world.row) && failed == Recorded(site.world.row)
      ensures oracle.loadFails(1) ==> lastRead == 0 && failed == {}
    {
      Tick();
      site.IsLegal();
      NoneAtZero(site.world);
      if oracle.loadFails(now) || site.world.row.None? {
        return 0;
      }
      lastRead, failed := site.ReadRow();
    }

    /** Saving fails, or replaces the checkpoint row by the cursor and the failed
        IDs that fit. */
    method SaveCheckpoint(cursor: int)
      requires Ready() && 0 <= cursor <= LastId(site.world.chat)
      requires oracle.cancelled(now) || Accounted(site.world, cursor, failed)
      modifies this`now, site
      ensures Ready() && now == old(now) + 1
      ensures old(site.world).chat <= site.world.chat && site.world.stored == old(site.world.stored)
      ensures site.world.stranded == old(site.world.stranded) && site.world.hidden == old(site.world.hidden)
      ensures if oracle.saveFails(now) then site.world == old(site.world).(chat := site.world.chat)
              else IsSave(old(site.world).(chat := site.world.chat), site.world, cursor, failed)
      ensures Extends(old(site.history), site.history, Cursor(old(site.world).row) <= cursor)
      ensures oracle.cancelled(old(now)) ==> oracle.cancelled(now)
      ensures Accounted(old(site.world), cursor, failed) ==> Accounted(site.world, cursor, failed)
      ensures cursor <= LastId(site.world.chat)
    {
      ghost var before := site.world;
      Tick();
      site.IsLegal();
      GrowsKeepsLast(before, site.world);
      if Accounted(before, cursor, failed) {
        GrowsKeepsAccounted(before, site.world, cursor, failed);
      }
      if oracle.saveFails(now) {
        return;
      }
      site.WriteRow(cursor, failed);
    }

    /** What the run needs to know of a save. */
    method RecordProgress(cursor: int)
      requires Ready() && 0 <= cursor <= LastId(site.world.chat)
      requires oracle.cancelled(now) || Accounted(site.world, cursor, failed)
      modifies this`now, site
      ensures Ready() && now == old(now) + 1
      ensures Keeps(old(site.world), site.world)
      ensures oracle.saveFails(now) ==> site.world.row == old(site.world).row
      ensures !oracle.saveFails(now) ==> Cursor(site.world.row) == cursor && Within(Recorded(site.world.row), failed)
      ensures Extends(old(site.history), site.history, Cursor(old(site.world).row) <= cursor)
      ensures oracle.cancelled(old(now)) ==> oracle.cancelled(now)
      ensures Accounted(old(site.world), cursor, failed) ==> Accounted(site.world, cursor, failed)
      ensures cursor <= LastId(site.world.chat)
    {
      SaveCheckpoint(cursor);
    }

    // ------------------------------------------------------- one block

    /** Scans a block for wanted messages: each gets an element or, if none can
        be built, joins the failed set. The cap ends the scan at the element
        that fills it, and `done` is the part that was scanned. */
    method BuildElements(block: seq<Message>)
        returns (elems: seq<int>, highest: int, capped: bool, ghost done: seq<Message>)
      requires Ready() && block != [] && InRangeIds(block)
      modifies this`failed
      ensures Ready()
      ensures done != [] && done <= block && highest == LastId(done)
      ensures elems == Buildable(oracle, now, done)
      ensures forall id :: id in failed <==> id in old(failed) || id in Unbuildable(oracle, now, done)
      ensures if capped then elems != [] && elems[|elems| - 1] == highest else done == block
      ensures capped <==> maxMessages > 0 && |elems| > 0 && saved + |elems| >= maxMessages
      ensures maxMessages > 0 ==> |elems| <= 1 || saved + |elems| <= maxMessages
    {
      highest := block[|block| - 1].id;
      elems, capped, done := [], false, block;
      for k := 0 to |block|
        invariant Ready()
        invariant elems == Buildable(oracle, now, block[..k])
        invariant forall id :: id in failed <==> id in old(failed) || id in Unbuildable(oracle, now, block[..k])
        invariant maxMessages > 0 ==> |elems| == 0 || saved + |elems| < maxMessages
      {
        var m := block[k];
        assert block[..k + 1][..k] == block[..k];
        if !m.Wanted() {
          continue;
        }
        if oracle.buildFails(now, m.id) {
          failed := failed + {m.id};
          continue;
        }
        elems := elems + [m.id];
        if maxMessages > 0 && saved + |elems| >= maxMessages {
          highest, capped, done := m.id, true, block[..k + 1];
          return;
        }
      }
      assert block[..|block|] == block;
    }

    /** Files are stored one by one, whatever becomes of their elements. */
    method StoreFiles(elems: seq<int>)
      requires Ready() && forall id :: id in elems && oracle.outcome(now, id).Completed? ==> id in counted
      modifies site
      ensures Ready()
      ensures Grows(old(site.world), site.world)
      ensures Extends(old(site.history), site.history, true)
      ensures site.world.stranded == old(site.world.stranded)
      ensures forall id :: id in site.world.stored <==>
                id in old(site.world.stored) || (id in elems && Stores(oracle.outcome(now, id)))
    {
      for k := 0 to |elems|
        invariant Ready()
        invariant Grows(old(site.world), site.world)
        invariant Extends(old(site.history), site.history, true)
        invariant site.world.stranded == old(site.world.stranded)
        invariant forall id :: id in site.world.stored <==>
                    id in old(site.world.stored) || (id in elems[..k] && Stores(oracle.outcome(now, id)))
      {
        assert elems[..k + 1] == elems[..k] + [elems[k]];
        if Stores(oracle.outcome(now, elems[k])) {
          var next := site.world.(stored := site.world.stored + {elems[k]});
          site.IsLegal();
          site.Grow(next);
        }
      }
      assert elems[..|elems|] == elems;
    }

    /** The run goes on without the elements that were left midway. */
    method Strand(elems: seq<int>, end: nat)
      requires Ready() && now == end + 1 && !oracle.cancelled(now)
      modifies site
      ensures Ready()
      ensures Grows(old(site.world), site.world) && site.world.stored == old(site.world.stored)
      ensures Extends(old(site.history), site.history, true)
      ensures forall id :: id in site.world.stranded <==>
                id in old(site.world.stranded) || LostMidway(oracle, end, elems, site.world.stored, failed, id)
    {
      var lost := set id | id in elems && oracle.outcome(end, id).Stopped? && id !in site.world.stored && id !in failed;
      assert forall id :: id in lost ==> LeftMidway(oracle, end, id);
      site.IsLegal();
      site.Grow(site.world.(stranded := site.world.stranded + lost));
    }

    /** The batch engine on the elements of a page. */
    method RunEngine(elems: seq<int>)
      requires Ready() && forall id :: id in elems && oracle.outcome(now, id).Completed? ==> id in counted
      modifies this`now, site
      ensures Ready() && now == old(now) + 1
      ensures Grows(old(site.world), site.world)
      ensures Extends(old(site.history), site.history, true)
      ensures oracle.cancelled(old(now)) ==> oracle.cancelled(now)
      ensures forall id :: id in site.world.stored <==>
                id in old(site.world.stored) || (id in elems && Stores(oracle.outcome(old(now), id)))
      ensures forall id :: id in site.world.stranded <==>
                id in old(site.world.stranded) || LostMidway(oracle, old(now), elems, site.world.stored, failed, id)
    {
      var end := now;
      StoreFiles(elems);
      Tick();
      if oracle.cancelled(now) {
        assert oracle.cancelled(end + 1);
        return;
      }
      Strand(elems, end);
    }

    /** Completed elements leave the failed set, failed ones join it, and the
        others change nothing. Counted are the completed and the failed ones. */
    method Tally(elems: seq<int>, end: nat) returns (savedCount: nat, failedCount: nat)
      requires Ready() && NoRepeats(elems) && forall id :: id in elems ==> Decimal.InRange(id)
      modifies this`failed
      ensures Ready()
      ensures AfterEngine(oracle, end, elems, old(failed), failed)
      ensures savedCount == |set id | id in elems && oracle.outcome(end, id).Completed?|
      ensures failedCount == |set id | id in elems && oracle.outcome(end, id).Failed?|
    {
      savedCount, failedCount := 0, 0;
      assert elems[..0] == [];
      assert CompletedIds(oracle, end, elems[..0]) == {} && FailedOnes(oracle, end, elems[..0]) == {};
      for k := 0 to |elems|
        invariant Ready()
        invariant AfterEngine(oracle, end, elems[..k], old(failed), failed)
        invariant savedCount == |CompletedIds(oracle, end, elems[..k])|
        invariant failedCount == |FailedOnes(oracle, end, elems[..k])|
      {
        var id := elems[k];
        assert elems[..k + 1][..k] == elems[..k];
        CountOneMore(oracle, end, elems, k);
        ghost var before := failed;
        match oracle.outcome(end, id) {
          case Completed =>
            savedCount := savedCount + 1;
            failed := failed - {id};
          case Failed(_) =>
            failedCount := failedCount + 1;
            failed := failed + {id};
          case Stopped(_) =>
        }
        AfterOneMore(oracle, end, elems, k, old(failed), before, failed);
      }
      assert elems[..|elems|] == elems;
    }

    /** The engine on the elements of a page, and what the run makes of it: the
        link is dead when several elements failed and none completed. */
    method RunElements(elems: seq<int>) returns (dead: bool)
      requires Ready() && NoRepeats(elems) && forall id :: id in elems ==> Decimal.InRange(id)
      requires |counted| <= saved
      modifies this`failed, this`saved, this`now, this`counted, site
      ensures Ready() && now == old(now) + 1
      ensures Grows(old(site.world), site.world)
      ensures Extends(old(site.history), site.history, true)
      ensures oracle.cancelled(old(now)) ==> oracle.cancelled(now)
      ensures AfterEngine(oracle, old(now), elems, old(failed), failed)
      ensures saved == old(saved) + |CompletedIds(oracle, old(now), elems)| && |counted| <= saved
      ensures dead <==> DeadConnection(oracle, old(now), elems) && !oracle.cancelled(now)
      ensures forall id :: id in site.world.stored <==>
                id in old(site.world.stored) || (id in elems && Stores(oracle.outcome(old(now), id)))
      ensures forall id :: id in site.world.stranded <==>
                id in old(site.world.stranded) || LostMidway(oracle, old(now), elems, site.world.stored, old(failed), id)
    {
      var end := now;
      CountMore(counted, CompletedIds(oracle, end, elems));
      counted := counted + CompletedIds(oracle, end, elems);
      RunEngine(elems);
      var savedCount, failedCount := Tally(elems, end);
      saved := saved + savedCount;
      dead := failedCount > 0 && savedCount == 0 && failedCount >= DEAD_CONNECTION_FAILURES && !oracle.cancelled(now);
      NoneCompletedIff(oracle, end, elems, |elems|);
      assert elems[..|elems|] == elems;
    }

    /** One page through the engine. Unless the context ended up cancelled, every
        wanted message up to the returned ID is stored, in the failed set or
        stranded, and stranded are exactly those left midway without a file; a
        failed ID leaves the set only once its file is stored. With a cap the
        page stores no more than the cap leaves room for, or one, and if it was
        cut and all its elements completed, the cap is reached. */
    method RunBlock(block: seq<Message>) returns (r: BlockResult, ghost done: seq<Message>)
      requires Ready() && Rising(block) && InRangeIds(block) && |counted| <= saved
      modifies this`failed, this`saved, this`now, this`counted, site
      ensures Ready() && now >= old(now) && |counted| <= saved
      ensures Grows(old(site.world), site.world)
      ensures Extends(old(site.history), site.history, true)
      ensures oracle.cancelled(old(now)) ==> oracle.cancelled(now)
      ensures done <= block && (block != [] ==> done != [] && r.highest == LastId(done))
      ensures if r.capped then maxMessages > 0 else done == block
      ensures AfterBlock(oracle, old(now), done, old(failed), failed)
      ensures var elems := Buildable(oracle, old(now), done);
              && saved == old(saved) + |CompletedIds(oracle, old(now), elems)|
              && (r.dead <==> DeadConnection(oracle, old(now), elems) && !oracle.cancelled(now))
              && (forall id :: id in site.world.stored <==>
                    id in old(site.world.stored) || (id in elems && Stores(oracle.outcome(old(now), id))))
              && (forall id :: id in site.world.stranded <==>
                    id in old(site.world.stranded)
                    || (LostMidway(oracle, old(now), elems, site.world.stored, old(failed), id)
                        && id !in Unbuildable(oracle, old(now), done)))
      ensures Moved(done, old(failed), old(site.world.stored), failed, site.world.stored)
      ensures oracle.cancelled(now) || Settled(done, site.world.stored, failed, site.world.stranded)
      ensures saved <= old(saved) + |block|
      ensures maxMessages > 0 ==> saved <= maxMessages || saved <= old(saved) + 1
      ensures Undisturbed(oracle) && r.capped ==> !BelowCap()
    {
      ghost var failedBefore, storedBefore, start := failed, site.world.stored, now;
      if |block| == 0 {
        assert Buildable(oracle, now, []) == [] && CompletedIds(oracle, now, []) == {};
        return BlockResult(0, false, false), [];
      }
      var elems, highest, capped;
      elems, highest, capped, done := BuildElements(block);
      BuiltInOrder(oracle, now, block, done);
      if |elems| == 0 {
        EngineSettles(oracle, start, done, failedBefore, storedBefore, failed, storedBefore, site.world.stranded);
        return BlockResult(highest, capped, false), done;
      }
      var dead := RunElements(elems);
      EngineSettles(oracle, start, done, failedBefore, storedBefore, failed, site.world.stored, site.world.stranded);
      r := BlockResult(highest, capped, dead);
    }

    // ---------------------------------------------- retrying failed IDs

    /** One failed message is fetched again and run as a block of its own. */
    method RetryOne(id: int) returns (retried: bool)
      requires Ready() && id in failed && |counted| <= saved
      modifies this`failed, this`saved, this`now, this`counted, site
      ensures Ready() && now > old(now) && |counted| <= saved
      ensures Grows(old(site.world), site.world) && Within(site.world.stranded, old(site.world.stranded))
      ensures Extends(old(site.history), site.history, true)
      ensures oracle.cancelled(old(now)) ==> oracle.cancelled(now)
      ensures Within(failed, old(failed)) && forall x :: x in old(failed) && x != id ==> x in failed
      ensures id in failed || id in site.world.stored
      ensures forall x :: x in site.world.stored ==> x in old(site.world.stored) || x == id
      ensures old(saved) <= saved <= old(saved) + if retried then 1 else 0
      ensures Undisturbed(oracle) && WantedIn(old(site.world.chat), id) ==> id !in failed
    {
      ghost var start := site.world;
      Tick();
      site.IsLegal();
      var m := Find(site.world.chat, id);
      FindIsComplete(start.chat, site.world.chat, id);
      if oracle.refetchFails(now) || m.None? {
        return false;
      }
      ghost var before, at := failed, now;
      var r, done := RunBlock([m.value]);
      assert done == [m.value];
      SingleBlock(oracle, at, m.value, before, failed);
      retried := true;
    }

    /** The recorded failed messages are tried again in ascending order. Retrying
        adds nothing to the failed set, drops only what was stored and strands
        nothing; if nothing goes wrong, every wanted message leaves the set. */
    method RetryFailed() returns (retried: nat)
      requires Ready() && |counted| <= saved
      modifies this`failed, this`saved, this`now, this`counted, site
      ensures Ready() && |counted| <= saved && now >= old(now) && (old(failed) == {} ==> now == old(now))
      ensures Grows(old(site.world), site.world) && Within(site.world.stranded, old(site.world.stranded))
      ensures Extends(old(site.history), site.history, true)
      ensures oracle.cancelled(old(now)) ==> oracle.cancelled(now)
      ensures Within(failed, old(failed))
      ensures forall id :: id in old(failed) ==> id in failed || id in site.world.stored
      ensures forall id :: id in site.world.stored ==> id in old(site.world.stored) || id in old(failed)
      ensures retried <= |old(failed)| && old(saved) <= saved <= old(saved) + retried
      ensures Undisturbed(oracle) ==> forall id :: id in failed ==> !WantedIn(old(site.world.chat), id)
    {
      var ids := Ascending(failed);
      retried := 0;
      for i := 0 to |ids|
        invariant Ready() && |counted| <= saved && now >= old(now) && (i == 0 ==> now == old(now))
        invariant Grows(old(site.world), site.world) && Within(site.world.stranded, old(site.world.stranded))
        invariant Extends(old(site.history), site.history, true)
        invariant oracle.cancelled(old(now)) ==> oracle.cancelled(now)
        invariant Within(failed, old(failed)) && forall j :: i <= j < |ids| ==> ids[j] in failed
        invariant forall id :: id in old(failed) ==> id in failed || id in site.world.stored
        invariant forall id :: id in site.world.stored ==> id in old(site.world.stored) || id in old(failed)
        invariant retried <= i && old(saved) <= saved <= old(saved) + retried
        invariant Undisturbed(oracle) ==> Cleared(old(site.world.chat), ids[..i], failed)
      {
        if oracle.cancelled(now) {
          return;
        }
        ghost var before, chat := failed, site.world.chat;
        var done := RetryOne(ids[i]);
        ClearedStep(old(site.world.chat), chat, ids, i, before, failed);
        retried := retried + if done then 1 else 0;
      }
      assert ids[..|ids|] == ids;
    }

    // --------------------------------------------- paging and replaying

    /** One page of history, asked for again after an error, up to the number of
        attempts, of which there is always one. */
    method FetchBlock(offset: int, lo: int) returns (f: Fetched)
      requires Ready()
      modifies this`now, site
      ensures Ready() && now >= old(now)
      ensures Grows(old(site.world), site.world) && site.world == old(site.world).(chat := site.world.chat)
      ensures Extends(old(site.history), site.history, true)
      ensures oracle.cancelled(old(now)) ==> oracle.cancelled(now)
      ensures f.Page? ==> f.msgs == PlainOnly(ServerPage(site.world.chat, lo, offset)) && !oracle.fetchFails(now)
      ensures f.FetchError? && !oracle.cancelled(now) ==>
                forall k: nat :: k == 0 || k < attempts ==> oracle.fetchFails(old(now) + 2 * k + 1)
      ensures Smooth(oracle) ==> f.Page?
    {
      var turns := if attempts < 1 then 1 else attempts;
      for turn := 0 to turns
        invariant Ready() && now >= old(now)
        invariant Grows(old(site.world), site.world) && site.world == old(site.world).(chat := site.world.chat)
        invariant Extends(old(site.history), site.history, true)
        invariant oracle.cancelled(old(now)) ==> oracle.cancelled(now)
        invariant now == old(now) + 2 * turn
        invariant forall k: nat :: k < turn ==> oracle.fetchFails(old(now) + 2 * k + 1)
        invariant Smooth(oracle) ==> turn == 0
      {
        if oracle.cancelled(now) {
          return FetchError;
        }
        Tick();
        if !oracle.fetchFails(now) {
          return Page(PlainOnly(ServerPage(site.world.chat, lo, offset)));
        }
        Tick();
        if oracle.cancelled(now) {
          return FetchError;
        }
      }
      return FetchError;
    }

    /** Pages back to the checkpoint. `seen` is the chat at the first fetch, and
        the pages are what the loop collects from it whatever arrives meanwhile. */
    method CollectPages(lastRead: int) returns (ok: bool, blocks: seq<seq<Message>>, seen: seq<Message>)
      requires Ready()
      modifies this`now, site
      ensures Ready() && now >= old(now)
      ensures Grows(old(site.world), site.world) && site.world == old(site.world).(chat := site.world.chat)
      ensures Extends(old(site.history), site.history, true)
      ensures oracle.cancelled(old(now)) ==> oracle.cancelled(now)
      ensures seen <= site.world.chat
      ensures ok ==> old(site.world).chat <= seen && Finished(seen, lastRead, blocks)
      ensures Smooth(oracle) && !ok ==> |Between(seen, lastRead, 0)| >= PAGE_SIZE * MAX_BLOCKS
    {
      var offset := 0;
      ok, blocks, seen := false, [], [];
      while true
        invariant Ready() && now >= old(now)
        invariant Grows(old(site.world), site.world) && site.world == old(site.world).(chat := site.world.chat)
        invariant Extends(old(site.history), site.history, true)
        invariant oracle.cancelled(old(now)) ==> oracle.cancelled(now)
        invariant if blocks == [] then offset == 0
                  else offset > 0 && old(site.world).chat <= seen && Progress(seen, lastRead, offset, blocks)
        invariant seen <= site.world.chat
        invariant |blocks| < MAX_BLOCKS
        decreases MAX_BLOCKS - |blocks|
      {
        if oracle.cancelled(now) {
          return;
        }
        var f := FetchBlock(offset, lastRead);
        if f.FetchError? {
          return;
        }
        site.IsLegal();
        if blocks == [] {
          seen := site.world.chat;
          ProgressStarts(seen, lastRead);
        }
        AnswerArrives(seen, site.world.chat, lastRead, offset, blocks, f.msgs);
        if |f.msgs| == 0 {
          ok := true;
          return;
        }
        var msgs := SortById(f.msgs);
        blocks := blocks + [msgs];
        if |msgs| < PAGE_SIZE {
          ok := true;
          return;
        }
        offset := msgs[0].id;
        if |blocks| >= MAX_BLOCKS {
          return;
        }
      }
    }

    /** The wanted messages that paging passes over, because a notice made a full
        answer look short, are put down as hidden. */
    method CollectHistory(lastRead: int) returns (ok: bool, blocks: seq<seq<Message>>, seen: seq<Message>)
      requires Ready()
      modifies this`now, site
      ensures Ready() && now >= old(now)
      ensures Grows(old(site.world), site.world)
      ensures Extends(old(site.history), site.history, true)
      ensures oracle.cancelled(old(now)) ==> oracle.cancelled(now)
      ensures seen <= site.world.chat
      ensures ok ==> old(site.world).chat <= seen && Finished(seen, lastRead, blocks)
      ensures ok ==> InView(site.world, lastRead, seen, ReplayOrder(blocks))
      ensures if ok then
                site.world == WithHidden(old(site.world).(chat := site.world.chat), lastRead, seen, ReplayOrder(blocks))
              else site.world == old(site.world).(chat := site.world.chat)
      ensures Smooth(oracle) && !ok ==> |Between(seen, lastRead, 0)| >= PAGE_SIZE * MAX_BLOCKS
    {
      ok, blocks, seen := CollectPages(lastRead);
      if ok {
        site.IsLegal();
        NowInView(site.world, lastRead, seen, blocks);
        site.Grow(WithHidden(site.world, lastRead, seen, ReplayOrder(blocks)));
      }
    }

    /** One page of the replay, and the checkpoint after it. Unless the link is
        dead the cursor moves to the end of what was done, the page or the part
        of it up to the cap; the messages above the cursor are then exactly those
        still to be replayed. */
    method ReplayBlock(block: seq<Message>, cursor: int, ghost lo: int, ghost seen: seq<Message>,
                       ghost visible: seq<Message>)
        returns (next: int, capped: bool, dead: bool, ghost done: seq<Message>)
      requires Ready() && |counted| <= saved && 0 <= cursor <= LastId(site.world.chat) && lo <= cursor
      requires oracle.cancelled(now) || Accounted(site.world, cursor, failed)
      requires InView(site.world, lo, seen, visible)
      requires block != [] && block <= Between(visible, cursor, 0) && Rising(block) && InRangeIds(block)
      modifies this`failed, this`saved, this`now, this`counted, site
      ensures Ready() && now >= old(now) && |counted| <= saved
      ensures Keeps(old(site.world), site.world) && InView(site.world, lo, seen, visible)
      ensures Extends(old(site.history), site.history, Cursor(old(site.world).row) <= cursor)
      ensures Cursor(old(site.world).row) <= cursor ==> Cursor(site.world.row) <= next
      ensures oracle.cancelled(now) || Accounted(site.world, next, failed)
      ensures cursor <= next <= LastId(site.world.chat)
      ensures done <= block && done != [] && (!capped ==> done == block)
      ensures if dead then next == cursor
              else next == LastId(done) && Between(visible, next, 0) == Between(visible, cursor, 0)[|done|..]
      ensures !oracle.saveFails(now) ==> Cursor(site.world.row) == next && Within(Recorded(site.world.row), failed)
      ensures capped ==> maxMessages > 0
      ensures Undisturbed(oracle) && capped ==> !BelowCap()
      ensures old(saved) <= saved
      ensures maxMessages > 0 ==> saved <= maxMessages || saved <= old(saved) + 1
      ensures Smooth(oracle) ==> !dead && Within(failed, old(failed))
    {
      ghost var before, failedBefore, at := site.world, failed, now;
      var r;
      r, done := RunBlock(block);
      site.IsLegal();
      SmoothBlock(oracle, at, done, failedBefore, failed);
      PageDone(before, site.world, lo, seen, visible, cursor, done, failedBefore, failed);
      next, capped, dead := cursor, r.capped, r.dead;
      if !dead && r.highest > cursor {
        next := r.highest;
      }
      ghost var ran := site.world;
      RecordProgress(next);
      StillInView(ran, site.world, lo, seen, visible);
    }

    /** The next page of the replay: unless it is the last to be replayed, the
        pages before it are then what lies above the cursor. */
    method ReplayNext(blocks: seq<seq<Message>>, i: nat, cursor: int, ghost start: World, ghost lo: int,
                      ghost seen: seq<Message>, ghost visible: seq<Message>)
        returns (next: int, last: bool, dead: bool)
      requires Ready() && |counted| <= saved && 0 <= cursor <= LastId(site.world.chat) && lo <= cursor
      requires oracle.cancelled(now) || Accounted(site.world, cursor, failed)
      requires 0 < i <= |blocks| && Runnable(blocks) && Remaining(blocks, i, visible, cursor)
      requires InView(start, lo, seen, visible) && Keeps(start, site.world)
      modifies this`failed, this`saved, this`now, this`counted, site
      ensures Ready() && now >= old(now) && |counted| <= saved
      ensures Keeps(start, site.world)
      ensures Extends(old(site.history), site.history, Cursor(old(site.world).row) <= cursor)
      ensures Cursor(old(site.world).row) <= cursor ==> Cursor(site.world.row) <= next
      ensures oracle.cancelled(now) || Accounted(site.world, next, failed)
      ensures cursor <= next <= LastId(site.world.chat)
      ensures !dead && !last ==> Remaining(blocks, i - 1, visible, next)
      ensures maxMessages > 0 && !dead && !last ==> saved < maxMessages
      ensures last ==> maxMessages > 0
      ensures Undisturbed(oracle) && last ==> !BelowCap()
      ensures old(saved) <= saved
      ensures maxMessages > 0 ==> saved <= maxMessages || saved <= old(saved) + 1
      ensures Smooth(oracle) ==> !dead && Within(failed, old(failed))
    {
      NextToReplay(blocks, i);
      StillInView(start, site.world, lo, seen, visible);
      var capped;
      ghost var done;
      next, capped, dead, done := ReplayBlock(blocks[i - 1], cursor, lo, seen, visible);
      last := capped || (maxMessages > 0 && saved >= maxMessages);
    }

    /** The pages from the last collected to the first. Whenever it stops, every
        wanted message up to the cursor is accounted for; if it ends without an
        error or a cap, nothing on the pages lies above the cursor. */
    method ReplayBlocks(lastRead: int, blocks: seq<seq<Message>>, ghost seen: seq<Message>)
        returns (cursor: int, ok: bool)
      requires Ready() && |counted| <= saved && 0 <= lastRead <= LastId(site.world.chat)
      requires Accounted(site.world, lastRead, failed)
      requires Runnable(blocks) && InView(site.world, lastRead, seen, ReplayOrder(blocks))
      modifies this`failed, this`saved, this`now, this`counted, site
      ensures Ready() && now >= old(now) && |counted| <= saved
      ensures Keeps(old(site.world), site.world)
      ensures Extends(old(site.history), site.history, Cursor(old(site.world).row) <= lastRead)
      ensures Cursor(old(site.world).row) <= lastRead ==> Cursor(site.world.row) <= cursor
      ensures oracle.cancelled(now) || Accounted(site.world, cursor, failed)
      ensures lastRead <= cursor <= LastId(site.world.chat)
      ensures ok && (maxMessages == 0 || (Undisturbed(oracle) && BelowCap())) ==>
                Between(ReplayOrder(blocks), cursor, 0) == []
      ensures maxMessages > 0 ==> saved <= maxMessages || saved <= old(saved) + 1
      ensures Smooth(oracle) ==> ok && Within(failed, old(failed))
    {
      cursor, ok := lastRead, false;
      var i := |blocks|;
      ghost var visible := ReplayOrder(blocks);
      AllToReplay(site.world, lastRead, seen, blocks);
      while i > 0
        invariant Ready() && now >= old(now) && |counted| <= saved
        invariant 0 <= i <= |blocks|
        invariant Keeps(old(site.world), site.world)
        invariant Extends(old(site.history), site.history, Cursor(old(site.world).row) <= lastRead)
        invariant Cursor(old(site.world).row) <= lastRead ==> Cursor(site.world.row) <= cursor
        invariant oracle.cancelled(now) || Accounted(site.world, cursor, failed)
        invariant lastRead <= cursor <= LastId(site.world.chat)
        invariant Remaining(blocks, i, visible, cursor)
        invariant maxMessages > 0 ==> saved == old(saved) || saved < maxMessages
        invariant saved >= old(saved)
        invariant Smooth(oracle) ==> Within(failed, old(failed))
      {
        if oracle.cancelled(now) {
          return;
        }
        var last, dead;
        cursor, last, dead := ReplayNext(blocks, i, cursor, old(site.world), lastRead, seen, visible);
        if dead {
          return;
        }
        if last {
          break;
        }
        i := i - 1;
      }
      ok := true;
    }

    method IterateHistory(lastRead: int) returns (cursor: int, ok: bool)
      requires Ready() && |counted| <= saved && 0 <= lastRead <= LastId(site.world.chat)
      requires Accounted(site.world, lastRead, failed)
      modifies this`failed, this`saved, this`now, this`counted, site
      ensures Ready() && now >= old(now) && |counted| <= saved
      ensures Keeps(old(site.world), site.world)
      ensures Extends(old(site.history), site.history, Cursor(old(site.world).row) <= lastRead)
      ensures Cursor(old(site.world).row) <= lastRead ==> Cursor(site.world.row) <= cursor
      ensures oracle.cancelled(now) || Accounted(site.world, cursor, failed)
      ensures lastRead <= cursor <= LastId(site.world.chat)
      ensures maxMessages > 0 ==> saved <= maxMessages || saved <= old(saved) + 1
      ensures ok && (maxMessages == 0 || (Undisturbed(oracle) && BelowCap())) && AllPlain(site.world.chat) ==>
                cursor >= LastId(old(site.world).chat)
      ensures Smooth(oracle) ==> Within(failed, old(failed))
      ensures Smooth(oracle) && !ok ==> |Between(site.world.chat, lastRead, 0)| >= PAGE_SIZE * MAX_BLOCKS
      ensures oracle.resolveFails(old(now) + 1) ==> cursor == lastRead && now == old(now) + 1
    {
      cursor, ok := lastRead, false;
      ghost var before := site.world;
      Tick();
      StillAccounted(before, site, lastRead, failed, failed);
      if oracle.resolveFails(now) {
        return;
      }
      var collected, blocks, seen := CollectHistory(lastRead);
      StillAccounted(before, site, lastRead, failed, failed);
      if !collected {
        BetweenGrows(seen, site.world.chat, lastRead);
        return;
      }
      cursor, ok := ReplayBlocks(lastRead, blocks, seen);
      SeenToTheEnd(before.chat, site.world.chat, seen, lastRead, blocks, cursor);
    }

    /** What a run does once its checkpoint is loaded. `reached` is the cursor of
        the last checkpoint, if that one could be saved. */
    method Resume(lastRead: int) returns (retried: nat, reached: int)
      requires Ready() && |counted| <= saved && 0 <= lastRead <= LastId(site.world.chat) && saved == 0
      requires Accounted(site.world, lastRead, failed)
      modifies this`failed, this`saved, this`now, this`counted, site
      ensures Ready() && |counted| <= saved && Keeps(old(site.world), site.world)
      ensures Extends(old(site.history), site.history, Cursor(old(site.world).row) <= lastRead)
      ensures retried <= |old(failed)|
      ensures maxMessages > 0 ==> saved <= maxMessages || saved <= retried + 1
      ensures lastRead <= reached
      ensures !oracle.saveFails(now) ==> Cursor(site.world.row) == reached && Within(Recorded(site.world.row), failed)
      ensures old(failed) == {} && oracle.resolveFails(old(now) + 1) ==> reached == lastRead && now == old(now) + 2
      ensures Smooth(oracle) ==> Within(failed, old(failed))
      ensures Smooth(oracle) && maxMessages == 0 && AllPlain(site.world.chat)
              && |Between(site.world.chat, lastRead, 0)| < 100_000 ==>
                reached >= LastId(old(site.world).chat)
      ensures Undisturbed(oracle) && BelowCap() && AllPlain(site.world.chat)
              && |Between(site.world.chat, lastRead, 0)| < 100_000 ==>
                CaughtUp(old(site.world).chat, site.world)
    {
      ghost var before, failedBefore := site.world, failed;
      retried := RetryFailed();
      StillAccounted(before, site, lastRead, failedBefore, failed);
      ghost var left := failed;
      var ok;
      reached, ok := IterateHistory(lastRead);
      ghost var iterated := site.world.chat;
      RecordProgress(reached);
      assert AllPlain(site.world.chat) ==> AllPlain(iterated) by {
        EarlierIsPlain(iterated, site.world.chat);
      }
      assert |Between(iterated, lastRead, 0)| <= |Between(site.world.chat, lastRead, 0)| by {
        BetweenGrows(iterated, site.world.chat, lastRead);
      }
      assert Undisturbed(oracle) && reached >= LastId(before.chat) ==> CaughtUp(before.chat, site.world) by {
        site.IsLegal();
        NothingLeftBehind(before.chat, site.world, reached, left, failed);
      }
    }

    /** One run. Every snapshot it leaves is good, whether it ends by itself or
        is cut short at any of them. Its last checkpoint, if saved, has the cursor
        `reached`, which is below the old one only if the load failed, and is zero
        if the chat could then not be resolved either. With a cap it saves at most
        that many files, or one more than it retried. Without a cap, in a chat of
        plain messages with no more than the page limit waiting, a smooth run ends
        with its cursor past the chat, and an undisturbed one has also stored
        every wanted message that was not given up. */
    method Execute() returns (retried: nat, reached: int)
      requires Ready() && failed == {} && saved == 0 && now == 0
      requires counted == {} && found == site.world.stored
      modifies this`failed, this`saved, this`now, this`counted, site
      ensures Ready() && Keeps(old(site.world), site.world)
      ensures Extends(old(site.history), site.history, !oracle.loadFails(1))
      ensures retried <= |Recorded(old(site.world).row)|
      ensures maxMessages > 0 ==> saved <= maxMessages || saved <= retried + 1
      ensures StoresOnlyCompleted(oracle) && maxMessages > 0 ==>
                NewFiles(old(site.world), site.world) <= maxMessages || NewFiles(old(site.world), site.world) <= retried + 1
      ensures reached >= 0 && (reached < Cursor(old(site.world).row) ==> oracle.loadFails(1))
      ensures !oracle.saveFails(now) ==> Cursor(site.world.row) == reached
      ensures oracle.loadFails(1) && oracle.resolveFails(2) ==> reached == 0 && now == 3
      ensures Smooth(oracle) ==> Within(Recorded(site.world.row), Recorded(old(site.world).row))
      ensures Smooth(oracle) && maxMessages == 0 && AllPlain(site.world.chat)
              && |Between(site.world.chat, Cursor(old(site.world).row), 0)| < 100_000 ==>
                Cursor(site.world.row) >= LastId(old(site.world).chat)
      ensures Undisturbed(oracle) && BelowCap() && AllPlain(site.world.chat)
              && |Between(site.world.chat, Cursor(old(site.world).row), 0)| < 100_000 ==>
                CaughtUp(old(site.world).chat, site.world)
    {
      ghost var before := site.world;
      var lastRead := LoadCheckpoint();
      ghost var loaded := site.world;
      retried, reached := Resume(lastRead);
      assert LastId(before.chat) <= LastId(loaded.chat)
          && (CaughtUp(loaded.chat, site.world) ==> CaughtUp(before.chat, site.world)) by {
        site.IsLegal();
        CaughtUpEarlier(before.chat, loaded.chat, site.world);
      }
      if StoresOnlyCompleted(oracle) {
        FewNewFiles(before, site.world, counted);
      }
    }
  }
}
