/** Any number of runs of the bulk download over one chat, each of which may be
    cut short by a crash of the process. */
module BulkRuns {
  import opened Lists
  import opened FailedIds
  import opened History
  import opened Checkpoints
  import opened BulkBlocks
  import opened BulkPaging
  import opened BulkDownload

  /** One run to come: its surroundings and settings, and, if the process dies
      during it, after how many of its snapshots. */
  datatype Plan = Plan(oracle: Oracle, maxMessages: nat, attempts: int, crash: Option<nat>)

  /** No crash, no cap, no service notice, and fewer messages waiting than the
      page limit. */
  ghost predicate Uncut(plan: Plan, w: World, later: World) {
    && plan.crash.None? && plan.maxMessages == 0 && AllPlain(later.chat)
    && |Between(later.chat, Cursor(w.row), 0)| < 100_000
  }

  /** The checkpoint cannot be loaded and the chat not resolved, but the cursor
      the run starts from, zero, is saved. */
  ghost predicate Rewinds(plan: Plan) {
    plan.crash.None? && plan.oracle.loadFails(1) && plan.oracle.resolveFails(2) && !plan.oracle.saveFails(3)
  }

  /** What one run makes of the world it found: what is new in it is the run's
      doing; if nothing cut it short, the cursor passed the chat unless a call
      failed, and with nothing going wrong at all the chat is caught up with; with
      a cap no more files are new than it allows, or one more than were listed as
      failed, unless the engine stores files without completing their elements. */
  ghost predicate RunDone(plan: Plan, w: World, later: World) {
    && Keeps(w, later) && WithinReach(later, ReachOf(w, plan.oracle))
    && (Uncut(plan, w, later) && Smooth(plan.oracle) ==>
          Cursor(later.row) >= LastId(w.chat) && Within(Recorded(later.row), Recorded(w.row)))
    && (Uncut(plan, w, later) && Undisturbed(plan.oracle) ==> CaughtUp(w.chat, later))
    && (Rewinds(plan) ==> Cursor(later.row) == 0)
    && (StoresOnlyCompleted(plan.oracle) && plan.maxMessages > 0 ==>
          NewFiles(w, later) <= plan.maxMessages || NewFiles(w, later) <= |Recorded(w.row)| + 1)
  }

  lemma EarlierWithinReach(w: World, later: World, r: Reach)
    requires Keeps(w, later) && WithinReach(later, r)
    ensures WithinReach(w, r)
  {
    forall m | m in w.chat ensures m in later.chat {
      var i :| 0 <= i < |w.chat| && w.chat[i] == m;
      assert later.chat[i] == m;
    }
  }

  lemma FewerFiles(w: World, later: World, last: World)
    requires Keeps(later, last)
    ensures NewFiles(w, later) <= NewFiles(w, last)
  {
    Smaller((set id | id in later.stored && id !in w.stored), (set id | id in last.stored && id !in w.stored));
  }

  /** A crash after snapshot `k` leaves a part of what the run did. */
  lemma CrashedRunDone(plan: Plan, history: GoodHistory, n: nat, k: nat)
    requires n <= k < |history| && plan.crash.Some?
    requires RunDone(plan, history[n], history[|history| - 1])
    ensures RunDone(plan, history[n], history[k])
  {
    NothingShrinks(history, n, k);
    NothingShrinks(history, k, |history| - 1);
    EarlierWithinReach(history[k], history[|history| - 1], ReachOf(history[n], plan.oracle));
    FewerFiles(history[n], history[k], history[|history| - 1]);
  }

  /** A run that no crash cuts short. */
  method RunToEnd(site: Site, plan: Plan)
    requires site.Valid() && Dependable(plan.oracle)
    modifies site
    ensures site.Valid() && RunDone(plan, old(site.world), site.world)
    ensures Extends(old(site.history), site.history, !plan.oracle.loadFails(1))
  {
    var task := new Task(site, plan.oracle, plan.maxMessages, plan.attempts);
    var retried, reached := task.Execute();
  }

  method RunOnce(site: Site, plan: Plan)
    requires site.Valid() && Dependable(plan.oracle)
    modifies site
    ensures site.Valid() && RunDone(plan, old(site.world), site.world)
    ensures Extends(old(site.history), site.history, !plan.oracle.loadFails(1))
  {
    var n := |site.history|;
    ghost var before := site.history;
    RunToEnd(site, plan);
    if plan.crash.Some? && n + plan.crash.value < |site.history| {
      ghost var after := site.history;
      assert after[n - 1] == before[n - 1];
      CrashedRunDone(plan, after, n - 1, n + plan.crash.value);
      site.CutBackTo(n + plan.crash.value);
      assert before <= site.history;
      CutExtends(before, after, site.history, !plan.oracle.loadFails(1));
    }
  }

  /** The first `|marks| - 1` runs, told by where in the history they end. */
  ghost predicate RunsDone(plans: seq<Plan>, history: seq<World>, marks: seq<nat>) {
    && 0 < |marks| <= |plans| + 1 && history != [] && marks[0] == 0 && marks[|marks| - 1] == |history| - 1
    && (forall i :: 0 <= i < |marks| ==> marks[i] < |history|)
    && (forall i, j {:trigger marks[i], marks[j]} :: 0 <= i && j == i + 1 < |marks| ==>
          marks[i] <= marks[j] && RunDone(plans[i], history[marks[i]], history[marks[j]]))
  }

  lemma OneMoreRun(plans: seq<Plan>, before: seq<World>, after: seq<World>, marks: seq<nat>)
    requires RunsDone(plans, before, marks) && |marks| <= |plans| && before <= after
    requires RunDone(plans[|marks| - 1], before[|before| - 1], after[|after| - 1])
    ensures RunsDone(plans, after, marks + [|after| - 1])
  {
    var more := marks + [|after| - 1];
    assert forall i :: 0 <= i < |marks| ==> more[i] == marks[i] && after[more[i]] == before[marks[i]];
    forall i, j | 0 <= i && j == i + 1 < |more|
      ensures more[i] <= more[j] && RunDone(plans[i], after[more[i]], after[more[j]])
    {
      assert j < |marks| ==> marks[i] <= marks[j] && RunDone(plans[i], before[marks[i]], before[marks[j]]);
    }
  }

  method RunNext(site: Site, plans: seq<Plan>, marks: seq<nat>) returns (more: seq<nat>)
    requires site.Valid() && RunsDone(plans, site.history, marks) && |marks| <= |plans|
    requires Dependable(plans[|marks| - 1].oracle)
    modifies site
    ensures site.Valid() && |more| == |marks| + 1 && RunsDone(plans, site.history, more)
    ensures Extends(old(site.history), site.history, !plans[|marks| - 1].oracle.loadFails(1))
  {
    ghost var before := site.history;
    RunOnce(site, plans[|marks| - 1]);
    OneMoreRun(plans, before, site.history, marks);
    more := marks + [|site.history| - 1];
  }

  ghost predicate SomeStores(plans: seq<Plan>, id: int) {
    exists i :: 0 <= i < |plans| && MayStore(plans[i].oracle, id)
  }

  ghost predicate SomeStrands(plans: seq<Plan>, id: int) {
    exists i :: 0 <= i < |plans| && MayStrand(plans[i].oracle, id)
  }

  /** Whatever is stored or stranded is some run's doing. */
  ghost predicate Attributed(plans: seq<Plan>, w: World) {
    && (forall id :: id in w.stored ==> SomeStores(plans, id))
    && (forall id :: id in w.stranded ==> SomeStrands(plans, id))
  }

  lemma {:induction false} MarksAttributed(plans: seq<Plan>, history: seq<World>, marks: seq<nat>, k: nat)
    requires RunsDone(plans, history, marks) && k < |marks|
    requires history[0].stored == {} && history[0].stranded == {}
    ensures Attributed(plans, history[marks[k]])
  {
    if k > 0 {
      MarksAttributed(plans, history, marks, k - 1);
      assert marks[k - 1] <= marks[k];
      var w := history[marks[k]];
      assert WithinReach(w, ReachOf(history[marks[k - 1]], plans[k - 1].oracle));
    }
  }

  lemma AllAttributed(plans: seq<Plan>, history: GoodHistory, marks: seq<nat>, k: nat)
    requires RunsDone(plans, history, marks) && k < |history|
    requires history[0].stored == {} && history[0].stranded == {}
    ensures Attributed(plans, history[k])
  {
    MarksAttributed(plans, history, marks, |marks| - 1);
    NothingShrinks(history, k, |history| - 1);
  }

  ghost predicate NoneStrands(plans: seq<Plan>) {
    forall id :: !SomeStrands(plans, id)
  }

  lemma NothingLostIn(plans: seq<Plan>, w: World)
    requires Good(w) && Attributed(plans, w) && NoneStrands(plans)
    ensures w.mostFailed <= MAX_PERSISTED && AllPlain(w.chat) ==> NothingLost(w)
  {
    if w.mostFailed <= MAX_PERSISTED && AllPlain(w.chat) {
      assert forall id :: id in w.stranded ==> SomeStrands(plans, id);
      NothingGivenUp(w);
    }
  }

  lemma AllStates(chat: seq<Message>, plans: seq<Plan>, history: GoodHistory, marks: seq<nat>)
    requires history[0] == NewWorld(chat) && RunsDone(plans, history, marks)
    ensures forall k :: 0 <= k < |history| ==> Good(history[k]) && Attributed(plans, history[k])
    ensures NoneStrands(plans) ==> forall k :: 0 <= k < |history| ==>
              history[k].mostFailed <= 500 && AllPlain(history[k].chat) ==> NothingLost(history[k])
  {
    forall k | 0 <= k < |history|
      ensures Good(history[k]) && Attributed(plans, history[k])
      ensures NoneStrands(plans) && history[k].mostFailed <= MAX_PERSISTED && AllPlain(history[k].chat) ==>
                NothingLost(history[k])
    {
      AllAttributed(plans, history, marks, k);
      if NoneStrands(plans) {
        NothingLostIn(plans, history[k]);
      }
    }
  }

  /** Any number of runs from nothing, with failures, cancellations, dead links,
      elements left midway and crashes in between. In every state ever reached a
      wanted message up to the persisted cursor is stored, listed as failed, or
      one of those given up, each of which has its reason: it is cut off only if
      more failed at once than are persisted, stranded only if an engine left it
      midway, and hidden only below a service notice. The world only grows or has
      a checkpoint saved; each run does its part; and while checkpoints can be
      loaded the cursor never decreases. */
  method ManyRuns(chat: seq<Message>, plans: seq<Plan>) returns (history: GoodHistory, marks: seq<nat>)
    requires LegalChat(chat) && forall i :: 0 <= i < |plans| ==> Dependable(plans[i].oracle)
    ensures history[0] == NewWorld(chat)
    ensures forall k :: 0 <= k < |history| ==> Good(history[k]) && Attributed(plans, history[k])
    ensures NoneStrands(plans) ==> forall k :: 0 <= k < |history| ==>
              history[k].mostFailed <= 500 && AllPlain(history[k].chat) ==> NothingLost(history[k])
    ensures |marks| == |plans| + 1 && RunsDone(plans, history, marks)
    ensures (forall i :: 0 <= i < |plans| ==> !plans[i].oracle.loadFails(1)) ==> CursorRises(history)
  {
    var site := new Site(NewWorld(chat));
    marks := [0];
    for i := 0 to |plans|
      invariant site.Valid() && fresh(site) && site.history[0] == NewWorld(chat)
      invariant |marks| == i + 1 && RunsDone(plans, site.history, marks)
      invariant (forall j :: 0 <= j < i ==> !plans[j].oracle.loadFails(1)) ==> CursorRises(site.history)
    {
      marks := RunNext(site, plans, marks);
    }
    history := site.history;
    AllStates(chat, plans, history, marks);
  }

  /** After any runs at all, one undisturbed run that nothing cuts short leaves
      every wanted message of the chat stored, provided no more failed at once
      than are persisted and no engine left an element midway. */
  lemma EverythingStored(chat: seq<Message>, plans: seq<Plan>, history: GoodHistory, marks: seq<nat>)
    requires history[0] == NewWorld(chat) && RunsDone(plans, history, marks) && |marks| == |plans| + 1
    requires plans != [] && Undisturbed(plans[|plans| - 1].oracle)
    requires Uncut(plans[|plans| - 1], history[marks[|plans| - 1]], history[|history| - 1])
    requires NoneStrands(plans) && history[|history| - 1].mostFailed <= 500
    ensures var w := history[|history| - 1];
            Cursor(w.row) >= LastId(chat) && forall m :: m in chat && m.plain && m.media ==> m.id in w.stored
  {
    var n := |plans| - 1;
    var last, w := history[|history| - 1], history[marks[n]];
    assert marks[n] <= marks[n + 1];
    NothingShrinks(history, 0, marks[n]);
    assert Good(w) && Good(last);
    CaughtUpEarlier(chat, w.chat, last);
    AllAttributed(plans, history, marks, |history| - 1);
    assert forall id :: id !in last.stranded;
    forall m | m in chat && m.Wanted() ensures m.id in last.stored {
      var i :| 0 <= i < |chat| && chat[i] == m;
    }
  }

  /** A failed load can send the persisted cursor back. */
  lemma CursorGoesBack(plans: seq<Plan>, history: GoodHistory, marks: seq<nat>, i: nat)
    requires RunsDone(plans, history, marks) && i + 1 < |marks|
    requires Rewinds(plans[i]) && Cursor(history[marks[i]].row) > 0
    ensures !CursorRises(history)
  {
    assert marks[i] <= marks[i + 1];
  }

  lemma FirstTwo(chat: seq<Message>)
    requires Rising(chat)
    ensures |chat| > 1 ==> chat[0] in chat && chat[1] in chat && chat[0].id < chat[1].id
  {
  }

  /** Nothing goes wrong but that no element gets anywhere. */
  function Stranding(): Oracle {
    Oracle(_ => false, _ => [], _ => false, _ => false, _ => false, _ => false, _ => false,
           (_, _) => false, (_, _) => Stopped(false))
  }

  lemma StrandingIsSmooth()
    ensures Smooth(Stranding()) && Dependable(Stranding())
    ensures forall m :: !MayArrive(Stranding(), m)
    ensures forall id :: !MayStore(Stranding(), id)
  {
    var o := Stranding();
    assert forall t: nat :: o.arrivals(t) == [];
    assert forall t: nat, id: int :: o.outcome(t, id) == Stopped(false);
  }

  lemma OneMessageStays(m: Message, w: World)
    requires LegalChat(w.chat) && Keeps(NewWorld([m]), w) && WithinReach(w, ReachOf(NewWorld([m]), Stranding()))
    ensures w.chat == [m] && m.id !in w.stored
  {
    StrandingIsSmooth();
    FirstTwo(w.chat);
    assert forall x :: x in w.chat ==> x == m;
  }

  lemma StrandedForGood(m: Message, w: World)
    requires m == Message(1, true, true) && Good(w) && RunDone(Plan(Stranding(), 0, 1, None), NewWorld([m]), w)
    ensures w.chat == [m] && Cursor(w.row) == 1 && 1 !in w.stored && 1 !in Recorded(w.row) && !NothingLost(w)
  {
    StrandingIsSmooth();
    OneMessageStays(m, w);
    assert AllPlain(w.chat) && |Between(w.chat, 0, 0)| <= 1;
    assert m in w.chat && m.Wanted();
  }

  /** One message, and a run in which nothing goes wrong but that the engine, under
      a live context, leaves its element midway without a file: the run ends with
      the cursor past the message, which is neither stored nor listed as failed,
      so no later run looks at it. */
  method StrandingRun() returns (w: World)
    ensures w.chat == [Message(1, true, true)] && Cursor(w.row) == 1
    ensures 1 !in w.stored && 1 !in Recorded(w.row) && !NothingLost(w)
  {
    StrandingIsSmooth();
    var m := Message(1, true, true);
    var history, marks := ManyRuns([m], [Plan(Stranding(), 0, 1, None)]);
    assert marks[0] <= marks[1];
    w := history[|history| - 1];
    StrandedForGood(m, w);
  }
}
