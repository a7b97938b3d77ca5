/** What a bulk download leaves in the world: stored files and a checkpoint row.
    The states of the world are kept as a history of snapshots, so that what
    holds of all of them holds wherever a run is cut off. */
module Checkpoints {
  import opened Lists
  import Decimal
  import opened FailedIds
  import opened History

  /** The checkpoint row of one user and chat. */
  datatype Record = Record(lastRead: int, failedIds: string)

  /** The chat, the IDs of the messages whose file was stored, and the
      checkpoint; and, to account for what can get lost, the failed IDs that
      saving a checkpoint left out because of the cap, the size of the largest
      failed set one was saved from, the IDs the engine left midway although the
      run went on, and those paging passed over because of service notices. */
  datatype World = World(
    chat: seq<Message>,
    stored: set<int>,
    row: Option<Record>,
    cutOff: set<int>,
    mostFailed: nat,
    stranded: set<int>,
    hidden: set<int>)

  function Cursor(row: Option<Record>): int {
    if row.Some? then row.value.lastRead else 0
  }

  function Recorded(row: Option<Record>): set<int> {
    if row.Some? then set id | id in Parsed(row.value.failedIds) else {}
  }

  ghost predicate GivenUp(w: World, id: int) {
    id in w.cutOff || id in w.stranded || id in w.hidden
  }

  /** Every wanted message up to the cursor is stored, or in the failed list, or
      one of those given up. */
  ghost predicate Accounted(w: World, cursor: int, failed: set<int>) {
    forall m :: m in w.chat && m.plain && m.media && m.id <= cursor ==>
      m.id in w.stored || m.id in failed || GivenUp(w, m.id)
  }

  ghost predicate Safe(w: World) {
    Accounted(w, Cursor(w.row), Recorded(w.row))
  }

  /** IDs rise through the chat and the cursor is not ahead of it. */
  ghost predicate Legal(w: World) {
    LegalChat(w.chat) && 0 <= Cursor(w.row) <= LastId(w.chat)
  }

  ghost predicate BelowNotice(chat: seq<Message>, id: int) {
    exists i :: 0 <= i < |chat| && !chat[i].plain && id < chat[i].id
  }

  /** Nothing was cut off unless more failed than fit, and nothing hidden but
      what lies below a service notice. */
  ghost predicate Explained(w: World) {
    && (w.mostFailed <= 500 ==> w.cutOff == {})
    && (forall id :: id in w.hidden ==> BelowNotice(w.chat, id))
  }

  ghost predicate Good(w: World) {
    Legal(w) && Safe(w) && Explained(w)
  }

  /** `later` differs from `w` by new messages, stored files and messages left
      midway or passed over, but not by its checkpoint. */
  ghost predicate Grows(w: World, later: World) {
    && w.chat <= later.chat && w.stored <= later.stored
    && w.stranded <= later.stranded && w.hidden <= later.hidden
    && later.row == w.row && later.cutOff == w.cutOff && later.mostFailed == w.mostFailed
  }

  /** Nothing is taken out of the world. */
  ghost predicate Keeps(w: World, later: World) {
    && w.chat <= later.chat && w.stored <= later.stored && w.cutOff <= later.cutOff
    && w.stranded <= later.stranded && w.hidden <= later.hidden && w.mostFailed <= later.mostFailed
  }

  lemma GrowsKeepsAccounted(w: World, later: World, cursor: int, failed: set<int>)
    requires Accounted(w, cursor, failed) && Grows(w, later)
    requires LegalChat(later.chat) && cursor <= LastId(w.chat)
    ensures Accounted(later, cursor, failed)
  {
    forall m | m in later.chat && m.id <= cursor ensures m in w.chat {
      var i :| 0 <= i < |later.chat| && later.chat[i] == m;
      NewerIsLarger(w.chat, later.chat, i);
      assert i < |w.chat| ==> w.chat[i] == m;
    }
  }

  lemma NewerIsLarger(chat: seq<Message>, later: seq<Message>, i: nat)
    requires chat <= later && LegalChat(later) && i < |later|
    ensures i < |chat| || later[i].id > LastId(chat)
  {
    if chat != [] {
      assert later[|chat| - 1] == chat[|chat| - 1];
    }
  }

  lemma GrowsKeepsLast(w: World, later: World)
    requires Grows(w, later) && LegalChat(later.chat)
    ensures LastId(w.chat) <= LastId(later.chat)
  {
    if w.chat != [] {
      assert later.chat[|w.chat| - 1] == w.chat[|w.chat| - 1];
    }
  }

  lemma GrowsKeepsGood(w: World, later: World)
    requires Good(w) && Grows(w, later) && LegalChat(later.chat)
    requires forall id :: id in later.hidden ==> id in w.hidden || BelowNotice(later.chat, id)
    ensures Good(later)
  {
    GrowsKeepsLast(w, later);
    forall id | id in w.hidden ensures BelowNotice(later.chat, id) {
      var i :| 0 <= i < |w.chat| && !w.chat[i].plain && id < w.chat[i].id;
      assert later.chat[i] == w.chat[i];
    }
    GrowsKeepsAccounted(w, later, Cursor(w.row), Recorded(w.row));
  }

  lemma EarlierIsPlain(chat: seq<Message>, later: seq<Message>)
    requires chat <= later
    ensures AllPlain(later) ==> AllPlain(chat)
  {
    assert forall i :: 0 <= i < |chat| ==> chat[i] == later[i];
  }

  /** Failed IDs may leave the set once their file is stored. */
  lemma MovedKeepsAccounted(w: World, later: World, cursor: int, failed: set<int>, left: set<int>)
    requires Accounted(w, cursor, failed) && Grows(w, later)
    requires LegalChat(later.chat) && cursor <= LastId(w.chat)
    requires forall id :: id in failed ==> id in left || id in later.stored
    ensures Accounted(later, cursor, left)
  {
    GrowsKeepsAccounted(w, later, cursor, failed);
  }

  /** How many messages had their file stored meanwhile. */
  function NewFiles(w: World, later: World): nat {
    |set id | id in later.stored && id !in w.stored|
  }

  lemma FewNewFiles(w: World, later: World, counted: set<int>)
    requires forall id :: id in later.stored ==> id in w.stored || id in counted
    ensures NewFiles(w, later) <= |counted|
  {
    Smaller((set id | id in later.stored && id !in w.stored), counted);
  }

  lemma {:induction false} Smaller(some: set<int>, all: set<int>)
    requires forall id :: id in some ==> id in all
    ensures |some| <= |all|
    decreases |some|
  {
    assert (forall id :: id !in some) ==> some == {};
    if some != {} {
      var id :| id in some;
      Smaller(some - {id}, all - {id});
    }
  }

  ghost predicate AllGood(history: seq<World>) {
    forall k {:trigger Good(history[k])} :: 0 <= k < |history| ==> Good(history[k])
  }

  /** The persisted cursor never decreases. */
  ghost predicate CursorRises(history: seq<World>) {
    forall i, j {:trigger Cursor(history[i].row), Cursor(history[j].row)} :: 0 <= i < j < |history| ==>
      Cursor(history[i].row) <= Cursor(history[j].row)
  }

  /** `after` continues `before`, and keeps the cursor rising if `rising`. */
  ghost predicate Extends(before: seq<World>, after: seq<World>, rising: bool) {
    before <= after && (rising && CursorRises(before) ==> CursorRises(after))
  }

  /** The world changes in two ways: it grows, or a checkpoint is saved. */
  ghost predicate Step(w: World, next: World) {
    Grows(w, next) || exists cursor, failed :: IsSave(w, next, cursor, failed)
  }

  /** The row becomes the cursor and the failed IDs that fit the cap, the largest
      ones; the others are cut off. */
  ghost predicate IsSave(w: World, next: World, cursor: int, failed: set<int>) {
    && next.row.Some? && Cursor(next.row) == cursor && FitsCap(Recorded(next.row), failed)
    && w.cutOff <= next.cutOff && (|failed| <= 500 ==> next.cutOff == w.cutOff)
    && (forall id :: id in next.cutOff <==> id in w.cutOff || (id in failed && id !in Recorded(next.row)))
    && next.mostFailed == (if w.mostFailed < |failed| then |failed| else w.mostFailed)
    && next.chat == w.chat && next.stored == w.stored && next.stranded == w.stranded && next.hidden == w.hidden
  }

  /** `kept` are the largest of the failed IDs, as many as fit. */
  ghost predicate FitsCap(kept: set<int>, failed: set<int>) {
    && |kept| == (if |failed| <= 500 then |failed| else 500)
    && (|failed| <= 500 ==> kept == failed)
    && (forall id :: id in kept ==> id in failed)
    && (forall x, y :: x in failed && x !in kept && y in kept ==> x < y)
  }

  ghost predicate AllSteps(history: seq<World>) {
    forall i, j {:trigger Step(history[i], history[j])} :: 0 <= i && j == i + 1 < |history| ==>
      Step(history[i], history[j])
  }

  lemma SnocIsGood(history: seq<World>, next: World)
    requires AllGood(history) && Good(next)
    ensures AllGood(history + [next])
  {
    var after := history + [next];
    forall k | 0 <= k < |after| ensures Good(after[k]) {
      assert k < |history| ==> after[k] == history[k];
    }
  }

  lemma SnocSteps(history: seq<World>, next: World)
    requires history != [] && AllSteps(history) && Step(history[|history| - 1], next)
    ensures AllSteps(history + [next])
  {
    var after, n := history + [next], |history|;
    forall i, j | 0 <= i && j == i + 1 < |after| ensures Step(after[i], after[j]) {
      assert after[i] == history[i] && (j < n ==> after[j] == history[j]);
    }
  }

  lemma SnocExtends(history: seq<World>, next: World)
    requires history != []
    ensures Extends(history, history + [next], Cursor(history[|history| - 1].row) <= Cursor(next.row))
  {
    var after, n := history + [next], |history|;
    if CursorRises(history) && Cursor(history[n - 1].row) <= Cursor(next.row) {
      forall i, j | 0 <= i < j < |after| ensures Cursor(after[i].row) <= Cursor(after[j].row) {
        assert after[i] == history[i] && Cursor(history[i].row) <= Cursor(history[n - 1].row);
        assert j < n ==> after[j] == history[j];
      }
    }
  }

  lemma CutExtends(before: seq<World>, after: seq<World>, cut: seq<World>, rising: bool)
    requires Extends(before, after, rising) && before <= cut <= after
    ensures Extends(before, cut, rising)
  {
    assert forall i :: 0 <= i < |cut| ==> cut[i] == after[i];
  }

  /** Nothing is ever taken out of the world. */
  lemma {:induction false} NothingShrinks(history: seq<World>, i: nat, j: nat)
    requires AllSteps(history) && i <= j < |history|
    ensures Keeps(history[i], history[j])
    decreases j
  {
    if i < j {
      NothingShrinks(history, i, j - 1);
      assert Step(history[j - 1], history[j]);
    }
  }

  /** Every wanted message up to the persisted cursor is stored or among the
      persisted failed IDs. */
  ghost predicate NothingLost(w: World) {
    forall m :: m in w.chat && m.plain && m.media && m.id <= Cursor(w.row) ==> m.id in w.stored || m.id in Recorded(w.row)
  }

  lemma NothingGivenUp(w: World)
    requires Good(w) && w.mostFailed <= MAX_PERSISTED && AllPlain(w.chat)
    requires forall id :: id !in w.stranded
    ensures NothingLost(w)
  {
  }

  function NewWorld(chat: seq<Message>): World {
    World(chat, {}, None, {}, 0, {}, {})
  }

  /** The states the world has been in, good ones throughout. */
  type GoodHistory = history: seq<World> | history != [] && AllGood(history) && AllSteps(history)
    witness [NewWorld([])]

  /** What a saved row is read back as. */
  lemma RecordedIsPersisted(cursor: int, failed: set<int>, text: string)
    requires text == Joined(Persisted(failed)) && forall id :: id in failed ==> Decimal.InRange(id)
    ensures Recorded(Some(Record(cursor, text))) == set id | id in Persisted(failed)
  {
    PersistedAreTheLargest(failed);
    ParseOfJoin(Persisted(failed));
  }

  lemma PersistedFitsCap(failed: set<int>)
    ensures FitsCap((set id | id in Persisted(failed)), failed)
  {
    var ids := Persisted(failed);
    PersistedAreTheLargest(failed);
    ElementCount(ids);
    if |failed| <= MAX_PERSISTED {
      PersistsAllIffWithinCap(failed);
      assert (set id | id in ids) == failed;
    }
  }

  lemma {:induction false} ElementCount(ids: seq<int>)
    requires StrictlyAscending(ids)
    ensures |set id | id in ids| == |ids|
  {
    if ids != [] {
      var front, last := ids[..|ids| - 1], ids[|ids| - 1];
      ElementCount(front);
      assert (set id | id in ids) == (set id | id in front) + {last};
    }
  }

  /** The row a checkpoint is saved as: the failed IDs in ascending order, capped
      and joined. */
  method NewRow(cursor: int, failed: set<int>) returns (row: Record)
    requires forall id :: id in failed ==> Decimal.InRange(id)
    ensures row.lastRead == cursor && FitsCap(Recorded(Some(row)), failed)
  {
    var text := FailedText(failed);
    RecordedIsPersisted(cursor, failed, text);
    PersistedFitsCap(failed);
    row := Record(cursor, text);
  }

  method Saved(w: World, cursor: int, failed: set<int>) returns (next: World)
    requires forall id :: id in failed ==> Decimal.InRange(id)
    ensures IsSave(w, next, cursor, failed)
  {
    var row := NewRow(cursor, failed);
    var left := set id | id in failed && id !in Recorded(Some(row));
    assert |failed| <= MAX_PERSISTED ==> left == {};
    var cutOff := w.cutOff + left;
    next := w.(row := Some(row), cutOff := cutOff,
               mostFailed := if w.mostFailed < |failed| then |failed| else w.mostFailed);
  }

  lemma SavedIsGood(w: World, next: World, cursor: int, failed: set<int>)
    requires Good(w) && 0 <= cursor <= LastId(w.chat) && IsSave(w, next, cursor, failed)
    requires Accounted(w, cursor, failed)
    ensures Good(next) && Accounted(next, cursor, failed)
  {
  }

  /** Saving a checkpoint adds a good state to the history. */
  lemma SaveStep(history: GoodHistory, next: World, cursor: int, failed: set<int>)
    requires var w := history[|history| - 1];
             && 0 <= cursor <= LastId(w.chat) && Accounted(w, cursor, failed)
             && IsSave(w, next, cursor, failed)
    ensures AllGood(history + [next]) && AllSteps(history + [next]) && Accounted(next, cursor, failed)
    ensures Extends(history, history + [next], Cursor(history[|history| - 1].row) <= cursor)
  {
    var w := history[|history| - 1];
    assert Good(w);
    SavedIsGood(w, next, cursor, failed);
    SnocIsGood(history, next);
    SnocSteps(history, next);
    SnocExtends(history, next);
  }

  function Longer(history: GoodHistory, next: World): (longer: GoodHistory)
    requires AllGood(history + [next]) && AllSteps(history + [next])
  {
    history + [next]
  }

  /** The history with one more checkpoint saved. */
  method Recording(history: GoodHistory, cursor: int, failed: set<int>) returns (next: World, longer: GoodHistory)
    requires var w := history[|history| - 1]; 0 <= cursor <= LastId(w.chat) && Accounted(w, cursor, failed)
    requires forall id :: id in failed ==> Decimal.InRange(id)
    ensures longer == history + [next] && IsSave(history[|history| - 1], next, cursor, failed)
    ensures Accounted(next, cursor, failed)
    ensures Extends(history, longer, Cursor(history[|history| - 1].row) <= cursor)
  {
    next := Saved(history[|history| - 1], cursor, failed);
    SaveStep(history, next, cursor, failed);
    longer := Longer(history, next);
  }

  lemma PastIsGood(history: GoodHistory, k: nat)
    requires k < |history|
    ensures AllGood(history[..k + 1]) && AllSteps(history[..k + 1])
  {
    var past := history[..k + 1];
    forall j | 0 <= j < |past| ensures Good(past[j]) {
      assert Good(history[j]);
    }
    forall i, j | 0 <= i && j == i + 1 < |past| ensures Step(past[i], past[j]) {
      assert Step(history[i], history[j]);
    }
  }

  class Site {
    var world: World
    /** The present world is the last one of its history. */
    var history: GoodHistory

    ghost predicate Valid()
      reads this
    {
      history[|history| - 1] == world
    }

    /** What a run may rely on at any time. */
    lemma IsLegal()
      requires Valid()
      ensures Legal(world)
    {
      assert Good(history[|history| - 1]);
    }

    constructor (start: World)
      requires Good(start)
      ensures Valid() && world == start && history == [start]
    {
      world, history := start, [start];
    }

    /** Messages or files arrive, or messages are given up. */
    method Grow(next: World)
      requires Valid() && Grows(world, next) && LegalChat(next.chat)
      requires forall id :: id in next.hidden ==> id in world.hidden || BelowNotice(next.chat, id)
      modifies this
      ensures Valid() && world == next && history == old(history) + [next]
      ensures Extends(old(history), history, true)
    {
      assert Good(history[|history| - 1]);
      GrowsKeepsGood(world, next);
      SnocIsGood(history, next);
      SnocSteps(history, next);
      SnocExtends(history, next);
      world, history := next, Longer(history, next);
    }

    /** The checkpoint row is read back. */
    method ReadRow() returns (lastRead: int, ids: set<int>)
      requires Valid() && world.row.Some?
      ensures lastRead == Cursor(world.row) && ids == Recorded(world.row)
      ensures Accounted(world, lastRead, ids)
      ensures forall id :: id in ids ==> Decimal.InRange(id)
    {
      assert Good(history[|history| - 1]);
      var list := ParseFailedIDs(world.row.value.failedIds);
      ParsedInRange(world.row.value.failedIds);
      ids := set id | id in list;
      lastRead := world.row.value.lastRead;
    }

    /** The checkpoint row is replaced by the cursor and the failed IDs that fit
        the cap; the others are cut off. */
    method WriteRow(cursor: int, failed: set<int>)
      requires Valid() && 0 <= cursor <= LastId(world.chat)
      requires Accounted(world, cursor, failed) && forall id :: id in failed ==> Decimal.InRange(id)
      modifies this
      ensures Valid() && IsSave(old(world), world, cursor, failed)
      ensures Accounted(world, cursor, failed)
      ensures Extends(old(history), history, Cursor(old(world).row) <= cursor)
    {
      world, history := Recording(history, cursor, failed);
    }

    /** The process dies: what happened after snapshot `k` never took place. */
    method CutBackTo(k: nat)
      requires Valid() && k < |history|
      modifies this
      ensures Valid() && world == old(history)[k] && history == old(history)[..k + 1]
      ensures history <= old(history)
    {
      var past := history[..k + 1];
      PastIsGood(history, k);
      world, history := history[k], past;
    }
  }

  lemma NoneAtZero(w: World)
    requires LegalChat(w.chat)
    ensures Accounted(w, 0, {})
  {
  }

  /** Messages and files that arrived since, and failed IDs dropped for a stored
      file, leave the cursor where it was good. */
  lemma StillAccounted(w: World, site: Site, cursor: int, failed: set<int>, left: set<int>)
    requires site.Valid() && Grows(w, site.world)
    requires Accounted(w, cursor, failed) && cursor <= LastId(w.chat)
    requires forall id :: id in failed ==> id in left || id in site.world.stored
    ensures Accounted(site.world, cursor, left) && cursor <= LastId(site.world.chat)
    ensures LastId(w.chat) <= LastId(site.world.chat)
  {
    site.IsLegal();
    MovedKeepsAccounted(w, site.world, cursor, failed, left);
    GrowsKeepsLast(w, site.world);
  }
}
