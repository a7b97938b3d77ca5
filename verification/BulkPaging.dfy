/** Collecting the pages of a chat and moving the cursor over them, in values. */
module BulkPaging {
  import opened Lists
  import Decimal
  import opened History
  import opened ServiceNotices
  import opened Checkpoints
  import opened BulkBlocks

  const MAX_BLOCKS: nat := 1000

  ghost predicate Runnable(blocks: seq<seq<Message>>) {
    forall i {:trigger Rising(blocks[i])} :: 0 <= i < |blocks| ==>
      blocks[i] != [] && Rising(blocks[i]) && InRangeIds(blocks[i])
  }

  // ---------------------------------------------------- what is collected

  /** Messages of the window with rising IDs. */
  ghost predicate FromWindow(chat: seq<Message>, lo: int, hi: int, msgs: seq<Message>) {
    LegalChat(msgs) && forall m :: m in msgs ==> m in chat && InWindow(m, lo, hi)
  }

  lemma PageIsFromWindow(chat: seq<Message>, lo: int, hi: int)
    requires LegalChat(chat)
    ensures FromWindow(chat, lo, hi, Between(chat, lo, hi))
    ensures FromWindow(chat, lo, hi, NewestPage(Between(chat, lo, hi)))
  {
    var all := Between(chat, lo, hi);
    BetweenRises(chat, lo, hi);
    forall m | m in all ensures m in chat && InWindow(m, lo, hi) && 0 < m.id <= Decimal.MAX_INT {
      BetweenHolds(chat, lo, hi, m);
    }
    var k := |all| - |NewestPage(all)|;
    assert NewestPage(all) == all[k..];
    assert forall i :: 0 <= i < |all[k..]| ==> all[k..][i] == all[k + i];
  }

  /** An answer, sorted, holds messages of the window with rising IDs. */
  lemma AnswerIsLegal(chat: seq<Message>, lo: int, hi: int)
    requires LegalChat(chat)
    ensures FromWindow(chat, lo, hi, SortById(PlainOnly(ServerPage(chat, lo, hi))))
  {
    var raw := NewestPage(Between(chat, lo, hi));
    var page := PlainOnly(raw);
    PlainAnswer(chat, lo, hi);
    PageIsFromWindow(chat, lo, hi);
    PlainOnlyRises(raw);
    forall i | 0 <= i < |page| ensures page[i] in raw {
      PlainOnlyHolds(raw, page[i]);
    }
  }

  lemma JoinIsLegal(front: seq<Message>, page: seq<Message>)
    requires LegalChat(front) && LegalChat(page)
    requires page == [] || forall m :: m in front ==> m.id < page[0].id
    ensures LegalChat(front + page)
  {
    var all := front + page;
    forall i, j | 0 <= i < j < |all| ensures all[i].id < all[j].id {
      if i < |front| {
        assert all[i] == front[i] && front[i] in front;
        assert j >= |front| ==> all[j] == page[j - |front|];
      } else {
        assert all[i] == page[i - |front|] && all[j] == page[j - |front|];
      }
    }
  }

  /** The pages, replayed, are messages of the window with rising IDs, none of
      them below `offset`. */
  ghost predicate Sound(seen: seq<Message>, lo: int, offset: int, blocks: seq<seq<Message>>) {
    && Runnable(blocks) && FromWindow(seen, lo, 0, ReplayOrder(blocks))
    && forall m :: m in ReplayOrder(blocks) ==> m.id >= offset > 0
  }

  lemma NothingIsSound(seen: seq<Message>, lo: int)
    ensures Sound(seen, lo, 0, [])
  {
  }

  lemma PageAdded(seen: seq<Message>, lo: int, offset: int, blocks: seq<seq<Message>>, page: seq<Message>)
    requires Sound(seen, lo, offset, blocks) && FromWindow(seen, lo, offset, page) && page != []
    ensures Sound(seen, lo, page[0].id, blocks + [page])
  {
    var all, rest := ReplayOrder(blocks + [page]), ReplayOrder(blocks);
    assert (blocks + [page])[..|blocks|] == blocks;
    assert all == page + rest;
    assert page[0] in page && page[|page| - 1] in page;
    if rest != [] {
      assert rest[0] in rest;
    }
    JoinIsLegal(page, rest);
    forall i | 0 <= i <= |blocks|
      ensures (blocks + [page])[i] != [] && Rising((blocks + [page])[i]) && InRangeIds((blocks + [page])[i])
    {
      assert i < |blocks| ==> Rising(blocks[i]);
    }
    forall m | m in all ensures m in seen && InWindow(m, lo, 0) && m.id >= page[0].id {
      if m in page {
        var j :| 0 <= j < |page| && page[j] == m;
      } else {
        assert m in rest;
      }
    }
  }

  /** Nothing from `offset` on is missing from the pages. */
  ghost predicate Covered(seen: seq<Message>, lo: int, offset: int, blocks: seq<seq<Message>>) {
    forall m :: m in seen && lo < m.id && 0 < offset <= m.id ==> m in ReplayOrder(blocks)
  }

  lemma SnocReplay(blocks: seq<seq<Message>>, page: seq<Message>)
    ensures ReplayOrder(blocks + [page]) == page + ReplayOrder(blocks)
  {
    assert (blocks + [page])[..|blocks|] == blocks;
  }

  lemma OnNewestPage(all: seq<Message>, m: Message)
    requires Rising(all) && m in all && NewestPage(all)[0].id <= m.id
    ensures m in NewestPage(all)
  {
    var page := NewestPage(all);
    var k := |all| - |page|;
    var i :| 0 <= i < |all| && all[i] == m;
    assert page == all[k..] && all[k] == page[0];
    assert i >= k && page[i - k] == m;
  }

  lemma FullPageCovers(seen: seq<Message>, lo: int, offset: int, blocks: seq<seq<Message>>)
    requires LegalChat(seen) && Covered(seen, lo, offset, blocks) && Between(seen, lo, offset) != [] && offset >= 0
    ensures var page := NewestPage(Between(seen, lo, offset)); Covered(seen, lo, page[0].id, blocks + [page])
  {
    var page := NewestPage(Between(seen, lo, offset));
    SnocReplay(blocks, page);
    BetweenRises(seen, lo, offset);
    forall m | m in seen && lo < m.id && page[0].id <= m.id && m !in ReplayOrder(blocks) ensures m in page {
      BetweenHolds(seen, lo, offset, m);
      OnNewestPage(Between(seen, lo, offset), m);
    }
  }

  /** Every plain message above the checkpoint is on a page or below a notice. */
  ghost predicate MissedIsBelow(seen: seq<Message>, lo: int, visible: seq<Message>) {
    forall m :: m in seen && m.plain && lo < m.id ==> m in visible || BelowNotice(seen, m.id)
  }

  lemma NotOnPage(chat: seq<Message>, lo: int, hi: int, m: Message)
    requires LegalChat(chat) && m in Between(chat, lo, hi) && m.plain
    requires var page := NewestPage(Between(chat, lo, hi)); !AllPlain(page) || |page| < PAGE_SIZE
    ensures m in PlainOnly(NewestPage(Between(chat, lo, hi))) || BelowNotice(chat, m.id)
  {
    var all := Between(chat, lo, hi);
    var page := NewestPage(all);
    PlainOnlyHolds(page, m);
    if m !in page {
      var i :| 0 <= i < |all| && all[i] == m;
      var j :| 0 <= j < |page| && !page[j].plain;
      assert page[j] == all[|all| - PAGE_SIZE + j];
      BetweenRises(chat, lo, hi);
      BetweenHolds(chat, lo, hi, page[j]);
    }
  }

  lemma LastPageExplains(seen: seq<Message>, lo: int, offset: int, blocks: seq<seq<Message>>, page: seq<Message>)
    requires LegalChat(seen) && Covered(seen, lo, offset, blocks) && (offset > 0 || blocks == []) && offset >= 0
    requires page == PlainOnly(NewestPage(Between(seen, lo, offset))) && |page| < PAGE_SIZE
    ensures MissedIsBelow(seen, lo, page + ReplayOrder(blocks))
  {
    PlainOnlyLength(NewestPage(Between(seen, lo, offset)));
    forall m | m in seen && m.plain && lo < m.id && m !in ReplayOrder(blocks) ensures m in page || BelowNotice(seen, m.id) {
      BetweenHolds(seen, lo, offset, m);
      NotOnPage(seen, lo, offset, m);
    }
  }

  // --------------------------------------------------- the loop, in values

  /** Full pages have been collected down to `offset`, and going on from there
      collects what the loop on the chat first seen collects. */
  ghost predicate Paging(seen: seq<Message>, lo: int, offset: int, blocks: seq<seq<Message>>) {
    && LegalChat(seen) && 0 <= offset <= LastId(seen) && |blocks| <= MAX_BLOCKS
    && blocks + Collected(seen, lo, offset, MAX_BLOCKS - |blocks|) == Collected(seen, lo, 0, MAX_BLOCKS)
    && |Between(seen, lo, offset)| + PAGE_SIZE * |blocks| == |Between(seen, lo, 0)|
  }

  lemma PagingStarts(seen: seq<Message>, lo: int)
    requires LegalChat(seen)
    ensures Paging(seen, lo, 0, [])
  {
  }

  /** The pages are all there are to collect; without notices fewer messages
      than the limit were waiting. */
  ghost predicate Complete(seen: seq<Message>, lo: int, blocks: seq<seq<Message>>) {
    && blocks == Collected(seen, lo, 0, MAX_BLOCKS)
    && (AllPlain(seen) ==> |Between(seen, lo, 0)| < PAGE_SIZE * MAX_BLOCKS)
  }

  /** An empty or a short answer completes the collection; a full one leaves the
      loop with one page more. */
  ghost predicate Turned(seen: seq<Message>, lo: int, blocks: seq<seq<Message>>, page: seq<Message>) {
    if page == [] then Complete(seen, lo, blocks)
    else if |page| < PAGE_SIZE then Complete(seen, lo, blocks + [page])
    else
      && page[0].id > 0 && Paging(seen, lo, page[0].id, blocks + [page])
      && |Between(seen, lo, 0)| >= PAGE_SIZE * (|blocks| + 1)
  }

  /** Messages that arrived since the first fetch are not in a later window. */
  lemma SameWindow(seen: seq<Message>, chat: seq<Message>, lo: int, offset: int)
    requires LegalChat(chat) && seen <= chat && 0 <= offset <= LastId(seen) && (offset > 0 || seen == chat)
    ensures Between(chat, lo, offset) == Between(seen, lo, offset)
  {
    if offset > 0 {
      var more := chat[|seen|..];
      forall i | 0 <= i < |more| ensures more[i].id >= offset {
        NewerIsLarger(seen, chat, |seen| + i);
      }
      BetweenIgnoresNewer(seen, more, lo, offset);
      assert seen + more == chat;
    }
  }

  lemma PagingStep(seen: seq<Message>, chat: seq<Message>, lo: int, offset: int, blocks: seq<seq<Message>>,
                   plain: seq<Message>)
    requires LegalChat(chat) && seen <= chat
    requires Paging(seen, lo, offset, blocks) && (offset > 0 || seen == chat) && |blocks| < MAX_BLOCKS
    requires plain == PlainOnly(ServerPage(chat, lo, offset))
    ensures |SortById(plain)| == |plain| && Turned(seen, lo, blocks, SortById(plain))
  {
    SameWindow(seen, chat, lo, offset);
    PlainAnswer(chat, lo, offset);
    PlainOnlyReverse(NewestPage(Between(chat, lo, offset)));
    PageTurns(seen, lo, offset, blocks);
  }

  lemma PageTurns(seen: seq<Message>, lo: int, offset: int, blocks: seq<seq<Message>>)
    requires Paging(seen, lo, offset, blocks) && |blocks| < MAX_BLOCKS
    ensures Turned(seen, lo, blocks, PlainOnly(NewestPage(Between(seen, lo, offset))))
  {
    var all := Between(seen, lo, offset);
    var raw := NewestPage(all);
    var page := PlainOnly(raw);
    PlainAnswer(seen, lo, offset);
    PlainOnlyLength(raw);
    if |page| < PAGE_SIZE {
      ShortPage(seen, lo, offset, blocks);
    } else {
      assert AllPlain(raw) && |raw| == PAGE_SIZE;
      PlainOnlyKeepsPlain(raw);
      FullPageTurns(seen, lo, offset, blocks);
    }
  }

  lemma ShortPage(seen: seq<Message>, lo: int, offset: int, blocks: seq<seq<Message>>)
    requires Paging(seen, lo, offset, blocks) && |blocks| < MAX_BLOCKS
    requires |PlainOnly(NewestPage(Between(seen, lo, offset)))| < PAGE_SIZE
    ensures var page := PlainOnly(NewestPage(Between(seen, lo, offset)));
            Complete(seen, lo, if page == [] then blocks else blocks + [page])
  {
    CollectShort(seen, lo, offset, MAX_BLOCKS - |blocks|);
    assert blocks + [] == blocks;
    PlainPage(seen, lo, offset);
  }

  lemma CollectShort(seen: seq<Message>, lo: int, offset: int, n: nat)
    requires LegalChat(seen) && n > 0 && |PlainOnly(NewestPage(Between(seen, lo, offset)))| < PAGE_SIZE
    ensures var page := PlainOnly(NewestPage(Between(seen, lo, offset)));
            Collected(seen, lo, offset, n) == if page == [] then [] else [page]
  {
    PlainAnswer(seen, lo, offset);
  }

  lemma PlainPage(seen: seq<Message>, lo: int, offset: int)
    ensures AllPlain(seen) ==>
              PlainOnly(NewestPage(Between(seen, lo, offset))) == NewestPage(Between(seen, lo, offset))
  {
    var all := Between(seen, lo, offset);
    if AllPlain(seen) {
      forall i | 0 <= i < |all| ensures all[i].plain {
        BetweenHolds(seen, lo, offset, all[i]);
      }
      PlainOnlyKeepsPlain(NewestPage(all));
    }
  }

  lemma FullPageTurns(seen: seq<Message>, lo: int, offset: int, blocks: seq<seq<Message>>)
    requires Paging(seen, lo, offset, blocks) && |blocks| < MAX_BLOCKS
    requires var raw := NewestPage(Between(seen, lo, offset)); |raw| == PAGE_SIZE && PlainOnly(raw) == raw
    ensures var page := NewestPage(Between(seen, lo, offset));
            && page[0].id > 0 && Paging(seen, lo, page[0].id, blocks + [page])
            && |Between(seen, lo, 0)| >= PAGE_SIZE * (|blocks| + 1)
  {
    var page := NewestPage(Between(seen, lo, offset));
    var n := MAX_BLOCKS - |blocks|;
    BelowPage(seen, lo, offset);
    PlainAnswer(seen, lo, offset);
    CollectOne(seen, lo, offset, n);
    Associative(blocks, [page], Collected(seen, lo, page[0].id, n - 1));
  }

  /** All that the loop knows about its pages. */
  ghost predicate Progress(seen: seq<Message>, lo: int, offset: int, blocks: seq<seq<Message>>) {
    && Paging(seen, lo, offset, blocks) && Sound(seen, lo, offset, blocks) && Covered(seen, lo, offset, blocks)
    && (offset > 0 || blocks == [])
  }

  /** All that is known of its pages when it ends well. */
  ghost predicate Finished(seen: seq<Message>, lo: int, blocks: seq<seq<Message>>) {
    && LegalChat(seen) && Complete(seen, lo, blocks) && Runnable(blocks)
    && FromWindow(seen, lo, 0, ReplayOrder(blocks)) && MissedIsBelow(seen, lo, ReplayOrder(blocks))
  }

  lemma ProgressStarts(seen: seq<Message>, lo: int)
    requires LegalChat(seen)
    ensures Progress(seen, lo, 0, [])
  {
    PagingStarts(seen, lo);
    NothingIsSound(seen, lo);
  }

  /** What an answer does to the loop. */
  lemma AnswerArrives(seen: seq<Message>, chat: seq<Message>, lo: int, offset: int, blocks: seq<seq<Message>>,
                      plain: seq<Message>)
    requires LegalChat(chat) && seen <= chat
    requires Progress(seen, lo, offset, blocks) && (offset > 0 || seen == chat) && |blocks| < MAX_BLOCKS
    requires plain == PlainOnly(ServerPage(chat, lo, offset))
    ensures var page := SortById(plain);
            && |page| == |plain|
            && (page == [] ==> Finished(seen, lo, blocks))
            && (0 < |page| < PAGE_SIZE ==> Finished(seen, lo, blocks + [page]))
            && (|page| >= PAGE_SIZE ==> page[0].id > 0 && Progress(seen, lo, page[0].id, blocks + [page])
                                        && |Between(seen, lo, 0)| >= PAGE_SIZE * (|blocks| + 1))
  {
    var page := SortById(plain);
    PagingStep(seen, chat, lo, offset, blocks, plain);
    SameWindow(seen, chat, lo, offset);
    PlainAnswer(chat, lo, offset);
    PageIsSound(seen, lo, offset, blocks, page);
    SnocReplay(blocks, page);
    if |page| < PAGE_SIZE {
      LastPageExplains(seen, lo, offset, blocks, page);
    } else {
      PlainOnlyLength(NewestPage(Between(seen, lo, offset)));
      PlainOnlyKeepsPlain(NewestPage(Between(seen, lo, offset)));
      FullPageCovers(seen, lo, offset, blocks);
    }
  }

  lemma PageIsSound(seen: seq<Message>, lo: int, offset: int, blocks: seq<seq<Message>>, page: seq<Message>)
    requires LegalChat(seen) && Sound(seen, lo, offset, blocks)
    requires page == PlainOnly(NewestPage(Between(seen, lo, offset)))
    ensures page != [] ==> Sound(seen, lo, page[0].id, blocks + [page])
  {
    AnswerIsLegal(seen, lo, offset);
    PlainAnswer(seen, lo, offset);
    if page != [] {
      PageAdded(seen, lo, offset, blocks, page);
    }
  }

  lemma CollectOne(seen: seq<Message>, lo: int, offset: int, n: nat)
    requires n > 0 && |SortById(PlainOnly(ServerPage(seen, lo, offset)))| == PAGE_SIZE
    ensures var page := SortById(PlainOnly(ServerPage(seen, lo, offset)));
            Collected(seen, lo, offset, n) == [page] + Collected(seen, lo, page[0].id, n - 1)
  {
  }

  /** Below a full page the window holds a page less. */
  lemma BelowPage(seen: seq<Message>, lo: int, offset: int)
    requires LegalChat(seen) && |NewestPage(Between(seen, lo, offset))| == PAGE_SIZE
    ensures var page := NewestPage(Between(seen, lo, offset));
            && 0 < page[0].id <= LastId(seen)
            && |Between(seen, lo, page[0].id)| == |Between(seen, lo, offset)| - PAGE_SIZE
  {
    var all := Between(seen, lo, offset);
    var k := |all| - PAGE_SIZE;
    BetweenPrefix(seen, lo, offset, k);
    BetweenHolds(seen, lo, offset, all[k]);
    NotAbove(seen, all[k]);
    assert NewestPage(all)[0] == all[k];
  }

  lemma {:induction false} BetweenGrows(seen: seq<Message>, chat: seq<Message>, lo: int)
    requires seen <= chat
    ensures |Between(seen, lo, 0)| <= |Between(chat, lo, 0)|
    decreases |chat|
  {
    if |seen| < |chat| {
      BetweenGrows(seen, chat[..|chat| - 1], lo);
    } else {
      assert seen == chat;
    }
  }

  // -------------------------------------- what notices keep out of sight

  /** The wanted messages of the window that no collected page holds although a
      later one is held. */
  function Hidden(seen: seq<Message>, lo: int, visible: seq<Message>): set<int> {
    set m | m in seen && m.Wanted() && lo < m.id <= LastId(visible) && m !in visible :: m.id
  }

  lemma HiddenIsBelowNotice(seen: seq<Message>, lo: int, visible: seq<Message>)
    requires MissedIsBelow(seen, lo, visible)
    ensures forall id :: id in Hidden(seen, lo, visible) ==> BelowNotice(seen, id)
  {
  }

  lemma {:induction false} PlainHasNoNotices(chat: seq<Message>, lo: int, hi: int, pages: nat)
    requires LegalChat(chat) && AllPlain(chat)
    ensures NoticesComeLast(chat, lo, hi, pages)
    decreases pages
  {
    var all := Between(chat, lo, hi);
    var page := NewestPage(all);
    forall i | 0 <= i < |all| ensures all[i].plain {
      BetweenHolds(chat, lo, hi, all[i]);
    }
    if |page| >= PAGE_SIZE && pages > 0 {
      PlainHasNoNotices(chat, lo, page[0].id, pages - 1);
    }
  }

  /** When the first page with a notice has none but notices behind it, nothing
      wanted is kept out of sight. */
  lemma NothingHidden(seen: seq<Message>, lo: int)
    requires LegalChat(seen) && NoticesComeLast(seen, lo, 0, MAX_BLOCKS)
    requires |Between(seen, lo, 0)| < PAGE_SIZE * MAX_BLOCKS
    ensures Hidden(seen, lo, ReplayOrder(Collected(seen, lo, 0, MAX_BLOCKS))) == {}
  {
    var visible := ReplayOrder(Collected(seen, lo, 0, MAX_BLOCKS));
    CollectsAllIff(seen, lo, 0, MAX_BLOCKS);
    forall m | m in seen && m.Wanted() && lo < m.id ensures m in visible {
      BetweenHolds(seen, lo, 0, m);
      PlainOnlyHolds(Between(seen, lo, 0), m);
    }
  }

  /** In a chat of plain messages the pages, replayed, are exactly the messages
      above the checkpoint. */
  lemma PlainIsAllSeen(seen: seq<Message>, lo: int, blocks: seq<seq<Message>>)
    requires LegalChat(seen) && AllPlain(seen) && Complete(seen, lo, blocks)
    ensures ReplayOrder(blocks) == Between(seen, lo, 0) && Hidden(seen, lo, ReplayOrder(blocks)) == {}
  {
    PlainHasNoNotices(seen, lo, 0, MAX_BLOCKS);
    CollectsAllIff(seen, lo, 0, MAX_BLOCKS);
    NothingHidden(seen, lo);
    var all := Between(seen, lo, 0);
    forall i | 0 <= i < |all| ensures all[i].plain {
      BetweenHolds(seen, lo, 0, all[i]);
    }
    PlainOnlyKeepsPlain(all);
  }

  // ------------------------------------------------- replaying, in values

  /** `visible` are messages of the chat first seen, above the checkpoint, and up
      to the last of them a wanted one that is missing is known as hidden. */
  ghost predicate View(w: World, lo: int, seen: seq<Message>, visible: seq<Message>) {
    && LegalChat(seen) && LegalChat(visible) && seen <= w.chat
    && (forall m :: m in visible ==> m in seen && m.id > lo)
    && (forall m :: m in seen && m.Wanted() && lo < m.id <= LastId(visible) ==> m in visible || m.id in w.hidden)
  }

  function Whole(msgs: seq<Message>): seq<Message> {
    msgs
  }

  /** The same, kept under the name `Whole` so that it comes into play only in
      the lemmas that use it. */
  ghost predicate InView(w: World, lo: int, seen: seq<Message>, visible: seq<Message>) {
    forall v {:trigger Whole(v)} :: v == visible ==> View(w, lo, seen, Whole(v))
  }

  lemma InViewIsView(w: World, lo: int, seen: seq<Message>, visible: seq<Message>)
    ensures InView(w, lo, seen, visible) <==> View(w, lo, seen, visible)
  {
    assert Whole(visible) == visible;
  }

  /** What paging passed over is put down as hidden. */
  function WithHidden(w: World, lo: int, seen: seq<Message>, visible: seq<Message>): World {
    w.(hidden := w.hidden + Hidden(seen, lo, visible))
  }

  lemma NowInView(w: World, lo: int, seen: seq<Message>, blocks: seq<seq<Message>>)
    requires Finished(seen, lo, blocks) && LegalChat(w.chat) && seen <= w.chat
    ensures var next := WithHidden(w, lo, seen, ReplayOrder(blocks));
            && Grows(w, next) && InView(next, lo, seen, ReplayOrder(blocks))
            && (forall id :: id in next.hidden ==> id in w.hidden || BelowNotice(w.chat, id))
  {
    var visible := ReplayOrder(blocks);
    var next := WithHidden(w, lo, seen, visible);
    HiddenIsBelowNotice(seen, lo, visible);
    forall id | id in Hidden(seen, lo, visible) ensures BelowNotice(w.chat, id) {
      var i :| 0 <= i < |seen| && !seen[i].plain && id < seen[i].id;
      assert w.chat[i] == seen[i];
    }
    forall m | m in seen && m.Wanted() && lo < m.id <= LastId(visible) && m !in visible ensures m.id in next.hidden {
      assert m.id in Hidden(seen, lo, visible);
    }
    InViewIsView(next, lo, seen, visible);
  }

  lemma StillInView(w: World, later: World, lo: int, seen: seq<Message>, visible: seq<Message>)
    requires InView(w, lo, seen, visible) && Keeps(w, later)
    ensures InView(later, lo, seen, visible)
  {
    InViewIsView(w, lo, seen, visible);
    InViewIsView(later, lo, seen, visible);
  }

  /** The first `n` pages in the order they are replayed. */
  function FirstPages(blocks: seq<seq<Message>>, n: nat): seq<Message>
    requires n <= |blocks|
  {
    if n == 0 then [] else blocks[n - 1] + FirstPages(blocks, n - 1)
  }

  lemma {:induction false} FirstPagesReplayed(blocks: seq<seq<Message>>, n: nat)
    requires n <= |blocks|
    ensures FirstPages(blocks, n) == ReplayOrder(blocks[..n])
  {
    if n > 0 {
      FirstPagesReplayed(blocks, n - 1);
      assert blocks[..n][..n - 1] == blocks[..n - 1];
    }
  }

  /** The first `n` pages, replayed, are what lies above the cursor. */
  ghost predicate Remaining(blocks: seq<seq<Message>>, n: nat, visible: seq<Message>, cursor: int) {
    n <= |blocks| && FirstPages(blocks, n) == Between(visible, cursor, 0)
  }

  lemma AllToReplay(w: World, lo: int, seen: seq<Message>, blocks: seq<seq<Message>>)
    ensures InView(w, lo, seen, ReplayOrder(blocks)) ==>
              FirstPages(blocks, |blocks|) == Between(ReplayOrder(blocks), lo, 0)
  {
    InViewIsView(w, lo, seen, ReplayOrder(blocks));
    if InView(w, lo, seen, ReplayOrder(blocks)) {
      assert blocks[..|blocks|] == blocks;
      FirstPagesReplayed(blocks, |blocks|);
      AllAbove(ReplayOrder(blocks), lo);
    }
  }

  lemma NextToReplay(blocks: seq<seq<Message>>, i: nat)
    requires 0 < i <= |blocks| && Runnable(blocks)
    ensures blocks[i - 1] <= FirstPages(blocks, i)
    ensures FirstPages(blocks, i)[|blocks[i - 1]|..] == FirstPages(blocks, i - 1)
    ensures blocks[i - 1] != [] && Rising(blocks[i - 1]) && InRangeIds(blocks[i - 1])
  {
    assert Rising(blocks[i - 1]);
  }

  /** A settled page accounts for every wanted message up to its last ID. */
  lemma CursorAdvances(w: World, lo: int, seen: seq<Message>, visible: seq<Message>, cursor: int,
                       done: seq<Message>, failed: set<int>)
    requires Accounted(w, cursor, failed) && LegalChat(w.chat) && lo <= cursor && View(w, lo, seen, visible)
    requires done != [] && done <= Between(visible, cursor, 0) && Settled(done, w.stored, failed, w.stranded)
    ensures Accounted(w, LastId(done), failed)
  {
    var all := Between(visible, cursor, 0);
    var last := |done| - 1;
    BetweenHolds(visible, cursor, 0, all[last]);
    BetweenRises(visible, cursor, 0);
    NotAbove(visible, all[last]);
    NotAbove(seen, all[last]);
    forall m | m in w.chat && m.Wanted() && cursor < m.id <= done[last].id
      ensures m.id in w.stored || m.id in failed || GivenUp(w, m.id)
    {
      var i :| 0 <= i < |w.chat| && w.chat[i] == m;
      NewerIsLarger(seen, w.chat, i);
      assert m == seen[i];
      if m in visible {
        BetweenHolds(visible, cursor, 0, m);
        var j :| 0 <= j < |all| && all[j] == m;
        assert j <= last && done[j] == m;
      }
    }
  }

  lemma NotAbove(chat: seq<Message>, m: Message)
    requires LegalChat(chat) && m in chat
    ensures m.id <= LastId(chat)
  {
  }

  /** The new cursor is above the old one and not ahead of the chat, and the
      messages above it are the rest of the replay. */
  lemma CursorFits(w: World, lo: int, seen: seq<Message>, visible: seq<Message>, cursor: int, done: seq<Message>)
    requires View(w, lo, seen, visible) && LegalChat(w.chat)
    requires done != [] && done <= Between(visible, cursor, 0)
    ensures cursor < LastId(done) <= LastId(w.chat)
    ensures Between(visible, LastId(done), 0) == Between(visible, cursor, 0)[|done|..]
  {
    var all := Between(visible, cursor, 0);
    var last := |done| - 1;
    BetweenHolds(visible, cursor, 0, all[last]);
    BetweenSuffix(visible, cursor, last);
    var i :| 0 <= i < |seen| && seen[i] == all[last];
    assert w.chat[i] == seen[i];
    NotAbove(w.chat, w.chat[i]);
  }

  lemma PageDone(w: World, later: World, lo: int, seen: seq<Message>, visible: seq<Message>, cursor: int,
                 done: seq<Message>, failed: set<int>, left: set<int>)
    requires Grows(w, later) && LegalChat(later.chat) && lo <= cursor <= LastId(w.chat)
    requires InView(w, lo, seen, visible)
    requires done != [] && done <= Between(visible, cursor, 0)
    requires forall id :: id in failed ==> id in left || id in later.stored
    ensures InView(later, lo, seen, visible)
    ensures var next := LastId(done);
            && cursor < next <= LastId(later.chat) && cursor <= LastId(later.chat)
            && Between(visible, next, 0) == Between(visible, cursor, 0)[|done|..]
            && (Accounted(w, cursor, failed) ==> Accounted(later, cursor, left))
            && (Accounted(w, cursor, failed) && Settled(done, later.stored, left, later.stranded) ==>
                  Accounted(later, next, left))
  {
    StillInView(w, later, lo, seen, visible);
    InViewIsView(later, lo, seen, visible);
    GrowsKeepsLast(w, later);
    CursorFits(later, lo, seen, visible, cursor, done);
    if Accounted(w, cursor, failed) {
      MovedKeepsAccounted(w, later, cursor, failed, left);
      if Settled(done, later.stored, left, later.stranded) {
        CursorAdvances(later, lo, seen, visible, cursor, done, left);
      }
    }
  }

  // ---------------------------------------------------- the end of a run

  /** A run that came to the end of what it saw, in a chat of plain messages, has
      its cursor past the chat. */
  lemma SeenToTheEnd(chat: seq<Message>, later: seq<Message>, seen: seq<Message>, lo: int, blocks: seq<seq<Message>>,
                     cursor: int)
    requires chat <= seen <= later && LegalChat(seen) && Complete(seen, lo, blocks) && lo <= cursor && cursor >= 0
    ensures AllPlain(later) && Between(ReplayOrder(blocks), cursor, 0) == [] ==> cursor >= LastId(chat)
  {
    EarlierIsPlain(seen, later);
    if AllPlain(later) && chat != [] && Between(ReplayOrder(blocks), cursor, 0) == [] {
      PlainIsAllSeen(seen, lo, blocks);
      var m := chat[|chat| - 1];
      assert seen[|chat| - 1] == m;
      BetweenHolds(seen, lo, 0, m);
      BetweenHolds(ReplayOrder(blocks), cursor, 0, m);
    }
  }

  /** The cursor is past the chat, and every wanted message of it is stored unless
      it was given up. */
  ghost predicate CaughtUp(chat: seq<Message>, w: World) {
    && Cursor(w.row) >= LastId(chat)
    && forall i :: 0 <= i < |chat| && chat[i].Wanted() ==> chat[i].id in w.stored || GivenUp(w, chat[i].id)
  }

  lemma CaughtUpEarlier(chat: seq<Message>, later: seq<Message>, w: World)
    requires chat <= later && LegalChat(later)
    ensures LastId(chat) <= LastId(later) && (CaughtUp(later, w) ==> CaughtUp(chat, w))
  {
    assert chat != [] ==> later[|chat| - 1] == chat[|chat| - 1];
    if CaughtUp(later, w) {
      forall i | 0 <= i < |chat| && chat[i].Wanted() ensures chat[i].id in w.stored || GivenUp(w, chat[i].id) {
        assert later[i] == chat[i];
      }
    }
  }

  lemma NothingLeftBehind(chat: seq<Message>, w: World, cursor: int, left: set<int>, failed: set<int>)
    requires LegalChat(w.chat) && chat <= w.chat
    ensures && Accounted(w, cursor, failed) && cursor >= LastId(chat) && Within(failed, left)
            && Cursor(w.row) == cursor && (forall id :: id in left ==> !WantedIn(chat, id))
            ==> CaughtUp(chat, w)
  {
    if Accounted(w, cursor, failed) && cursor >= LastId(chat) {
      forall i | 0 <= i < |chat| && chat[i].Wanted()
        ensures chat[i].id in w.stored || GivenUp(w, chat[i].id) || chat[i].id in failed
        ensures WantedIn(chat, chat[i].id)
      {
        assert w.chat[i] == chat[i] && w.chat[|chat| - 1] == chat[|chat| - 1];
      }
    }
  }
}
