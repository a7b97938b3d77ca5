/** Paging over a chat that also holds service notices. The notices are dropped
    from an answer before its length is looked at, so a full page with a notice
    in it counts as short and ends the paging. */
module ServiceNotices {
  import opened Lists
  import opened History

  /** The loop on a fixed chat: pages are fetched until one is short. */
  function Collected(chat: seq<Message>, lo: int, hi: int, pages: nat): (blocks: seq<seq<Message>>)
    decreases pages
  {
    var page := SortById(PlainOnly(ServerPage(chat, lo, hi)));
    if page == [] || pages == 0 then []
    else if |page| < PAGE_SIZE then [page]
    else [page] + Collected(chat, lo, page[0].id, pages - 1)
  }

  ghost predicate NonePlain(msgs: seq<Message>) {
    forall i :: 0 <= i < |msgs| ==> !msgs[i].plain
  }

  /** The first page, from the newest, that holds a notice has only notices
      behind it. */
  ghost predicate NoticesComeLast(chat: seq<Message>, lo: int, hi: int, pages: nat)
    decreases pages
  {
    var all := Between(chat, lo, hi);
    var page := NewestPage(all);
    if !AllPlain(page) then NonePlain(all[..|all| - |page|])
    else |page| < PAGE_SIZE || pages == 0 || NoticesComeLast(chat, lo, page[0].id, pages - 1)
  }

  lemma PlainOnlySnoc(front: seq<Message>, m: Message)
    ensures PlainOnly(front + [m]) == if m.plain then PlainOnly(front) + [m] else PlainOnly(front)
  {
    assert (front + [m])[..|front|] == front;
  }

  lemma {:induction false} PlainOnlyConcat(a: seq<Message>, b: seq<Message>)
    ensures PlainOnly(a + b) == PlainOnly(a) + PlainOnly(b)
  {
    if b == [] {
      assert a + b == a;
    } else {
      var front, m := b[..|b| - 1], b[|b| - 1];
      PlainOnlyConcat(a, front);
      PlainOnlySnoc(a + front, m);
      PlainOnlySnoc(front, m);
      assert a + b == (a + front) + [m] && b == front + [m];
      Associative(PlainOnly(a), PlainOnly(front), [m]);
    }
  }

  lemma ReverseSnoc(msgs: seq<Message>, m: Message)
    ensures Reverse(msgs + [m]) == [m] + Reverse(msgs)
  {
    assert (msgs + [m])[..|msgs|] == msgs;
  }

  lemma {:induction false} PlainOnlyReverse(msgs: seq<Message>)
    ensures PlainOnly(Reverse(msgs)) == Reverse(PlainOnly(msgs))
  {
    if msgs != [] {
      var front, m := msgs[..|msgs| - 1], msgs[|msgs| - 1];
      PlainOnlyReverse(front);
      PlainOnlyConcat([m], Reverse(front));
      PlainOnlySnoc([], m);
      assert [] + [m] == [m] && msgs == front + [m];
      PlainOnlySnoc(front, m);
      ReverseSnoc(PlainOnly(front), m);
    }
  }

  lemma {:induction false} PlainOnlyHolds(msgs: seq<Message>, m: Message)
    ensures m in PlainOnly(msgs) <==> m in msgs && m.plain
  {
    if msgs != [] {
      var n := |msgs| - 1;
      PlainOnlyHolds(msgs[..n], m);
      assert msgs == msgs[..n] + [msgs[n]];
    }
  }

  lemma {:induction false} PlainOnlyRises(msgs: seq<Message>)
    requires Rising(msgs)
    ensures Rising(PlainOnly(msgs))
  {
    if msgs != [] {
      var n := |msgs| - 1;
      var front := PlainOnly(msgs[..n]);
      PlainOnlyRises(msgs[..n]);
      forall i | 0 <= i < |front| ensures front[i].id < msgs[n].id {
        PlainOnlyHolds(msgs[..n], front[i]);
      }
    }
  }

  lemma {:induction false} PlainOnlyLength(msgs: seq<Message>)
    ensures |PlainOnly(msgs)| <= |msgs|
    ensures |PlainOnly(msgs)| == |msgs| <==> AllPlain(msgs)
    ensures PlainOnly(msgs) == [] <==> NonePlain(msgs)
  {
    if msgs != [] {
      var n := |msgs| - 1;
      PlainOnlyLength(msgs[..n]);
      assert forall i :: 0 <= i < n ==> msgs[i] == msgs[..n][i];
      assert AllPlain(msgs) <==> AllPlain(msgs[..n]) && msgs[n].plain;
      assert NonePlain(msgs) <==> NonePlain(msgs[..n]) && !msgs[n].plain;
    }
  }

  /** An answer sorted by ID is what is plain of the newest page. */
  lemma PlainAnswer(chat: seq<Message>, lo: int, hi: int)
    requires LegalChat(chat)
    ensures SortById(PlainOnly(ServerPage(chat, lo, hi))) == PlainOnly(NewestPage(Between(chat, lo, hi)))
  {
    var page := NewestPage(Between(chat, lo, hi));
    BetweenRises(chat, lo, hi);
    PlainOnlyReverse(page);
    PlainOnlyRises(page);
    SortOfReverse(PlainOnly(page));
  }

  lemma {:induction false} ReplayCons(page: seq<Message>, blocks: seq<seq<Message>>)
    ensures ReplayOrder([page] + blocks) == ReplayOrder(blocks) + page
  {
    var all := [page] + blocks;
    if blocks == [] {
      assert all == [page] && all[..0] == [];
      assert ReplayOrder(all[..0]) == [];
    } else {
      var n := |blocks| - 1;
      ReplayCons(page, blocks[..n]);
      assert all[..n + 1] == [page] + blocks[..n] && all[n + 1] == blocks[n];
    }
  }

  /** The pages, replayed, are all the plain messages of the window, in order. */
  ghost predicate CollectsAll(chat: seq<Message>, lo: int, hi: int, pages: nat) {
    ReplayOrder(Collected(chat, lo, hi, pages)) == PlainOnly(Between(chat, lo, hi))
  }

  /** The step of the loop, told by the newest page. */
  lemma CollectedByPage(chat: seq<Message>, lo: int, hi: int, pages: nat)
    requires LegalChat(chat) && pages > 0
    ensures var page := NewestPage(Between(chat, lo, hi));
            var plain := PlainOnly(page);
            && (AllPlain(page) && |page| == PAGE_SIZE ==>
                  Collected(chat, lo, hi, pages) == [page] + Collected(chat, lo, page[0].id, pages - 1))
            && (!AllPlain(page) || |page| < PAGE_SIZE ==> ReplayOrder(Collected(chat, lo, hi, pages)) == plain)
  {
    var page := NewestPage(Between(chat, lo, hi));
    PlainAnswer(chat, lo, hi);
    PlainOnlyLength(page);
    ReplayCons(PlainOnly(page), []);
    assert [PlainOnly(page)] + [] == [PlainOnly(page)];
    if AllPlain(page) {
      PlainOnlyKeepsPlain(page);
    }
  }

  lemma PlainSplits(older: seq<Message>, page: seq<Message>)
    ensures PlainOnly(older + page) == PlainOnly(older) + PlainOnly(page)
    ensures AllPlain(page) ==> PlainOnly(page) == page
    ensures PlainOnly(older) == [] <==> NonePlain(older)
  {
    PlainOnlyConcat(older, page);
    PlainOnlyLength(older);
    if AllPlain(page) {
      PlainOnlyKeepsPlain(page);
    }
  }

  lemma PageSplits(all: seq<Message>)
    ensures all == all[..|all| - |NewestPage(all)|] + NewestPage(all)
    ensures |NewestPage(all)| < PAGE_SIZE ==> all[..|all| - |NewestPage(all)|] == []
    ensures all != [] ==> NewestPage(all)[0] == all[|all| - |NewestPage(all)|]
  {
  }

  /** What the newest page adds to the plain messages of a window. */
  lemma PlainByPage(chat: seq<Message>, lo: int, hi: int)
    requires LegalChat(chat)
    ensures var all := Between(chat, lo, hi);
            var page := NewestPage(all);
            var older := all[..|all| - |page|];
            && PlainOnly(all) == PlainOnly(older) + PlainOnly(page)
            && (AllPlain(page) ==> PlainOnly(page) == page)
            && (|page| == PAGE_SIZE ==> Between(chat, lo, page[0].id) == older)
            && (|page| < PAGE_SIZE ==> older == [])
            && (PlainOnly(older) == [] <==> NonePlain(older))
  {
    var all := Between(chat, lo, hi);
    var page := NewestPage(all);
    var older := all[..|all| - |page|];
    PageSplits(all);
    PlainSplits(older, page);
    if |page| == PAGE_SIZE {
      BetweenPrefix(chat, lo, hi, |older|);
    }
  }

  /** A full page of plain messages leaves the question to the rest. */
  lemma FullPage(chat: seq<Message>, lo: int, hi: int, pages: nat)
    requires LegalChat(chat) && pages > 0
    requires var page := NewestPage(Between(chat, lo, hi)); AllPlain(page) && |page| == PAGE_SIZE
    ensures var first := NewestPage(Between(chat, lo, hi))[0].id;
            CollectsAll(chat, lo, hi, pages) <==> CollectsAll(chat, lo, first, pages - 1)
  {
    var all := Between(chat, lo, hi);
    var page := NewestPage(all);
    var rest := Collected(chat, lo, page[0].id, pages - 1);
    var replayed, plain := ReplayOrder(rest), PlainOnly(Between(chat, lo, page[0].id));
    assert ReplayOrder(Collected(chat, lo, hi, pages)) == replayed + page by {
      CollectedByPage(chat, lo, hi, pages);
      ReplayCons(page, rest);
    }
    assert PlainOnly(all) == plain + page by {
      PlainByPage(chat, lo, hi);
    }
    SameFront(replayed, plain, page);
  }

  /** A page with a notice, or a short one, is the last to be fetched. */
  lemma LastPage(chat: seq<Message>, lo: int, hi: int, pages: nat)
    requires LegalChat(chat) && pages > 0
    requires var page := NewestPage(Between(chat, lo, hi)); !AllPlain(page) || |page| < PAGE_SIZE
    ensures var all := Between(chat, lo, hi);
            CollectsAll(chat, lo, hi, pages) <==> NonePlain(all[..|all| - |NewestPage(all)|])
  {
    var all := Between(chat, lo, hi);
    var page := NewestPage(all);
    var older := all[..|all| - |page|];
    CollectedByPage(chat, lo, hi, pages);
    PlainByPage(chat, lo, hi);
    SameFront([], PlainOnly(older), PlainOnly(page));
    assert [] + PlainOnly(page) == PlainOnly(page);
  }

  /** For every chat: paging collects all the plain messages above the checkpoint
      if and only if the first page with a notice has no plain message behind
      it. */
  lemma {:induction false} CollectsAllIff(chat: seq<Message>, lo: int, hi: int, pages: nat)
    requires LegalChat(chat) && |Between(chat, lo, hi)| < PAGE_SIZE * pages
    ensures CollectsAll(chat, lo, hi, pages) <==> NoticesComeLast(chat, lo, hi, pages)
    decreases pages
  {
    var page := NewestPage(Between(chat, lo, hi));
    if AllPlain(page) && |page| == PAGE_SIZE {
      assert |Between(chat, lo, page[0].id)| < PAGE_SIZE * (pages - 1) by {
        PlainByPage(chat, lo, hi);
      }
      CollectsAllIff(chat, lo, page[0].id, pages - 1);
      FullPage(chat, lo, hi, pages);
    } else {
      LastPage(chat, lo, hi, pages);
      NoticesOnLastPage(chat, lo, hi, pages);
    }
  }

  lemma NoticesOnLastPage(chat: seq<Message>, lo: int, hi: int, pages: nat)
    requires var page := NewestPage(Between(chat, lo, hi)); !AllPlain(page) || |page| < PAGE_SIZE
    ensures var all := Between(chat, lo, hi);
            NoticesComeLast(chat, lo, hi, pages) <==> NonePlain(all[..|all| - |NewestPage(all)|])
  {
    PageSplits(Between(chat, lo, hi));
  }

  lemma SameFront(a: seq<Message>, b: seq<Message>, tail: seq<Message>)
    ensures a + tail == b + tail <==> a == b
  {
    if a + tail == b + tail {
      assert |a + tail| == |b + tail|;
      assert (a + tail)[..|a|] == a && (b + tail)[..|b|] == b;
    }
  }

  /** One hundred and one messages of which the newest is a service notice: the
      first page comes back short, paging ends, and the oldest message is never
      seen although the cursor will pass it. */
  lemma ServiceNoticeHidesOlder()
    ensures var chat := seq(101, i => Message(i + 1, i < 100, true));
            && LegalChat(chat)
            && chat[0].Wanted() && chat[0] !in ReplayOrder(Collected(chat, 0, 0, 1000))
            && ReplayOrder(Collected(chat, 0, 0, 1000)) != []
            && LastId(ReplayOrder(Collected(chat, 0, 0, 1000))) > chat[0].id
  {
    var chat := seq(101, i => Message(i + 1, i < 100, true));
    AllAbove(chat, 0);
    var page, front, notice := chat[1..], chat[1..100], chat[100];
    assert NewestPage(Between(chat, 0, 0)) == page;
    assert page == front + [notice] && !page[99].plain;
    PlainOnlySnoc(front, notice);
    PlainOnlyKeepsPlain(front);
    CollectedByPage(chat, 0, 0, 1000);
    assert ReplayOrder(Collected(chat, 0, 0, 1000)) == front;
  }

  lemma {:induction false} AllAbove(chat: seq<Message>, lo: int)
    requires forall i :: 0 <= i < |chat| ==> chat[i].id > lo
    ensures Between(chat, lo, 0) == chat
  {
    if chat != [] {
      AllAbove(chat[..|chat| - 1], lo);
      assert chat == chat[..|chat| - 1] + [chat[|chat| - 1]];
    }
  }
}
