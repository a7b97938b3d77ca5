/** A chat as a list of messages with rising IDs, and what paging through it
    newest first returns. */
module History {
  import opened Lists
  import Decimal

  /** A message: whether it is a plain one rather than a service notice, and
      whether it carries media of a selected type. */
  datatype Message = Message(id: int, plain: bool, media: bool) {
    /** A service notice has no media to offer. */
    predicate Wanted() {
      plain && media
    }
  }

  predicate Rising(msgs: seq<Message>) {
    forall i, j :: 0 <= i < j < |msgs| ==> msgs[i].id < msgs[j].id
  }

  predicate LegalChat(chat: seq<Message>) {
    Rising(chat) && forall i :: 0 <= i < |chat| ==> 0 < chat[i].id <= Decimal.MAX_INT
  }

  predicate AllPlain(msgs: seq<Message>) {
    forall i :: 0 <= i < |msgs| ==> msgs[i].plain
  }

  function LastId(chat: seq<Message>): int {
    if chat == [] then 0 else chat[|chat| - 1].id
  }

  /** Strictly between the two IDs; an upper bound of zero stands for none. */
  predicate InWindow(m: Message, lo: int, hi: int) {
    lo < m.id && (hi == 0 || m.id < hi)
  }

  function Between(chat: seq<Message>, lo: int, hi: int): (msgs: seq<Message>)
    ensures |msgs| <= |chat|
  {
    if chat == [] then []
    else
      var n := |chat| - 1;
      Between(chat[..n], lo, hi) + if InWindow(chat[n], lo, hi) then [chat[n]] else []
  }

  lemma {:induction false} BetweenHolds(chat: seq<Message>, lo: int, hi: int, m: Message)
    ensures m in Between(chat, lo, hi) <==> m in chat && InWindow(m, lo, hi)
  {
    if chat != [] {
      var n := |chat| - 1;
      BetweenHolds(chat[..n], lo, hi, m);
      assert chat == chat[..n] + [chat[n]];
    }
  }

  lemma {:induction false} BetweenRises(chat: seq<Message>, lo: int, hi: int)
    requires Rising(chat)
    ensures Rising(Between(chat, lo, hi))
  {
    if chat != [] {
      var n := |chat| - 1;
      var front := Between(chat[..n], lo, hi);
      BetweenRises(chat[..n], lo, hi);
      forall i | 0 <= i < |front| ensures front[i].id < chat[n].id {
        BetweenHolds(chat[..n], lo, hi, front[i]);
      }
    }
  }

  /** Messages that arrive later, with larger IDs, do not change a window that
      ends below them. */
  lemma {:induction false} BetweenIgnoresNewer(chat: seq<Message>, more: seq<Message>, lo: int, hi: int)
    requires hi > 0 && forall i :: 0 <= i < |more| ==> more[i].id >= hi
    ensures Between(chat + more, lo, hi) == Between(chat, lo, hi)
  {
    if more == [] {
      assert chat + more == chat;
    } else {
      var n := |more| - 1;
      BetweenIgnoresNewer(chat, more[..n], lo, hi);
      assert (chat + more)[..|chat| + n] == chat + more[..n];
    }
  }

  /** Lowering the upper bound to the ID of a message in the window keeps exactly
      the messages before it. */
  lemma {:induction false} BetweenPrefix(chat: seq<Message>, lo: int, hi: int, k: nat)
    requires LegalChat(chat) && k < |Between(chat, lo, hi)|
    ensures Between(chat, lo, Between(chat, lo, hi)[k].id) == Between(chat, lo, hi)[..k]
  {
    var n := |chat| - 1;
    var front, all := Between(chat[..n], lo, hi), Between(chat, lo, hi);
    var id := all[k].id;
    if k < |front| {
      BetweenPrefix(chat[..n], lo, hi, k);
      BetweenHolds(chat[..n], lo, hi, front[k]);
      assert !InWindow(chat[n], lo, id);
      assert all[..k] == front[..k];
    } else {
      assert all[k] == chat[n];
      SameBelow(chat[..n], lo, hi, id);
      assert all[..k] == front;
    }
  }

  lemma {:induction false} SameBelow(chat: seq<Message>, lo: int, hi: int, id: int)
    requires id > 0 && forall i :: 0 <= i < |chat| ==> chat[i].id < id
    requires hi == 0 || id < hi
    ensures Between(chat, lo, hi) == Between(chat, lo, id)
  {
    if chat != [] {
      SameBelow(chat[..|chat| - 1], lo, hi, id);
    }
  }

  /** Raising the lower bound to the ID of a message in the window keeps exactly
      the messages after it. */
  lemma {:induction false} BetweenSuffix(chat: seq<Message>, lo: int, k: nat)
    requires LegalChat(chat) && k < |Between(chat, lo, 0)|
    ensures Between(chat, Between(chat, lo, 0)[k].id, 0) == Between(chat, lo, 0)[k + 1..]
  {
    var n := |chat| - 1;
    var front, all := Between(chat[..n], lo, 0), Between(chat, lo, 0);
    var id := all[k].id;
    if k < |front| {
      BetweenSuffix(chat[..n], lo, k);
      BetweenHolds(chat[..n], lo, 0, front[k]);
      assert InWindow(chat[n], id, 0) && InWindow(chat[n], lo, 0);
      assert all[k + 1..] == front[k + 1..] + [chat[n]];
    } else {
      assert all[k] == chat[n];
      NoneAbove(chat[..n], id);
      assert all[k + 1..] == [];
    }
  }

  lemma {:induction false} NoneAbove(chat: seq<Message>, id: int)
    requires forall i :: 0 <= i < |chat| ==> chat[i].id <= id
    ensures Between(chat, id, 0) == []
  {
    if chat != [] {
      NoneAbove(chat[..|chat| - 1], id);
    }
  }

  // -------------------------------------------------------------- pages

  const PAGE_SIZE: nat := 100

  /** The newest messages of a list, at most a page of them. */
  function NewestPage(msgs: seq<Message>): (page: seq<Message>) {
    if |msgs| > PAGE_SIZE then msgs[|msgs| - PAGE_SIZE..] else msgs
  }

  function Reverse<T>(s: seq<T>): (r: seq<T>)
    ensures |r| == |s|
  {
    if s == [] then [] else [s[|s| - 1]] + Reverse(s[..|s| - 1])
  }

  /** What the server answers: the page, newest first. */
  function ServerPage(chat: seq<Message>, lo: int, hi: int): seq<Message> {
    Reverse(NewestPage(Between(chat, lo, hi)))
  }

  /** Service notices are dropped from an answer. */
  function PlainOnly(msgs: seq<Message>): (plain: seq<Message>) {
    if msgs == [] then []
    else
      var n := |msgs| - 1;
      PlainOnly(msgs[..n]) + if msgs[n].plain then [msgs[n]] else []
  }

  lemma {:induction false} PlainOnlyKeepsPlain(msgs: seq<Message>)
    requires AllPlain(msgs)
    ensures PlainOnly(msgs) == msgs
  {
    if msgs != [] {
      var n := |msgs| - 1;
      PlainOnlyKeepsPlain(msgs[..n]);
      assert msgs == msgs[..n] + [msgs[n]];
    }
  }

  function Insert(m: Message, sorted: seq<Message>): seq<Message> {
    if sorted == [] || sorted[|sorted| - 1].id <= m.id then sorted + [m]
    else Insert(m, sorted[..|sorted| - 1]) + [sorted[|sorted| - 1]]
  }

  /** Sorting by ID. */
  function SortById(msgs: seq<Message>): seq<Message> {
    if msgs == [] then [] else Insert(msgs[|msgs| - 1], SortById(msgs[..|msgs| - 1]))
  }

  lemma {:induction false} InsertFirst(m: Message, sorted: seq<Message>)
    requires forall i :: 0 <= i < |sorted| ==> m.id < sorted[i].id
    ensures Insert(m, sorted) == [m] + sorted
  {
    if sorted != [] {
      var n := |sorted| - 1;
      InsertFirst(m, sorted[..n]);
      assert sorted == sorted[..n] + [sorted[n]];
    }
  }

  lemma {:induction false} ReverseFirst<T>(s: seq<T>)
    requires s != []
    ensures Reverse(s) == Reverse(s[1..]) + [s[0]]
  {
    if |s| > 1 {
      var n := |s| - 1;
      ReverseFirst(s[..n]);
      assert s[..n][1..] == s[1..][..n - 1];
    }
  }

  lemma {:induction false} SortOfReverse(msgs: seq<Message>)
    requires Rising(msgs)
    ensures SortById(Reverse(msgs)) == msgs
  {
    if msgs != [] {
      var rest := msgs[1..];
      SortOfReverse(rest);
      ReverseFirst(msgs);
      assert (Reverse(rest) + [msgs[0]])[..|rest|] == Reverse(rest);
      InsertFirst(msgs[0], rest);
    }
  }

  /** Pages are collected newest first and replayed from the last one. */
  function ReplayOrder(blocks: seq<seq<Message>>): seq<Message> {
    if blocks == [] then [] else blocks[|blocks| - 1] + ReplayOrder(blocks[..|blocks| - 1])
  }
}
