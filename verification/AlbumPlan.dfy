/** Grouping the items of a batch into Telegram albums, and sending them. */
module AlbumPlan {
  import opened Lists

  const MAX_ALBUM_ITEMS: nat := 10

  datatype Media = Media(
    index: nat,
    chatID: int,
    sourceGroupKey: string,
    albumEligible: bool,
    useSingleSave: bool)

  predicate InAlbum(m: Media) {
    !m.useSingleSave && m.albumEligible && m.sourceGroupKey != ""
  }

  /** `next` may follow `first` in the same album. */
  predicate Joins(first: Media, next: Media) {
    && !next.useSingleSave && next.albumEligible
    && next.chatID == first.chatID && next.sourceGroupKey == first.sourceGroupKey
  }

  /** What Telegram and the sources allow to be sent as one group: one item of
      any kind, or at most ten eligible items of one source album for one chat. */
  ghost predicate Legal(group: seq<Media>) {
    && group != []
    && (|group| > 1 ==>
          && |group| <= 10
          && (forall i :: 0 <= i < |group| ==>
                && group[i].albumEligible && !group[i].useSingleSave && group[i].sourceGroupKey != ""
                && group[i].sourceGroupKey == group[0].sourceGroupKey && group[i].chatID == group[0].chatID))
  }

  ghost predicate LegalSplit(groups: seq<seq<Media>>, items: seq<Media>) {
    && Flatten(groups) == items
    && (forall i :: 0 <= i < |groups| ==> Legal(groups[i]))
  }

  // ---------------------------------------------------- the greedy plan

  /** How far a group opened by the first item reaches, `end` items in. */
  function Extend(items: seq<Media>, end: nat): (n: nat)
    requires 1 <= end <= |items|
    ensures end <= n <= |items|
    decreases |items| - end
  {
    if end < |items| && end < MAX_ALBUM_ITEMS && Joins(items[0], items[end])
    then Extend(items, end + 1) else end
  }

  function GroupLength(items: seq<Media>): (n: nat)
    requires items != []
    ensures 1 <= n <= |items|
  {
    if InAlbum(items[0]) then Extend(items, 1) else 1
  }

  function Plan(items: seq<Media>): (groups: seq<seq<Media>>)
    decreases |items|
  {
    if items == [] then []
    else
      var n := GroupLength(items);
      [items[..n]] + Plan(items[n..])
  }

  lemma {:induction false} ExtendIsMaximal(items: seq<Media>, end: nat)
    requires 1 <= end <= |items| && end <= MAX_ALBUM_ITEMS
    requires forall i :: 0 < i < end ==> Joins(items[0], items[i])
    ensures var n := Extend(items, end);
            && n <= MAX_ALBUM_ITEMS
            && (forall i :: 0 < i < n ==> Joins(items[0], items[i]))
            && (n < |items| && n < MAX_ALBUM_ITEMS ==> !Joins(items[0], items[n]))
    decreases |items| - end
  {
    if end < |items| && end < MAX_ALBUM_ITEMS && Joins(items[0], items[end]) {
      ExtendIsMaximal(items, end + 1);
    }
  }

  /** The greedy first group is legal and no legal group starting there is
      longer. */
  lemma GroupIsLongest(items: seq<Media>)
    requires items != []
    ensures Legal(items[..GroupLength(items)])
    ensures forall n: nat :: n <= |items| && Legal(items[..n]) ==> n <= GroupLength(items)
  {
    var len := GroupLength(items);
    if InAlbum(items[0]) {
      ExtendIsMaximal(items, 1);
      var group := items[..len];
      forall i | 0 <= i < len ensures InAlbum(group[i]) && Joins(group[0], group[i]) {
      }
    }
    forall n: nat | n <= |items| && Legal(items[..n]) ensures n <= len {
      var group := items[..n];
      if n > 1 {
        assert InAlbum(group[0]);
        assert forall i :: 0 <= i < n ==> group[i] == items[i];
      }
    }
  }

  lemma {:induction false} PlanIsLegal(items: seq<Media>)
    ensures LegalSplit(Plan(items), items)
    decreases |items|
  {
    if items != [] {
      var n := GroupLength(items);
      assert Legal(items[..n]) by {
        GroupIsLongest(items);
      }
      PlanIsLegal(items[n..]);
      LegalCons(items[..n], Plan(items[n..]), items[n..]);
      assert items == items[..n] + items[n..];
    }
  }

  lemma LegalCons(first: seq<Media>, rest: seq<seq<Media>>, tail: seq<Media>)
    requires Legal(first) && LegalSplit(rest, tail)
    ensures LegalSplit([first] + rest, first + tail)
  {
    assert ([first] + rest)[1..] == rest;
  }

  /** A non-empty suffix of a legal group is legal. */
  lemma LegalSuffix(group: seq<Media>, n: nat)
    requires Legal(group) && n < |group|
    ensures Legal(group[n..])
  {
  }

  /** Dropping items from the front never needs more groups. */
  lemma {:induction false} DropFront(groups: seq<seq<Media>>, items: seq<Media>, n: nat)
    returns (trimmed: seq<seq<Media>>)
    requires LegalSplit(groups, items) && n <= |items|
    ensures LegalSplit(trimmed, items[n..]) && |trimmed| <= |groups|
    decreases |groups|
  {
    if groups == [] {
      trimmed := [];
    } else {
      var first, rest := groups[0], groups[1..];
      var others := Flatten(rest);
      assert items == first + others;
      if n < |first| {
        LegalSuffix(first, n);
        LegalCons(first[n..], rest, others);
        trimmed := [first[n..]] + rest;
        assert items[n..] == first[n..] + others;
      } else {
        trimmed := DropFront(rest, others, n - |first|);
        assert items[n..] == others[n - |first|..];
      }
    }
  }

  /** No order-preserving split into legal groups uses fewer groups. */
  lemma {:induction false} PlanIsOptimal(items: seq<Media>, other: seq<seq<Media>>)
    requires LegalSplit(other, items)
    ensures |Plan(items)| <= |other|
    decreases |items|
  {
    if items != [] {
      assert other != [];
      var n := GroupLength(items);
      var first, rest := other[0], other[1..];
      assert items == first + Flatten(rest);
      assert items[..|first|] == first;
      GroupIsLongest(items);
      var trimmed := DropFront(rest, Flatten(rest), n - |first|);
      assert Flatten(rest)[n - |first|..] == items[n..];
      PlanIsOptimal(items[n..], trimmed);
    }
  }

  lemma PlanStep(groups: seq<seq<Media>>, items: seq<Media>, i: nat, end: nat)
    requires i < end <= |items| && end - i == GroupLength(items[i..])
    ensures groups + Plan(items[i..]) == groups + [items[i..end]] + Plan(items[end..])
  {
    var tail := items[i..];
    assert tail[..end - i] == items[i..end] && tail[end - i..] == items[end..];
  }

  method EndOfAlbum(items: seq<Media>, i: nat) returns (end: nat)
    requires i < |items|
    requires !items[i].useSingleSave && items[i].albumEligible && items[i].sourceGroupKey != ""
    ensures i < end <= |items| && end - i == GroupLength(items[i..])
  {
    end := i + 1;
    while end < |items| && end - i < MAX_ALBUM_ITEMS && Joins(items[i], items[end])
      invariant i < end <= |items|
      invariant Extend(items[i..], end - i) == GroupLength(items[i..])
    {
      end := end + 1;
    }
  }

  method PlanMediaGroups(items: seq<Media>) returns (groups: seq<seq<Media>>)
    ensures groups == Plan(items)
  {
    groups := [];
    var i := 0;
    assert items[0..] == items;
    while i < |items|
      invariant i <= |items|
      invariant groups + Plan(items[i..]) == Plan(items)
    {
      var item := items[i];
      if item.useSingleSave || !item.albumEligible || item.sourceGroupKey == "" {
        PlanStep(groups, items, i, i + 1);
        groups := groups + [items[i..i + 1]];
        i := i + 1;
        continue;
      }
      var end := EndOfAlbum(items, i);
      PlanStep(groups, items, i, end);
      groups := groups + [items[i..end]];
      i := end;
    }
    assert items[|items|..] == [];
  }

  // ------------------------------------------------- saving the batch

  /** The batch with each item tagged by its position, up to the first item
      that cannot be inspected. */
  function Inspected(items: seq<Media>): (tagged: seq<Media>)
    ensures |tagged| == |items|
    ensures forall k :: 0 <= k < |items| ==> tagged[k] == items[k].(index := k)
  {
    seq(|items|, k requires 0 <= k < |items| => items[k].(index := k))
  }

  /** Groups are sent in plan order until one fails. Whatever was sent is a
      prefix of the batch, each item under its own position, so a progress
      report for an item names that item. */
  method SaveBatch(items: seq<Media>, inspectFails: nat -> bool, saveFails: nat -> bool)
    returns (sent: seq<seq<Media>>, ok: bool)
    ensures sent <= Plan(Inspected(items))
    ensures Flatten(sent) <= Inspected(items)
    ensures forall k :: 0 <= k < |Flatten(sent)| ==> Flatten(sent)[k] == items[k].(index := k)
    ensures ok ==> Flatten(sent) == Inspected(items)
    ensures ok <==>
            && (forall k: nat :: k < |items| ==> !inspectFails(k))
            && (forall k: nat :: k < |Plan(Inspected(items))| ==> !saveFails(k))
  {
    sent := [];
    var inspected: seq<Media> := [];
    for index := 0 to |items|
      invariant inspected == Inspected(items)[..index]
      invariant forall k: nat :: k < index ==> !inspectFails(k)
    {
      if inspectFails(index) {
        return sent, false;
      }
      inspected := inspected + [items[index].(index := index)];
    }
    assert inspected == Inspected(items);
    var groups := PlanMediaGroups(inspected);
    PlanIsLegal(inspected);
    for g := 0 to |groups|
      invariant sent == groups[..g]
      invariant forall k: nat :: k < g ==> !saveFails(k)
    {
      PrefixFlattens(groups, g);
      if saveFails(g) {
        return sent, false;
      }
      sent := sent + [groups[g]];
    }
    PrefixFlattens(groups, |groups|);
    assert groups[..|groups|] == groups;
    ok := true;
  }

  lemma PrefixFlattens<T>(groups: seq<seq<T>>, g: nat)
    requires g <= |groups|
    ensures Flatten(groups[..g]) <= Flatten(groups)
  {
    assert groups == groups[..g] + groups[g..];
    FlattenConcat(groups[..g], groups[g..]);
  }

  // ------------------------------------------------ sending the volumes

  datatype SendEnd = Sent | SendFailed | Panicked

  /** The volumes of a split archive go out in order, ten to an album, until
      an album fails. The first volume is taken without looking whether there is
      any, which panics when none was found. */
  method SendVolumes<T>(volumes: seq<T>, sendFails: nat -> bool)
    returns (albums: seq<seq<T>>, end: SendEnd)
    ensures albums <= Chunks(volumes, 10)
    ensures end.Panicked? <==> volumes == []
    ensures end.Sent? ==> albums == Chunks(volumes, 10)
    ensures end.Sent? <==> volumes != [] && forall k: nat :: k < |Chunks(volumes, 10)| ==> !sendFails(k)
  {
    if |volumes| <= MAX_ALBUM_ITEMS {
      if |volumes| == 0 {
        return [], Panicked;
      }
      ChunksStep(volumes, MAX_ALBUM_ITEMS, |volumes|);
      assert volumes[..|volumes|] == volumes && volumes[|volumes|..] == [];
      if sendFails(0) {
        return [], SendFailed;
      }
      return [volumes], Sent;
    }
    albums := [];
    var i := 0;
    assert volumes[0..] == volumes;
    ghost var all := Chunks(volumes, MAX_ALBUM_ITEMS);
    while i < |volumes|
      invariant i <= |volumes|
      invariant albums + Chunks(volumes[i..], MAX_ALBUM_ITEMS) == all
      invariant forall k: nat :: k < |albums| ==> !sendFails(k)
    {
      var next := if i + MAX_ALBUM_ITEMS < |volumes| then i + MAX_ALBUM_ITEMS else |volumes|;
      ChunksStep(volumes[i..], MAX_ALBUM_ITEMS, next - i);
      assert volumes[i..][..next - i] == volumes[i..next] && volumes[i..][next - i..] == volumes[next..];
      assert all == albums + [volumes[i..next]] + Chunks(volumes[next..], MAX_ALBUM_ITEMS);
      if sendFails(|albums|) {
        return albums, SendFailed;
      }
      albums := albums + [volumes[i..next]];
      i := next;
    }
    end := Sent;
  }

  // --------------------------------------------------- the volume size

  const MAX_UPLOAD: int := 4000 * 524288
  const PREMIUM_MAX_UPLOAD: int := 8000 * 524288

  /** Reduction of an integer to the signed 64-bit range. */
  function Wrap64(i: int): (w: int)
    ensures -0x8000_0000_0000_0000 <= w < 0x8000_0000_0000_0000
    ensures (w - i) % 0x1_0000_0000_0000_0000 == 0
  {
    (i + 0x8000_0000_0000_0000) % 0x1_0000_0000_0000_0000 - 0x8000_0000_0000_0000
  }

  function MaxUploadSize(premiumUser: bool): int {
    if premiumUser then PREMIUM_MAX_UPLOAD else MAX_UPLOAD
  }

  /** The volume size is positive and never above the account's limit, whatever
      is configured. A positive size that fits is used as it is; any other size
      that 64 bits can hold becomes the limit, and where the conversion to bytes
      overflows the size is whatever is left of it, or the limit. */
  function SplitSize(splitSizeMB: int, premiumUser: bool): (size: int)
    ensures var limit, bytes := if premiumUser then 4194304000 else 2097152000, splitSizeMB * 1048576;
            && 0 < size <= limit
            && (0 < bytes <= limit ==> size == bytes)
            && (-0x8000_0000_0000_0000 <= bytes <= 0 || limit < bytes < 0x8000_0000_0000_0000 ==> size == limit)
            && (size < limit ==> (size - bytes) % 0x1_0000_0000_0000_0000 == 0)
  {
    var splitSize := Wrap64(splitSizeMB * 1024 * 1024);
    var maxUploadSize := MaxUploadSize(premiumUser);
    if splitSize <= 0 then maxUploadSize
    else if splitSize < maxUploadSize then splitSize else maxUploadSize
  }
}
