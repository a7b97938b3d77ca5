/** The text form of the failed-message list kept in a checkpoint row. */
module FailedIds {
  import opened Lists
  import opened Decimal

  // ------------------------------------------------- strings.TrimSpace

  /** The characters with the Unicode White_Space property. */
  predicate IsSpace(c: char) {
    var u := c as int;
    || 9 <= u <= 13 || u == 0x20 || u == 0x85 || u == 0xA0 || u == 0x1680
    || 0x2000 <= u <= 0x200A || u == 0x2028 || u == 0x2029 || u == 0x202F
    || u == 0x205F || u == 0x3000
  }

  /** How many of the first `n` characters, counted from the right, are kept
      when spaces are cut off at the end. */
  function KeptLeft(s: string, n: nat): (end: nat)
    requires n <= |s|
    ensures end <= n
    ensures forall k :: end <= k < n ==> IsSpace(s[k])
    ensures end > 0 ==> !IsSpace(s[end - 1])
  {
    if n > 0 && IsSpace(s[n - 1]) then KeptLeft(s, n - 1) else n
  }

  /** How many characters up to `end` are spaces from `n` on. */
  function Skipped(s: string, n: nat, end: nat): (start: nat)
    requires n <= end <= |s|
    ensures n <= start <= end
    ensures forall k :: n <= k < start ==> IsSpace(s[k])
    ensures start < end ==> !IsSpace(s[start])
    decreases end - n
  {
    if n < end && IsSpace(s[n]) then Skipped(s, n + 1, end) else n
  }

  function TrimSpace(s: string): (t: string)
    ensures s != [] && !IsSpace(s[0]) && !IsSpace(s[|s| - 1]) ==> t == s
  {
    var end := KeptLeft(s, |s|);
    s[Skipped(s, 0, end)..end]
  }

  predicate AllSpaces(s: string) {
    forall i :: 0 <= i < |s| ==> IsSpace(s[i])
  }

  /** Only spaces are cut off, and none is left at either end. */
  lemma TrimSpaceCuts(s: string) returns (a: string, b: string)
    ensures var t := TrimSpace(s);
            && s == a + t + b && AllSpaces(a) && AllSpaces(b)
            && (t != [] ==> !IsSpace(t[0]) && !IsSpace(t[|t| - 1]))
  {
    var end := KeptLeft(s, |s|);
    var start := Skipped(s, 0, end);
    a, b := s[..start], s[end..];
  }

  /** There is only one way to do that. */
  lemma TrimSpaceExactly(a: string, t: string, b: string)
    requires AllSpaces(a) && AllSpaces(b) && (t != [] ==> !IsSpace(t[0]) && !IsSpace(t[|t| - 1]))
    ensures TrimSpace(a + t + b) == t
  {
    var s := a + t + b;
    var end := KeptLeft(s, |s|);
    var start := Skipped(s, 0, end);
    assert forall k :: 0 <= k < |a| ==> IsSpace(s[k]);
    assert forall k :: |a| + |t| <= k < |s| ==> s[k] == b[k - |a| - |t|];
    if t == [] {
      assert end == 0;
    } else {
      assert s[|a|] == t[0] && s[|a| + |t| - 1] == t[|t| - 1];
      assert end == |a| + |t| && start == |a|;
    }
  }

  // ------------------------------------- strings.Split and strings.Join

  /** One more character: the next part begins, or the last one grows. */
  function Grown(parts: seq<string>, c: char, sep: char): (grown: seq<string>)
    requires parts != []
    ensures grown != []
  {
    if c == sep then parts + [[]] else parts[..|parts| - 1] + [parts[|parts| - 1] + [c]]
  }

  function SplitOn(s: string, sep: char): (parts: seq<string>)
    ensures parts != []
  {
    if s == [] then [[]] else Grown(SplitOn(s[..|s| - 1], sep), s[|s| - 1], sep)
  }

  lemma SplitSnoc(s: string, c: char, sep: char)
    ensures SplitOn(s + [c], sep) == Grown(SplitOn(s, sep), c, sep)
  {
    assert (s + [c])[..|s|] == s;
  }

  function Join(parts: seq<string>, sep: char): string {
    if parts == [] then []
    else if |parts| == 1 then parts[0]
    else Join(parts[..|parts| - 1], sep) + [sep] + parts[|parts| - 1]
  }

  lemma {:induction false} SplitOnLast(text: string, part: string, sep: char)
    requires sep !in part
    ensures SplitOn(text + [sep] + part, sep) == SplitOn(text, sep) + [part]
  {
    var s := text + [sep] + part;
    if part == [] {
      assert s[..|s| - 1] == text;
    } else {
      var n := |part| - 1;
      SplitOnLast(text, part[..n], sep);
      assert s[..|s| - 1] == text + [sep] + part[..n];
      assert part[..n] + [part[n]] == part;
    }
  }

  lemma GrownAlone(part: string, c: char, sep: char)
    requires c != sep
    ensures Grown([part], c, sep) == [part + [c]]
  {
  }

  lemma {:induction false} SplitOnNone(part: string, sep: char)
    requires sep !in part
    ensures SplitOn(part, sep) == [part]
  {
    if part != [] {
      var n := |part| - 1;
      assert part == part[..n] + [part[n]];
      SplitOnNone(part[..n], sep);
      SplitSnoc(part[..n], part[n], sep);
      GrownAlone(part[..n], part[n], sep);
    }
  }

  lemma {:induction false} SplitOfJoin(parts: seq<string>, sep: char)
    requires parts != []
    requires forall i :: 0 <= i < |parts| ==> sep !in parts[i]
    ensures SplitOn(Join(parts, sep), sep) == parts
  {
    var n := |parts| - 1;
    if n == 0 {
      SplitOnNone(parts[0], sep);
    } else {
      SplitOfJoin(parts[..n], sep);
      SplitOnLast(Join(parts[..n], sep), parts[n], sep);
      assert parts[..n] + [parts[n]] == parts;
    }
  }

  // --------------------------------------------------------- the codec

  function Printed(ids: seq<int>): (parts: seq<string>)
    ensures |parts| == |ids|
    ensures forall i :: 0 <= i < |ids| ==> parts[i] == Itoa(ids[i])
  {
    seq(|ids|, i requires 0 <= i < |ids| => Itoa(ids[i]))
  }

  function Joined(ids: seq<int>): string {
    Join(Printed(ids), ',')
  }

  function ReadPart(part: string): Option<int> {
    Atoi(TrimSpace(part))
  }

  function ReadText(text: string): seq<int> {
    Collect(ReadPart, SplitOn(text, ','))
  }

  /** The readable parts, in order; the unreadable ones are skipped. */
  function Parsed(raw: string): (ids: seq<int>) {
    var text := TrimSpace(raw);
    if text == [] then [] else ReadText(text)
  }

  method ReadParts(parts: seq<string>) returns (ids: seq<int>)
    ensures ids == Collect(ReadPart, parts)
  {
    ids := [];
    for i := 0 to |parts|
      invariant ids == Collect(ReadPart, parts[..i])
    {
      assert parts[..i + 1][..i] == parts[..i];
      var id := ReadPart(parts[i]);
      if id.None? {
        continue;
      }
      ids := ids + [id.value];
    }
    assert parts[..|parts|] == parts;
  }

  method ParseFailedIDs(raw: string) returns (ids: seq<int>)
    ensures ids == Parsed(raw)
  {
    var text := TrimSpace(raw);
    if text == [] {
      return [];
    }
    ids := ReadParts(SplitOn(text, ','));
  }

  method JoinIntIDs(ids: seq<int>) returns (text: string)
    ensures text == Joined(ids)
  {
    if |ids| == 0 {
      return "";
    }
    var parts: seq<string> := [];
    for i := 0 to |ids|
      invariant |parts| == i
      invariant forall k :: 0 <= k < i ==> parts[k] == Itoa(ids[k])
    {
      parts := parts + [Itoa(ids[i])];
    }
    PrintedParts(parts, ids);
    text := Join(parts, ',');
  }

  lemma PrintedParts(parts: seq<string>, ids: seq<int>)
    requires |parts| == |ids| && forall k :: 0 <= k < |ids| ==> parts[k] == Itoa(ids[k])
    ensures Join(parts, ',') == Joined(ids)
  {
    assert parts == Printed(ids);
  }

  lemma ItoaShape(i: int)
    ensures Itoa(i) != []
    ensures forall k :: 0 <= k < |Itoa(i)| ==> Itoa(i)[k] == '-' || IsDigit(Itoa(i)[k])
  {
  }

  lemma TrimPrinted(i: int)
    ensures TrimSpace(Itoa(i)) == Itoa(i)
  {
    var s := Itoa(i);
    ItoaShape(i);
    assert !IsSpace(s[0]) && !IsSpace(s[|s| - 1]);
  }

  lemma ReadPrinted(ids: seq<int>)
    requires forall i :: 0 <= i < |ids| ==> InRange(ids[i])
    ensures Collect(ReadPart, Printed(ids)) == ids
  {
    var parts := Printed(ids);
    forall i | 0 <= i < |parts| ensures ReadPart(parts[i]) == Some(ids[i]) {
      TrimPrinted(ids[i]);
      AtoiOfItoa(ids[i]);
    }
    CollectAll(ReadPart, parts, ids);
  }

  lemma {:induction false} JoinEnds(parts: seq<string>, sep: char)
    requires parts != [] && forall i :: 0 <= i < |parts| ==> parts[i] != []
    ensures var s := Join(parts, sep);
            && s != [] && s[0] == parts[0][0]
            && s[|s| - 1] == parts[|parts| - 1][|parts[|parts| - 1]| - 1]
  {
    if |parts| > 1 {
      JoinEnds(parts[..|parts| - 1], sep);
    }
  }

  /** What is stored is read back unchanged, for every list of 64-bit
      integers: signs, repetitions and the empty list included. */
  lemma ParseOfJoin(ids: seq<int>)
    requires forall i :: 0 <= i < |ids| ==> InRange(ids[i])
    ensures Parsed(Joined(ids)) == ids
  {
    if ids != [] {
      TrimJoined(ids);
      SplitJoined(ids);
      ReadPrinted(ids);
    }
  }

  lemma TrimJoined(ids: seq<int>)
    requires ids != []
    ensures Joined(ids) != [] && TrimSpace(Joined(ids)) == Joined(ids)
  {
    var parts := Printed(ids);
    JoinEnds(parts, ',');
    ItoaShape(ids[0]);
    ItoaShape(ids[|ids| - 1]);
    var s := Joined(ids);
    assert !IsSpace(s[0]) && !IsSpace(s[|s| - 1]);
  }

  lemma SplitJoined(ids: seq<int>)
    requires ids != []
    ensures SplitOn(Joined(ids), ',') == Printed(ids)
  {
    var parts := Printed(ids);
    forall i | 0 <= i < |parts| ensures ',' !in parts[i] {
      ItoaShape(ids[i]);
    }
    SplitOfJoin(parts, ',');
  }

  /** Commas stand between the printed IDs and nowhere else. */
  lemma JoinedGrows(ids: seq<int>, id: int)
    ensures Joined([]) == "" && Joined([id]) == Itoa(id)
    ensures ids != [] ==> Joined(ids + [id]) == Joined(ids) + "," + Itoa(id)
  {
    assert Printed([]) == [] && Printed([id]) == [Itoa(id)];
    var parts := Printed(ids + [id]);
    assert parts[..|ids|] == Printed(ids);
  }

  /** The first part with one more character in front. */
  function Headed(c: char, parts: seq<string>): seq<string>
    requires parts != []
  {
    [[c] + parts[0]] + parts[1..]
  }

  lemma HeadedGrown(c: char, parts: seq<string>, d: char, sep: char)
    requires parts != []
    ensures Grown(Headed(c, parts), d, sep) == Headed(c, Grown(parts, d, sep))
  {
    if d != sep && |parts| == 1 {
      assert [c] + parts[0] + [d] == [c] + (parts[0] + [d]);
    }
  }

  lemma SplitMore(c: char, s: string, d: char, sep: char)
    requires SplitOn([c] + s, sep) == Headed(c, SplitOn(s, sep))
    ensures SplitOn([c] + (s + [d]), sep) == Headed(c, SplitOn(s + [d], sep))
  {
    Associative([c], s, [d]);
    SplitSnoc([c] + s, d, sep);
    SplitSnoc(s, d, sep);
    HeadedGrown(c, SplitOn(s, sep), d, sep);
  }

  lemma {:induction false} SplitInFront(c: char, s: string, sep: char)
    requires c != sep
    ensures SplitOn([c] + s, sep) == Headed(c, SplitOn(s, sep))
  {
    if s == [] {
      SplitSnoc([], c, sep);
      assert [c] + s == [] + [c];
    } else {
      var front, d := s[..|s| - 1], s[|s| - 1];
      SplitInFront(c, front, sep);
      SplitMore(c, front, d, sep);
      assert s == front + [d];
    }
  }

  lemma AppendIn(c: char, a: string, t: string, b: string)
    ensures [c] + (a + t + b) == ([c] + a) + t + b
    ensures (a + t + b) + [c] == a + t + (b + [c])
  {
  }

  lemma TrimPadded(c: char, s: string)
    requires IsSpace(c)
    ensures TrimSpace([c] + s) == TrimSpace(s) == TrimSpace(s + [c])
  {
    var a, b := TrimSpaceCuts(s);
    TrimPaddedAround(c, a, TrimSpace(s), b);
  }

  lemma TrimPaddedAround(c: char, a: string, t: string, b: string)
    requires IsSpace(c) && AllSpaces(a) && AllSpaces(b) && (t != [] ==> !IsSpace(t[0]) && !IsSpace(t[|t| - 1]))
    ensures TrimSpace([c] + (a + t + b)) == t == TrimSpace((a + t + b) + [c])
  {
    AppendIn(c, a, t, b);
    TrimSpaceExactly([c] + a, t, b);
    TrimSpaceExactly(a, t, b + [c]);
  }

  /** Spaces at either end do not matter to `f`. */
  ghost predicate SkipsSpaces<T(!new)>(f: string -> T) {
    forall c, s :: IsSpace(c) ==> f([c] + s) == f(s) == f(s + [c])
  }

  lemma {:induction false} SkipsAll<T(!new)>(f: string -> T, a: string, s: string, b: string)
    requires SkipsSpaces(f) && AllSpaces(a) && AllSpaces(b)
    ensures f(a + s + b) == f(s)
    decreases |a| + |b|
  {
    if a != [] {
      SkipsAll(f, a[1..], s, b);
      assert a + s + b == [a[0]] + (a[1..] + s + b);
    } else if b != [] {
      var n := |b| - 1;
      SkipsAll(f, a, s, b[..n]);
      assert a + s + b == (a + s + b[..n]) + [b[n]];
    } else {
      assert a + s + b == s;
    }
  }

  /** A space at either end of a text is a space at the end of a part. */
  lemma PaddedParts(f: string -> Option<int>, c: char, parts: seq<string>)
    requires SkipsSpaces(f) && IsSpace(c) && parts != []
    ensures Collect(f, Headed(c, parts)) == Collect(f, parts) == Collect(f, Grown(parts, c, ','))
  {
    var headed, grown := Headed(c, parts), Grown(parts, c, ',');
    forall i | 0 <= i < |parts| ensures f(headed[i]) == f(parts[i]) == f(grown[i]) {
    }
    CollectSame(f, headed, parts);
    CollectSame(f, grown, parts);
  }

  lemma ReadingSkipsSpaces()
    ensures SkipsSpaces(ReadText)
  {
    forall c, s | IsSpace(c) ensures ReadPart([c] + s) == ReadPart(s) == ReadPart(s + [c]) {
      TrimPadded(c, s);
    }
    forall c, s | IsSpace(c) ensures ReadText([c] + s) == ReadText(s) == ReadText(s + [c]) {
      SplitInFront(c, s, ',');
      SplitSnoc(s, c, ',');
      PaddedParts(ReadPart, c, SplitOn(s, ','));
    }
  }

  /** On every list of parts between commas: the numbers among them, spaces
      around them cut off, in order. */
  lemma ParsedParts(parts: seq<string>)
    requires forall i :: 0 <= i < |parts| ==> ',' !in parts[i]
    ensures Parsed(Join(parts, ',')) == Collect(ReadPart, parts)
  {
    var raw := Join(parts, ',');
    var a, b := TrimSpaceCuts(raw);
    ReadingSkipsSpaces();
    SkipsAll(ReadText, a, TrimSpace(raw), b);
    if parts != [] {
      SplitOfJoin(parts, ',');
    }
    if TrimSpace(raw) == [] {
      assert SplitOn([], ',')[..0] == [];
      assert Collect(ReadPart, SplitOn([], ',')) == [];
    }
  }

  /** Only 64-bit integers are ever read. */
  lemma ParsedInRange(raw: string)
    ensures forall i :: 0 <= i < |Parsed(raw)| ==> InRange(Parsed(raw)[i])
  {
    var text := TrimSpace(raw);
    if text != [] {
      CollectedInRange(SplitOn(text, ','));
    }
  }

  lemma {:induction false} CollectedInRange(parts: seq<string>)
    ensures forall i :: 0 <= i < |Collect(ReadPart, parts)| ==> InRange(Collect(ReadPart, parts)[i])
  {
    if parts != [] {
      CollectedInRange(parts[..|parts| - 1]);
    }
  }

  // ------------------------------------ which failed IDs are persisted

  const MAX_PERSISTED: nat := 500

  function Smallest(ids: set<int>): (id: int)
    requires ids != {}
    ensures id in ids && forall x :: x in ids ==> id <= x
  {
    HasSmallest(ids);
    var id :| id in ids && forall x :: x in ids ==> id <= x;
    id
  }

  lemma {:induction false} HasSmallest(ids: set<int>)
    requires ids != {}
    ensures exists id :: id in ids && forall x :: x in ids ==> id <= x
  {
    assert (forall x :: x !in ids) ==> ids == {};
    var some :| some in ids;
    var rest := ids - {some};
    assert forall x :: x in ids ==> x == some || x in rest;
    if rest == {} {
      assert forall x :: x in ids ==> some <= x;
    } else {
      HasSmallest(rest);
      var id :| id in rest && forall x :: x in rest ==> id <= x;
      assert if id <= some then forall x :: x in ids ==> id <= x else forall x :: x in ids ==> some <= x;
    }
  }

  ghost predicate StrictlyAscending(s: seq<int>) {
    forall i, j :: 0 <= i < j < |s| ==> s[i] < s[j]
  }

  /** The elements of a set in ascending order. */
  function Ascending(ids: set<int>): (s: seq<int>)
    ensures StrictlyAscending(s)
    ensures |s| == |ids|
    ensures forall x :: x in s <==> x in ids
    decreases |ids|
  {
    if ids == {} then []
    else
      var low := Smallest(ids);
      OneLess(ids, low);
      var rest := Ascending(set x | x in ids && x != low);
      InFront(ids, low, rest);
      [low] + rest
  }

  lemma InFront(ids: set<int>, low: int, rest: seq<int>)
    requires low in ids && forall x :: x in ids ==> low <= x
    requires StrictlyAscending(rest) && forall x :: x in rest <==> x in ids && x != low
    ensures StrictlyAscending([low] + rest)
    ensures forall x :: x in [low] + rest <==> x in ids
  {
    forall i | 0 <= i < |rest| ensures low < rest[i] {
      assert rest[i] in rest;
    }
  }

  lemma OneLess(ids: set<int>, id: int)
    requires id in ids
    ensures |set x | x in ids && x != id| == |ids| - 1
  {
    assert (set x | x in ids && x != id) == ids - {id};
  }

  /** The tail of the ascending list that fits the cap. */
  function Persisted(failed: set<int>): (ids: seq<int>)
  {
    var all := Ascending(failed);
    if |all| > MAX_PERSISTED then all[|all| - MAX_PERSISTED..] else all
  }

  method LargestIDs(failed: set<int>) returns (ids: seq<int>)
    ensures ids == Persisted(failed)
  {
    ids := Ascending(failed);
    if |ids| > MAX_PERSISTED {
      ids := ids[|ids| - MAX_PERSISTED..];
    }
  }

  /** The text a failed set is persisted as. */
  method FailedText(failed: set<int>) returns (text: string)
    ensures text == Joined(Persisted(failed))
  {
    var ids := LargestIDs(failed);
    text := JoinIntIDs(ids);
  }

  /** The stored list is ascending, holds min(500, n) failed IDs, and every
      failed ID it leaves out is smaller than every one it keeps. */
  lemma PersistedAreTheLargest(failed: set<int>)
    ensures var ids := Persisted(failed);
            && StrictlyAscending(ids)
            && |ids| == (if |failed| <= 500 then |failed| else 500)
            && (forall x :: x in ids ==> x in failed)
            && (forall x, y :: x in failed && x !in ids && y in ids ==> x < y)
  {
    var all := Ascending(failed);
    var cut := |all| - |Persisted(failed)|;
    TailOfAscending(all, cut);
    assert Persisted(failed) == all[cut..];
  }

  lemma TailOfAscending(all: seq<int>, cut: nat)
    requires StrictlyAscending(all) && cut <= |all|
    ensures StrictlyAscending(all[cut..])
    ensures forall x :: x in all[cut..] ==> x in all
    ensures forall x, y :: x in all && x !in all[cut..] && y in all[cut..] ==> x < y
  {
    var tail := all[cut..];
    assert forall k :: cut <= k < |all| ==> all[k] == tail[k - cut];
    forall x, y | x in all && x !in tail && y in tail ensures x < y {
      var i :| 0 <= i < |all| && all[i] == x;
      var j :| 0 <= j < |tail| && tail[j] == y;
      assert all[cut + j] == y;
    }
  }

  /** Nothing is left out exactly when at most 500 IDs failed. */
  lemma PersistsAllIffWithinCap(failed: set<int>)
    ensures (forall x :: x in failed ==> x in Persisted(failed)) <==> |failed| <= 500
  {
    var all := Ascending(failed);
    if |failed| > MAX_PERSISTED {
      var ids := Persisted(failed);
      var cut := |all| - MAX_PERSISTED;
      assert all[0] in failed;
      assert forall j :: 0 <= j < |ids| ==> ids[j] == all[cut + j];
      assert all[0] !in ids;
    }
  }
}
