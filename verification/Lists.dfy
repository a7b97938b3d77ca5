/** Sequence vocabulary shared by the other modules: flattening a list of
    groups, selecting the elements that pass a test, and cutting a list into
    pieces of a fixed size. */
module Lists {
  datatype Option<+T> = None | Some(value: T)

  lemma Associative<T>(a: seq<T>, b: seq<T>, c: seq<T>)
    ensures (a + b) + c == a + (b + c)
  {
  }

  function Flatten<T>(groups: seq<seq<T>>): (flat: seq<T>)
  {
    if groups == [] then [] else groups[0] + Flatten(groups[1..])
  }

  lemma {:induction false} FlattenConcat<T>(a: seq<seq<T>>, b: seq<seq<T>>)
    ensures Flatten(a + b) == Flatten(a) + Flatten(b)
  {
    if a == [] {
      assert a + b == b;
    } else {
      calc {
        Flatten(a + b);
        { assert (a + b)[1..] == a[1..] + b; }
        a[0] + Flatten(a[1..] + b);
        { FlattenConcat(a[1..], b); }
        a[0] + (Flatten(a[1..]) + Flatten(b));
        Flatten(a) + Flatten(b);
      }
    }
  }

  lemma FlattenSnoc<T>(a: seq<seq<T>>, last: seq<T>)
    ensures Flatten(a + [last]) == Flatten(a) + last
  {
    FlattenConcat(a, [last]);
    assert Flatten([last]) == last + Flatten([]);
  }

  function Filter<T>(keep: T -> bool, s: seq<T>): (kept: seq<T>)
  {
    if s == [] then [] else (if keep(s[0]) then [s[0]] else []) + Filter(keep, s[1..])
  }

  lemma {:induction false} FilterConcat<T>(keep: T -> bool, a: seq<T>, b: seq<T>)
    ensures Filter(keep, a + b) == Filter(keep, a) + Filter(keep, b)
  {
    if a == [] {
      assert a + b == b;
    } else {
      var head := if keep(a[0]) then [a[0]] else [];
      calc {
        Filter(keep, a + b);
        { assert (a + b)[0] == a[0] && (a + b)[1..] == a[1..] + b; }
        head + Filter(keep, a[1..] + b);
        { FilterConcat(keep, a[1..], b); }
        head + (Filter(keep, a[1..]) + Filter(keep, b));
        (head + Filter(keep, a[1..])) + Filter(keep, b);
        Filter(keep, a) + Filter(keep, b);
      }
    }
  }

  /** The successful results of `f`, in order. */
  function Collect<A, B>(f: A -> Option<B>, s: seq<A>): (out: seq<B>)
  {
    if s == [] then []
    else
      var last := f(s[|s| - 1]);
      Collect(f, s[..|s| - 1]) + if last.Some? then [last.value] else []
  }

  lemma {:induction false} CollectAll<A, B>(f: A -> Option<B>, s: seq<A>, out: seq<B>)
    requires |s| == |out| && forall i :: 0 <= i < |s| ==> f(s[i]) == Some(out[i])
    ensures Collect(f, s) == out
  {
    if s != [] {
      var n := |s| - 1;
      CollectAll(f, s[..n], out[..n]);
      assert out == out[..n] + [out[n]];
    }
  }

  lemma {:induction false} CollectConcat<A, B>(f: A -> Option<B>, s: seq<A>, t: seq<A>)
    ensures Collect(f, s + t) == Collect(f, s) + Collect(f, t)
  {
    if t == [] {
      assert s + t == s;
    } else {
      var n := |t| - 1;
      CollectConcat(f, s, t[..n]);
      assert (s + t)[..|s| + n] == s + t[..n];
    }
  }

  lemma CollectAround<A, B>(f: A -> Option<B>, before: seq<A>, a: A, after: seq<A>)
    ensures Collect(f, before + [a] + after)
         == Collect(f, before) + (if f(a).Some? then [f(a).value] else []) + Collect(f, after)
  {
    CollectConcat(f, before + [a], after);
    assert (before + [a])[..|before|] == before;
  }

  /** Elements with the same result can be exchanged. */
  lemma {:induction false} CollectSame<A, B>(f: A -> Option<B>, s: seq<A>, t: seq<A>)
    requires |s| == |t| && forall i :: 0 <= i < |s| ==> f(s[i]) == f(t[i])
    ensures Collect(f, s) == Collect(f, t)
  {
    if s != [] {
      CollectSame(f, s[..|s| - 1], t[..|t| - 1]);
    }
  }

  /** The pieces of `s`, each of `size` elements except possibly the last. */
  function Chunks<T>(s: seq<T>, size: nat): (pieces: seq<seq<T>>)
    requires size > 0
    decreases |s|
  {
    if |s| == 0 then []
    else if |s| <= size then [s]
    else [s[..size]] + Chunks(s[size..], size)
  }

  lemma ChunksStep<T>(s: seq<T>, size: nat, n: nat)
    requires size > 0 && s != []
    requires n == if |s| < size then |s| else size
    ensures Chunks(s, size) == [s[..n]] + Chunks(s[n..], size)
  {
    if |s| <= size {
      assert s[..n] == s && s[n..] == [];
      assert Chunks(s[n..], size) == [];
    }
  }

  /** Every piece but the last is full; the last one may hold less. */
  ghost predicate WellCut<T>(pieces: seq<seq<T>>, size: nat)
  {
    && (forall i :: 0 <= i < |pieces| - 1 ==> |pieces[i]| == size)
    && (pieces != [] ==> |pieces[|pieces| - 1]| <= size)
  }

  /** Cutting loses nothing, reorders nothing, fills every piece but the last
      and produces no empty piece. */
  lemma {:induction false} ChunksWellCut<T>(s: seq<T>, size: nat)
    requires size > 0
    ensures Flatten(Chunks(s, size)) == s
    ensures WellCut(Chunks(s, size), size)
    ensures forall piece :: piece in Chunks(s, size) ==> piece != []
    decreases |s|
  {
    if |s| == 0 {
    } else if |s| <= size {
      FlattenSnoc([], s);
      assert [] + [s] == [s];
    } else {
      var piece, rest := s[..size], s[size..];
      assert s == piece + rest && |piece| == size;
      ChunksWellCut(rest, size);
      ConsWellCut(piece, Chunks(rest, size), size);
    }
  }

  lemma ConsWellCut<T>(piece: seq<T>, rest: seq<seq<T>>, size: nat)
    requires |piece| == size > 0 && WellCut(rest, size) && forall p :: p in rest ==> p != []
    ensures var all := [piece] + rest;
            && Flatten(all) == piece + Flatten(rest) && WellCut(all, size) && forall p :: p in all ==> p != []
  {
    var all := [piece] + rest;
    assert all[1..] == rest;
    assert forall i :: 0 <= i < |rest| ==> all[i + 1] == rest[i];
  }

  /** The cut is unique: any well-cut list of non-empty pieces that flattens to
      `s` is `Chunks(s, size)`. */
  lemma {:induction false} ChunksUnique<T>(pieces: seq<seq<T>>, size: nat)
    requires size > 0
    requires WellCut(pieces, size)
    requires pieces != [] ==> pieces[|pieces| - 1] != []
    ensures pieces == Chunks(Flatten(pieces), size)
    decreases |pieces|
  {
    var s := Flatten(pieces);
    if pieces == [] {
    } else if |pieces| == 1 {
      assert Flatten(pieces[1..]) == [];
      assert s == pieces[0] + [] == pieces[0];
      assert pieces == [pieces[0]];
    } else {
      var rest := pieces[1..];
      assert rest[|rest| - 1] == pieces[|pieces| - 1];
      ChunksUnique(rest, size);
      NonEmptyFlatten(rest);
      assert s[..size] == pieces[0] && s[size..] == Flatten(rest);
    }
  }

  lemma {:induction false} NonEmptyFlatten<T>(pieces: seq<seq<T>>)
    requires pieces != [] && pieces[|pieces| - 1] != []
    ensures Flatten(pieces) != []
  {
    assert pieces == pieces[..|pieces| - 1] + [pieces[|pieces| - 1]];
    FlattenSnoc(pieces[..|pieces| - 1], pieces[|pieces| - 1]);
  }
}
