/** Cutting a byte stream into numbered volume files. The disk is a map from
    file names to contents; each system call asks an oracle whether it fails. */
module SplitWriter {
  import opened Lists
  import opened Decimal

  newtype byte = i: int | 0 <= i < 256

  // ------------------------------------------------------- volume names

  /** `%03d` */
  function Pad3(n: nat): (s: string)
    ensures AllDigits(s)
  {
    var digits := Digits(n);
    if |digits| >= 3 then digits
    else if |digits| == 2 then "0" + digits
    else "0" + ("0" + digits)
  }

  lemma PadKeepsValue(n: nat)
    ensures Value(Pad3(n)) == n
  {
    ValueOfDigits(n);
    LeadingZero(Digits(n));
    LeadingZero("0" + Digits(n));
  }

  function PartName(baseName: string, part: nat): string {
    baseName + ".zip." + Pad3(part + 1)
  }

  function WholeName(baseName: string): string {
    baseName + ".zip"
  }

  /** Two volumes never share a file, and no volume is called like the renamed
      single archive. */
  lemma PartNamesDistinct(baseName: string, i: nat, j: nat)
    ensures PartName(baseName, i) == PartName(baseName, j) ==> i == j
    ensures PartName(baseName, i) != WholeName(baseName)
  {
    SameStem(baseName + ".zip.", Pad3(i + 1), Pad3(j + 1));
    PadKeepsValue(i + 1);
    PadKeepsValue(j + 1);
    assert |PartName(baseName, i)| > |WholeName(baseName)|;
  }

  /** Volumes are numbered from one, with leading zeros up to three digits. */
  lemma PartNameShape(baseName: string, part: nat)
    returns (digits: string)
    ensures PartName(baseName, part) == baseName + ".zip." + digits
    ensures AllDigits(digits) && Value(digits) == part + 1
    ensures |digits| >= 3 && (|digits| > 3 ==> digits[0] != '0')
    ensures PartName(baseName, 0) == baseName + ".zip.001"
  {
    digits := Pad3(part + 1);
    PadKeepsValue(part + 1);
    DigitsAreCanonical(part + 1);
    assert Pad3(1) == "001";
  }

  lemma SameStem(stem: string, a: string, b: string)
    ensures stem + a == stem + b ==> a == b
  {
    assert (stem + a)[|stem|..] == a && (stem + b)[|stem|..] == b;
  }

  // --------------------------------------------------------- the writer

  /** What the disk does at each tick: whether closing or creating a file
      fails, and how many bytes a failing write still accepts (`None` when it
      succeeds). */
  datatype Disk = Disk(
    closeFails: nat -> bool,
    createFails: nat -> bool,
    accepts: nat -> Option<nat>,
    renameFails: nat -> bool)

  /** The cut of the first `received` bytes, with possibly one volume created
      for the next byte and still empty. */
  ghost predicate HoldsCut(parts: seq<seq<byte>>, received: seq<byte>, size: nat) {
    && Flatten(parts) == received
    && WellCut(parts, size)
  }

  /** A cut is the one and only cut, up to that empty volume. */
  lemma CutIsChunks(parts: seq<seq<byte>>, received: seq<byte>, size: nat)
    requires size > 0 && HoldsCut(parts, received, size)
    ensures parts == Chunks(received, size)
         || parts == Chunks(received, size) + [[]]
    ensures parts == [] || parts[|parts| - 1] != [] ==> parts == Chunks(received, size)
  {
    if parts == [] || parts[|parts| - 1] != [] {
      ChunksUnique(parts, size);
    } else {
      var full := parts[..|parts| - 1];
      assert parts == full + [[]];
      FlattenSnoc(full, []);
      assert Flatten(full) + [] == Flatten(full);
      if full != [] {
        assert parts[|full| - 1] == full[|full| - 1];
        assert |full[|full| - 1]| == size;
        assert full == full[..|full| - 1] + [full[|full| - 1]];
        FlattenSnoc(full[..|full| - 1], full[|full| - 1]);
      }
      ChunksUnique(full, size);
    }
  }

  /** Opening a volume after a full one, or before the first, keeps the cut. */
  lemma CutAfterCreate(parts: seq<seq<byte>>, received: seq<byte>, size: nat)
    requires HoldsCut(parts, received, size)
    requires parts != [] ==> |parts[|parts| - 1]| == size
    ensures HoldsCut(parts + [[]], received, size)
  {
    FlattenSnoc(parts, []);
    assert received + [] == received;
  }

  /** Growing the last volume within its size keeps the cut. */
  lemma CutAfterGrow(parts: seq<seq<byte>>, received: seq<byte>, size: nat, data: seq<byte>)
    requires parts != [] && HoldsCut(parts, received, size)
    requires |parts[|parts| - 1]| + |data| <= size
    ensures HoldsCut(parts[..|parts| - 1] + [parts[|parts| - 1] + data], received + data, size)
  {
    var front, last := parts[..|parts| - 1], parts[|parts| - 1];
    assert parts == front + [last];
    FlattenSnoc(front, last);
    FlattenSnoc(front, last + data);
    assert Flatten(front) + last + data == Flatten(front) + (last + data);
  }

  class SplitWriter {
    const baseName: string
    const partSize: nat
    const disk: Disk
    var clock: nat
    var currentPart: nat
    var currentSize: nat
    var hasFile: bool
    var totalParts: nat
    /** The file called `names[i]` holds `volumes[i]`. */
    var names: seq<string>
    var volumes: seq<seq<byte>>
    /** Every byte a volume has accepted, in order. */
    ghost var received: seq<byte>

    ghost predicate Valid()
      reads this
    {
      && partSize > 0
      && |volumes| == |names| == currentPart
      && (hasFile <==> currentPart > 0)
      && (hasFile ==> currentSize == |volumes[currentPart - 1]|)
      && currentSize <= partSize
      && HoldsCut(volumes, received, partSize)
    }

    /** Each volume is in the file its number names. */
    ghost predicate Named()
      reads this
    {
      forall i: nat :: i < |names| ==> names[i] == PartName(baseName, i)
    }

    constructor (baseName: string, partSize: nat, disk: Disk)
      requires partSize > 0
      ensures Valid() && Named() && received == [] && volumes == []
      ensures this.baseName == baseName && this.partSize == partSize && this.disk == disk
    {
      this.baseName, this.partSize, this.disk := baseName, partSize, disk;
      clock, currentPart, currentSize, totalParts := 0, 0, 0, 0;
      hasFile := false;
      names, volumes, received := [], [], [];
    }

    /** Closes the volume being written and creates the next one, empty. */
    method NextPart() returns (ok: bool)
      requires Valid()
      requires hasFile ==> currentSize == partSize
      modifies this
      ensures Valid() && received == old(received)
      ensures ok ==> volumes == old(volumes) + [[]] && currentSize == 0
      ensures ok ==> names == old(names) + [PartName(baseName, old(currentPart))]
      ensures !ok ==> volumes == old(volumes) && names == old(names) && currentSize == old(currentSize)
    {
      clock := clock + 1;
      if hasFile && disk.closeFails(clock) {
        return false;
      }
      var partName := PartName(baseName, currentPart);
      clock := clock + 1;
      if disk.createFails(clock) {
        return false;
      }
      CutAfterCreate(volumes, received, partSize);
      names, volumes := names + [partName], volumes + [[]];
      hasFile := true;
      currentSize := 0;
      currentPart := currentPart + 1;
      return true;
    }

    /** Appends to the open volume; `n` bytes of `data` got there. */
    method WriteFile(data: seq<byte>) returns (n: nat, ok: bool)
      requires Valid() && hasFile
      requires 0 < |data| <= partSize - currentSize
      modifies this
      ensures Valid() && hasFile && names == old(names)
      ensures n <= |data| && (ok ==> n == |data|)
      ensures received == old(received) + data[..n]
      ensures currentSize == old(currentSize) + n
    {
      clock := clock + 1;
      var verdict := disk.accepts(clock);
      ok := verdict.None?;
      n := if ok || verdict.value > |data| then |data| else verdict.value;
      CutAfterGrow(volumes, received, partSize, data[..n]);
      var last := currentPart - 1;
      volumes := volumes[..last] + [volumes[last] + data[..n]];
      currentSize := currentSize + n;
      received := received + data[..n];
    }

    /** There is an open volume that is not full, or opening one failed. */
    method MakeRoom() returns (ok: bool)
      requires Valid() && Named()
      modifies this
      ensures Valid() && Named() && received == old(received)
      ensures ok ==> hasFile && currentSize < partSize
    {
      ok := true;
      if !hasFile || currentSize >= partSize {
        ok := NextPart();
      }
    }

    /** One turn of the write loop: opens a volume when none has room, and
        hands it as much of `rest` as fits. */
    method WriteTurn(rest: seq<byte>) returns (n: nat, ok: bool)
      requires Valid() && Named() && rest != []
      modifies this
      ensures Valid() && Named()
      ensures n <= |rest| && received == old(received) + rest[..n]
      ensures ok ==> n > 0 && hasFile && currentSize > 0
    {
      var room := MakeRoom();
      if !room {
        assert rest[..0] == [];
        return 0, false;
      }
      var toWrite := |rest|;
      if toWrite > partSize - currentSize {
        toWrite := partSize - currentSize;
      }
      n, ok := WriteFile(rest[..toWrite]);
      assert rest[..toWrite][..n] == rest[..n];
    }

    /** The volumes take the bytes of `p` in order. The count returned is the
        number of bytes that reached them, error or not; without an error that
        is all of `p`, and the volumes are the pieces of everything received. */
    method Write(p: seq<byte>) returns (written: nat, ok: bool)
      requires Valid() && Named()
      modifies this
      ensures Valid() && Named()
      ensures written <= |p| && (ok ==> written == |p|)
      ensures received == old(received) + p[..written]
      ensures volumes == Chunks(received, partSize) || volumes == Chunks(received, partSize) + [[]]
      ensures ok && (p != [] || old(volumes == Chunks(received, partSize)))
              ==> volumes == Chunks(received, partSize)
    {
      written, ok := 0, true;
      while ok && written < |p|
        invariant Valid() && Named() && written <= |p|
        invariant received == old(received) + p[..written]
        invariant ok && written > 0 ==> hasFile && currentSize > 0
        invariant ok && written == 0 ==> volumes == old(volumes) && received == old(received)
        decreases ok, |p| - written
      {
        var nw, fine := WriteTurn(p[written..]);
        TakeMore(old(received), p, written, nw);
        written, ok := written + nw, fine;
      }
      CutIsChunks(volumes, received, partSize);
    }

    /** However the stream is divided into calls, the volumes are the pieces of
        the whole byte string. After a failed call they hold a prefix of it. */
    method CopyAll(calls: seq<seq<byte>>) returns (ok: bool)
      requires Valid() && Named() && received == [] && volumes == []
      modifies this
      ensures Valid() && Named()
      ensures received <= Flatten(calls)
      ensures ok ==> received == Flatten(calls) && volumes == Chunks(Flatten(calls), partSize)
    {
      for i := 0 to |calls|
        invariant Valid() && Named() && received == Flatten(calls[..i])
        invariant volumes == Chunks(received, partSize)
      {
        PrefixGrows(calls, i);
        var _, fine := Write(calls[i]);
        if !fine {
          return false;
        }
      }
      assert calls[..|calls|] == calls;
      ok := true;
    }

    /** A single volume is renamed to the plain archive name. */
    method Finalize() returns (ok: bool)
      requires Valid() && Named()
      modifies this
      ensures totalParts == currentPart == old(currentPart)
      ensures volumes == old(volumes) && received == old(received)
      ensures ok && currentPart == 1 ==> names == [baseName + ".zip"] && volumes[0] == received
      ensures !ok || currentPart != 1 ==> Named()
      ensures currentPart != 1 ==> ok
    {
      totalParts := currentPart;
      if totalParts == 1 {
        clock := clock + 1;
        if disk.renameFails(clock) {
          return false;
        }
        assert volumes == [volumes[0]];
        FlattenSnoc([], volumes[0]);
        assert [] + [volumes[0]] == [volumes[0]];
        names := [WholeName(baseName)];
      }
      ok := true;
    }
  }

  lemma TakeMore(start: seq<byte>, p: seq<byte>, done: nat, n: nat)
    requires done + n <= |p|
    ensures start + p[..done] + p[done..][..n] == start + p[..done + n]
  {
    assert p[..done] + p[done..][..n] == p[..done + n];
  }

  lemma PrefixGrows(calls: seq<seq<byte>>, i: nat)
    requires i < |calls|
    ensures Flatten(calls[..i + 1]) == Flatten(calls[..i]) + calls[i]
    ensures forall n: nat :: n <= |calls[i]| ==> Flatten(calls[..i]) + calls[i][..n] <= Flatten(calls)
  {
    var before, here, after := Flatten(calls[..i]), calls[i], Flatten(calls[i + 1..]);
    assert calls[..i + 1] == calls[..i] + [here];
    FlattenSnoc(calls[..i], here);
    assert calls == calls[..i + 1] + calls[i + 1..];
    FlattenConcat(calls[..i + 1], calls[i + 1..]);
  }
}
