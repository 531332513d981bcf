/**
 A buffer of directory entries as section 2.4 of [MS-FSCC] lays them out in FileIdBothDirectoryInformation:
 each entry starts with the distance to the next one, says how long its name is at byte 60, and holds the
 name in UTF-16 from byte 104 on.
*/
module DirectoryBuffer {
  newtype byte = x: int | 0 <= x < 0x100
  newtype uint32 = x: int | 0 <= x < 0x1_0000_0000
  newtype int32 = x: int | -0x8000_0000 <= x < 0x8000_0000

  type Unit = x: int | 0 <= x < 0x1_0000
  type Name = seq<Unit>

  const BufferSize: nat := 65536
  const HeaderSize: nat := 104
  const LengthField: nat := 60
  const MostEntries: nat := 4

  function UInt16At(data: seq<byte>, i: nat): Unit
    requires i + 2 <= |data|
  {
    data[i] as int + 0x100 * data[i + 1] as int
  }

  function UInt32At(data: seq<byte>, i: nat): (n: nat)
    requires i + 4 <= |data|
    ensures n < 0x1_0000_0000
  {
    data[i] as int + 0x100 * data[i + 1] as int + 0x1_0000 * data[i + 2] as int + 0x100_0000 * data[i + 3] as int
  }

  const Replacement: Unit := 0xFFFD

  predicate High(u: Unit) { 0xD800 <= u < 0xDC00 }
  predicate Low(u: Unit) { 0xDC00 <= u < 0xE000 }

  // Decoding replaces each surrogate that is not part of a pair.
  function Repair(units: seq<Unit>): (name: Name)
    ensures |name| == |units|
    decreases |units|
  {
    if units == [] then []
    else if High(units[0]) && |units| > 1 && Low(units[1]) then units[..2] + Repair(units[2..])
    else [if High(units[0]) || Low(units[0]) then Replacement else units[0]] + Repair(units[1..])
  }

  predicate PairedAt(units: seq<Unit>, i: nat)
    requires i < |units|
  {
    (High(units[i]) ==> i + 1 < |units| && Low(units[i + 1])) && (Low(units[i]) ==> i > 0 && High(units[i - 1]))
  }

  predicate WellFormed(units: seq<Unit>) {
    forall i | 0 <= i < |units| :: PairedAt(units, i)
  }

  // Decoding changes a name exactly when it holds half a surrogate pair.
  lemma {:induction false} RepairKeepsWellFormedNames(units: seq<Unit>)
    ensures Repair(units) == units <==> WellFormed(units)
    decreases |units|
  {
    if units != [] {
      assert PairedAt(units, 0) || !WellFormed(units);
      if High(units[0]) && |units| > 1 && Low(units[1]) {
        var rest := units[2..];
        assert units == units[..2] + rest;
        RepairKeepsWellFormedNames(rest);
        assert PairedAt(units, 1);
        assert forall i | 0 <= i < |rest| :: PairedAt(rest, i) <==> PairedAt(units, i + 2);
        assert forall i | 2 <= i < |units| :: PairedAt(units, i) <==> PairedAt(rest, i - 2);
        assert Repair(units) == units <==> Repair(rest) == rest by {
          assert Repair(units)[2..] == Repair(rest);
        }
      } else if !High(units[0]) && !Low(units[0]) {
        var rest := units[1..];
        assert units == [units[0]] + rest;
        RepairKeepsWellFormedNames(rest);
        assert forall i | 0 <= i < |rest| :: PairedAt(rest, i) <==> PairedAt(units, i + 1);
        assert forall i | 1 <= i < |units| :: PairedAt(units, i) <==> PairedAt(rest, i - 1);
        assert Repair(units) == units <==> Repair(rest) == rest by {
          assert Repair(units)[1..] == Repair(rest);
        }
      } else {
        assert Repair(units)[0] == Replacement;
      }
    }
  }

  function UnitsAt(data: seq<byte>, start: nat, count: nat): (units: seq<Unit>)
    requires start + 2 * count <= |data|
    ensures |units| == count
    ensures forall i | 0 <= i < count :: units[i] == UInt16At(data, start + 2 * i)
  {
    seq(count, i requires 0 <= i < count => UInt16At(data, start + 2 * i))
  }

  function Bytes(units: seq<Unit>): (data: seq<byte>)
    ensures |data| == 2 * |units|
    ensures forall i | 0 <= i < |units| ::
      data[2 * i] as int == units[i] % 0x100 && data[2 * i + 1] as int == units[i] / 0x100
  {
    if units == [] then []
    else Bytes(units[..|units| - 1])
         + [(units[|units| - 1] % 0x100) as byte, (units[|units| - 1] / 0x100) as byte]
  }

  lemma BytesDecode(data: seq<byte>, start: nat, units: seq<Unit>)
    requires start + 2 * |units| <= |data| && data[start..start + 2 * |units|] == Bytes(units)
    ensures UnitsAt(data, start, |units|) == units
  {
    forall i | 0 <= i < |units| ensures UInt16At(data, start + 2 * i) == units[i] {
      assert data[start + 2 * i] == Bytes(units)[2 * i] && data[start + 2 * i + 1] == Bytes(units)[2 * i + 1];
    }
  }

  // The entry at `at` lies inside the buffer.
  predicate Fits(data: seq<byte>, at: nat) {
    && at + HeaderSize <= |data|
    && var length := UInt32At(data, at + LengthField);
       length > 0 && length % 2 == 0 && at + HeaderSize + length <= |data|
  }

  function Next(data: seq<byte>, at: nat): nat
    requires Fits(data, at)
  {
    UInt32At(data, at)
  }

  function EndOf(data: seq<byte>, at: nat): nat
    requires Fits(data, at)
  {
    at + HeaderSize + UInt32At(data, at + LengthField)
  }

  function NameAt(data: seq<byte>, at: nat): Name
    requires Fits(data, at)
  {
    Repair(UnitsAt(data, at + HeaderSize, UInt32At(data, at + LengthField) / 2))
  }

  // Entries one behind the other, from `start` on: each inside the buffer, each naming the next, none
  // overlapping.
  ghost predicate Linked(data: seq<byte>, start: nat, offsets: seq<nat>) {
    && offsets != [] && offsets[0] == start
    && (forall i | 0 <= i < |offsets| :: Fits(data, offsets[i]))
    && (forall i | 0 <= i < |offsets| - 1 ::
          EndOf(data, offsets[i]) <= offsets[i + 1] == offsets[i] + Next(data, offsets[i]))
  }

  // The same, with the last entry saying that it is the last.
  ghost predicate Chain(data: seq<byte>, start: nat, offsets: seq<nat>) {
    Linked(data, start, offsets) && Next(data, offsets[|offsets| - 1]) == 0
  }

  const Dot: Name := [0x2E]
  const DotDot: Name := [0x2E, 0x2E]

  predicate Shown(name: Name) {
    name != Dot && name != DotDot
  }

  // The names on the chain, without the directory itself and its parent.
  function Names(data: seq<byte>, offsets: seq<nat>): seq<Name>
    requires forall i | 0 <= i < |offsets| :: Fits(data, offsets[i])
  {
    if offsets == [] then []
    else (if Shown(NameAt(data, offsets[0])) then [NameAt(data, offsets[0])] else []) + Names(data, offsets[1..])
  }

  datatype Outcome =
    | Names_(names: seq<Name>)
    | MalformedEntry
    | MalformedName
    | MalformedOffset
    | UnexpectedContent
    | SystemError(code: nat)

  // One pass over a buffer, starting from the names already found.
  function Walk(data: seq<byte>, offset: nat, found: seq<Name>): (r: Outcome)
    requires |found| <= MostEntries
    ensures r.Names_? ==> |r.names| <= MostEntries
    decreases |data| - offset
  {
    if offset + HeaderSize > |data| then MalformedEntry
    else
      var length := UInt32At(data, offset + LengthField);
      if length == 0 || length % 2 != 0 || offset + HeaderSize + length > |data| then MalformedName
      else
        var name := NameAt(data, offset);
        var entries := if Shown(name) then found + [name] else found;
        var next := UInt32At(data, offset);
        if |entries| > MostEntries then UnexpectedContent
        else if next == 0 then Names_(entries)
        else if next < HeaderSize + length || offset + HeaderSize + next > |data| then MalformedOffset
        else Walk(data, offset + next, entries)
  }

  // A chain from a later entry on.
  lemma TailIsLinked(data: seq<byte>, start: nat, offsets: seq<nat>)
    requires Linked(data, start, offsets) && |offsets| > 1
    ensures Linked(data, start + Next(data, start), offsets[1..])
    ensures start + Next(data, start) + HeaderSize <= |data| && Next(data, start) >= EndOf(data, start) - start > 0
  {
    var rest := offsets[1..];
    assert forall i | 0 <= i < |rest| :: rest[i] == offsets[i + 1];
    assert EndOf(data, offsets[0]) <= offsets[1];
  }

  lemma HeadIsLinked(data: seq<byte>, start: nat, offsets: seq<nat>)
    requires Fits(data, start) && EndOf(data, start) <= start + Next(data, start)
    requires Linked(data, start + Next(data, start), offsets)
    ensures Linked(data, start, [start] + offsets)
    ensures Chain(data, start + Next(data, start), offsets) ==> Chain(data, start, [start] + offsets)
  {
  }

  // The names found so far, with the one at `start`.
  function Found(data: seq<byte>, start: nat, found: seq<Name>): seq<Name>
    requires Fits(data, start)
  {
    if Shown(NameAt(data, start)) then found + [NameAt(data, start)] else found
  }

  lemma NamesFrom(data: seq<byte>, start: nat, offsets: seq<nat>, found: seq<Name>)
    requires Linked(data, start, offsets)
    ensures found + Names(data, offsets) ==
      if |offsets| == 1 then Found(data, start, found) else Found(data, start, found) + Names(data, offsets[1..])
  {
    hide NameAt, Shown, Fits, Next, EndOf;
    var head := if Shown(NameAt(data, start)) then [NameAt(data, start)] else [];
    var rest := Names(data, offsets[1..]);
    assert Names(data, offsets) == head + rest;
    assert Found(data, start, found) == found + head;
    assert found + (head + rest) == (found + head) + rest;
    if |offsets| == 1 {
      assert rest == [];
    }
  }

  lemma ChainFits(data: seq<byte>, start: nat, offsets: seq<nat>)
    requires Chain(data, start, offsets)
    ensures forall i | 0 <= i < |offsets| :: Fits(data, offsets[i])
  {
  }

  lemma AtLeastOne(data: seq<byte>, start: nat, offsets: seq<nat>)
    requires Linked(data, start, offsets)
    ensures |offsets| > 0 && offsets[0] == start && Fits(data, start)
  {
  }

  lemma OneEntry(data: seq<byte>, start: nat)
    requires Fits(data, start)
    ensures Linked(data, start, [start])
  {
  }

  // Main result: the walk succeeds exactly when the buffer holds a chain with few enough names, and then it
  // has found exactly the names on it.
  lemma {:induction false} WalkFindsTheChain(data: seq<byte>, start: nat, found: seq<Name>, offsets: seq<nat>)
    requires |found| <= MostEntries && Chain(data, start, offsets)
    ensures |found + Names(data, offsets)| <= MostEntries ==>
      Walk(data, start, found) == Names_(found + Names(data, offsets))
    ensures |found + Names(data, offsets)| > MostEntries ==> Walk(data, start, found) == UnexpectedContent
    decreases |offsets|
  {
    hide UInt32At, NameAt, Shown, Linked, Names;
    AtLeastOne(data, start, offsets);
    var entries := Found(data, start, found);
    NamesFrom(data, start, offsets, found);
    if |offsets| > 1 {
      TailIsLinked(data, start, offsets);
      if |entries| <= MostEntries {
        WalkFindsTheChain(data, start + Next(data, start), entries, offsets[1..]);
      }
    }
  }

  lemma {:induction false} WalkMeansAChain(data: seq<byte>, start: nat, found: seq<Name>) returns (offsets: seq<nat>)
    requires |found| <= MostEntries && Walk(data, start, found).Names_?
    ensures Chain(data, start, offsets) && Walk(data, start, found).names == found + Names(data, offsets)
    decreases |data| - start
  {
    hide UInt32At, NameAt, Shown, Linked, Names;
    var entries := Found(data, start, found);
    if Next(data, start) == 0 {
      offsets := [start];
      OneEntry(data, start);
      NamesFrom(data, start, offsets, found);
    } else {
      var rest := WalkMeansAChain(data, start + Next(data, start), entries);
      HeadIsLinked(data, start, rest);
      offsets := [start] + rest;
      assert offsets[1..] == rest;
      AtLeastOne(data, start + Next(data, start), rest);
      NamesFrom(data, start, offsets, found);
    }
  }

  // Too much content is reported exactly when a fifth name can be reached, whatever follows it.
  lemma {:induction false} TooManyIsSeen(data: seq<byte>, start: nat, found: seq<Name>, offsets: seq<nat>)
    requires |found| <= MostEntries && Linked(data, start, offsets) && |found + Names(data, offsets)| > MostEntries
    ensures Walk(data, start, found) == UnexpectedContent
    decreases |offsets|
  {
    hide UInt32At, NameAt, Shown, Linked, Names;
    AtLeastOne(data, start, offsets);
    var entries := Found(data, start, found);
    NamesFrom(data, start, offsets, found);
    if |offsets| > 1 {
      TailIsLinked(data, start, offsets);
      if |entries| <= MostEntries {
        TooManyIsSeen(data, start + Next(data, start), entries, offsets[1..]);
      }
    }
  }

  lemma {:induction false} UnexpectedMeansTooMany(data: seq<byte>, start: nat, found: seq<Name>)
    returns (offsets: seq<nat>)
    requires |found| <= MostEntries && Walk(data, start, found) == UnexpectedContent
    ensures Linked(data, start, offsets) && |found + Names(data, offsets)| > MostEntries
    decreases |data| - start
  {
    hide UInt32At, NameAt, Shown, Linked, Names;
    var entries := Found(data, start, found);
    if |entries| > MostEntries {
      offsets := [start];
      OneEntry(data, start);
      NamesFrom(data, start, offsets, found);
    } else {
      var rest := UnexpectedMeansTooMany(data, start + Next(data, start), entries);
      HeadIsLinked(data, start, rest);
      offsets := [start] + rest;
      assert offsets[1..] == rest;
      AtLeastOne(data, start + Next(data, start), rest);
      NamesFrom(data, start, offsets, found);
    }
  }

  lemma {:induction false} OffsetsAreUnique(data: seq<byte>, start: nat, a: seq<nat>, b: seq<nat>)
    requires Chain(data, start, a) && Chain(data, start, b)
    ensures a == b
    decreases |a|
  {
    if |a| > 1 && |b| > 1 {
      TailIsLinked(data, start, a);
      TailIsLinked(data, start, b);
      OffsetsAreUnique(data, start + Next(data, start), a[1..], b[1..]);
      assert a == [start] + a[1..] && b == [start] + b[1..];
    } else if |a| > 1 {
      TailIsLinked(data, start, a);
    } else if |b| > 1 {
      TailIsLinked(data, start, b);
    }
  }
}
