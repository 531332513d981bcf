/**
 Listing the state directory: the system fills one buffer after another, each is walked, and the names come
 back sorted. Calls to the system are a list of replies.
*/
module DirectoryEntries {
  import opened Sequences
  import opened DirectoryBuffer

  datatype Replies = Refused(code: nat) | Filled(data: seq<byte>, rest: Replies)

  const NoMoreFiles: nat := 18

  predicate Sized(replies: Replies) {
    replies.Filled? ==> |replies.data| == BufferSize && Sized(replies.rest)
  }

  // Ordinal comparison of names.
  predicate NotAfter(a: Name, b: Name) {
    a == [] || (b != [] && (a[0] < b[0] || (a[0] == b[0] && NotAfter(a[1..], b[1..]))))
  }

  function Ordinal(): (Name, Name) -> bool {
    (a, b) => NotAfter(a, b)
  }

  lemma {:induction false} OneComesFirst(a: Name, b: Name)
    ensures NotAfter(a, b) || NotAfter(b, a)
    ensures NotAfter(a, b) && NotAfter(b, a) ==> a == b
  {
    if a != [] && b != [] {
      OneComesFirst(a[1..], b[1..]);
      assert a == [a[0]] + a[1..] && b == [b[0]] + b[1..];
    }
  }

  lemma {:induction false} NotAfterChains(a: Name, b: Name, c: Name)
    requires NotAfter(a, b) && NotAfter(b, c)
    ensures NotAfter(a, c)
  {
    if a != [] && a[0] == b[0] == c[0] {
      NotAfterChains(a[1..], b[1..], c[1..]);
    }
  }

  lemma OrdinalIsTotal()
    ensures TotalOrder(Ordinal())
  {
    forall a, b ensures (Ordinal()(a, b) || Ordinal()(b, a)) && (Ordinal()(a, b) && Ordinal()(b, a) ==> a == b) {
      OneComesFirst(a, b);
    }
    forall a, b, c | Ordinal()(a, b) && Ordinal()(b, c) ensures Ordinal()(a, c) {
      NotAfterChains(a, b, c);
    }
  }

  function Collect(replies: Replies, found: seq<Name>): (r: Outcome)
    requires |found| <= MostEntries
    ensures r.Names_? ==> |r.names| <= MostEntries
  {
    match replies
    case Refused(code) => if code == NoMoreFiles then Names_(found) else SystemError(code)
    case Filled(data, rest) =>
      var walked := Walk(data, 0, found);
      if walked.Names_? then Collect(rest, walked.names) else walked
  }

  function Listing(replies: Replies): (r: Outcome)
    ensures r.Names_? ==> |r.names| <= MostEntries
  {
    var r := Collect(replies, []);
    if r.Names_? then Names_(Sort(Ordinal(), r.names)) else r
  }

  // Every buffer holds a chain, and the system ends the listing by itself.
  ghost predicate Complete(replies: Replies, chains: seq<seq<nat>>) {
    match replies
    case Refused(code) => code == NoMoreFiles && chains == []
    case Filled(data, rest) => chains != [] && Chain(data, 0, chains[0]) && Complete(rest, chains[1..])
  }

  function AllNames(replies: Replies, chains: seq<seq<nat>>): seq<Name>
    requires Complete(replies, chains)
  {
    match replies
    case Refused(_) => []
    case Filled(data, rest) => Names(data, chains[0]) + AllNames(rest, chains[1..])
  }

  lemma {:induction false} CompleteListingsAreCollected(replies: Replies, chains: seq<seq<nat>>, found: seq<Name>)
    requires Complete(replies, chains) && |found + AllNames(replies, chains)| <= MostEntries
    ensures Collect(replies, found) == Names_(found + AllNames(replies, chains))
    decreases replies
  {
    hide Walk, Names, Chain;
    match replies
    case Refused(_) =>
    case Filled(data, rest) =>
      ChainFits(data, 0, chains[0]);
      WalkFindsTheChain(data, 0, found, chains[0]);
      CompleteListingsAreCollected(rest, chains[1..], found + Names(data, chains[0]));
      assert found + Names(data, chains[0]) + AllNames(rest, chains[1..]) == found + AllNames(replies, chains);
  }

  lemma {:induction false} CollectedMeansComplete(replies: Replies, found: seq<Name>) returns (chains: seq<seq<nat>>)
    requires |found| <= MostEntries && Collect(replies, found).Names_?
    ensures Complete(replies, chains) && Collect(replies, found).names == found + AllNames(replies, chains)
    decreases replies
  {
    hide Walk, Names, Chain;
    match replies
    case Refused(_) => chains := [];
    case Filled(data, rest) =>
      var offsets := WalkMeansAChain(data, 0, found);
      ChainFits(data, 0, offsets);
      var more := CollectedMeansComplete(rest, found + Names(data, offsets));
      chains := [offsets] + more;
      assert chains[1..] == more;
      assert found + Names(data, offsets) + AllNames(rest, more) == found + AllNames(replies, chains);
  }

  // Main result: a listing succeeds exactly when every buffer holds a well-formed chain, the system says
  // there is no more, and at most four names are shown; the result is then those names in ordinal order.
  lemma {:induction false} ListingIsExact(replies: Replies)
    ensures Listing(replies).Names_?
      <==> exists chains :: Complete(replies, chains) && |AllNames(replies, chains)| <= MostEntries
    ensures forall chains | Complete(replies, chains) && |AllNames(replies, chains)| <= MostEntries ::
      && multiset(Listing(replies).names) == multiset(AllNames(replies, chains))
      && Ordered(Ordinal(), Listing(replies).names)
  {
    OrdinalIsTotal();
    if Listing(replies).Names_? {
      var chains := CollectedMeansComplete(replies, []);
      assert AllNames(replies, chains) == [] + AllNames(replies, chains);
    }
    forall chains | Complete(replies, chains) && |AllNames(replies, chains)| <= MostEntries
      ensures Listing(replies).Names_?
      ensures multiset(Listing(replies).names) == multiset(AllNames(replies, chains))
      ensures Ordered(Ordinal(), Listing(replies).names)
    {
      CompleteListingsAreCollected(replies, chains, []);
      assert [] + AllNames(replies, chains) == AllNames(replies, chains);
      SortIsSorted(Ordinal(), AllNames(replies, chains));
    }
  }

  // The entries at the offsets hold these names.
  ghost predicate Holds(data: seq<byte>, offsets: seq<nat>, names: seq<seq<Unit>>) {
    && |names| == |offsets|
    && forall i | 0 <= i < |offsets| ::
        && Fits(data, offsets[i]) && UInt32At(data, offsets[i] + LengthField) == 2 * |names[i]|
        && data[offsets[i] + HeaderSize..EndOf(data, offsets[i])] == Bytes(names[i])
  }

  function Visible(names: seq<seq<Unit>>): seq<Name> {
    if names == [] then [] else (if Shown(names[0]) then [names[0]] else []) + Visible(names[1..])
  }

  lemma HeldNameIsRead(data: seq<byte>, at: nat, name: seq<Unit>)
    requires Fits(data, at) && UInt32At(data, at + LengthField) == 2 * |name|
    requires data[at + HeaderSize..EndOf(data, at)] == Bytes(name) && WellFormed(name)
    ensures NameAt(data, at) == name
  {
    hide UInt32At, UnitsAt, Bytes, WellFormed, Repair;
    BytesDecode(data, at + HeaderSize, name);
    RepairKeepsWellFormedNames(name);
  }

  // Names written with whole characters are read back as they are, wherever the entries lie.
  lemma {:induction false} WrittenNamesAreRead(data: seq<byte>, offsets: seq<nat>, names: seq<seq<Unit>>)
    requires Holds(data, offsets, names) && forall i | 0 <= i < |names| :: WellFormed(names[i])
    ensures Names(data, offsets) == Visible(names)
    decreases |names|
  {
    hide UInt32At, NameAt, WellFormed, Bytes, Shown;
    if names != [] {
      HeldNameIsRead(data, offsets[0], names[0]);
      var offsets', names' := offsets[1..], names[1..];
      assert forall i | 0 <= i < |offsets'| :: offsets'[i] == offsets[i + 1] && names'[i] == names[i + 1];
      WrittenNamesAreRead(data, offsets', names');
    }
  }

  // A name with half a surrogate pair is listed under another name: one buffer holds one entry with such a
  // name, and the listing shows the replacement character instead.
  lemma HalfASurrogateIsListedDifferently(data: seq<byte>, unit: Unit)
    requires High(unit) || Low(unit)
    requires |data| == BufferSize && Fits(data, 0) && UInt32At(data, 0) == 0 && Holds(data, [0], [[unit]])
    ensures !WellFormed([unit]) && [unit] != [Replacement]
    ensures Listing(Filled(data, Refused(NoMoreFiles))) == Names_([[Replacement]])
  {
    assert !PairedAt([unit], 0);
    HalfIsReplaced(unit);
    assert NameAt(data, 0) == [Replacement] by {
      hide UInt32At, Repair;
      assert [0][0] == 0 && [[unit]][0] == [unit] && EndOf(data, 0) == HeaderSize + 2 * |[unit]|;
      BytesDecode(data, HeaderSize, [unit]);
    }
    OneEntry(data, 0);
    hide UInt32At, UnitsAt, Bytes, Repair, NameAt, WellFormed, Holds;
    var names := [[Replacement]];
    assert Names(data, [0]) == names by { assert Names(data, [0][1..]) == []; }
    WalkFindsTheChain(data, 0, [], [0]);
    hide Walk, Names;
    assert [] + names == names;
    assert Collect(Filled(data, Refused(NoMoreFiles)), []) == Names_(names);
    OneIsSorted(names[0]);
  }

  lemma HalfIsReplaced(unit: Unit)
    requires High(unit) || Low(unit)
    ensures Repair([unit]) == [Replacement]
  {
    assert Repair([unit][1..]) == [];
  }

  lemma OneIsSorted(name: Name)
    ensures Sort(Ordinal(), [name]) == [name]
  {
    assert [name][..0] == [];
  }

  // Such buffers exist.
  lemma ABufferWithHalfASurrogate() returns (data: seq<byte>, unit: Unit)
    ensures High(unit) && |data| == BufferSize && Fits(data, 0) && UInt32At(data, 0) == 0 && Holds(data, [0], [[unit]])
  {
    unit := 0xD800;
    data := seq(BufferSize, i requires 0 <= i < BufferSize => if i == 60 then 2 else if i == 105 then 0xD8 else 0);
    assert UInt32At(data, 60) == 2 && UInt32At(data, 0) == 0;
    assert Bytes([unit]) == [0, 0xD8] by { assert [unit][..0] == []; }
    assert data[104..106] == [0, 0xD8];
  }

  // The walk as the program does it, in machine integers: no read leaves the buffer, no sum wraps around.
  method ReadEntries(replies: Replies) returns (r: Outcome)
    requires Sized(replies)
    ensures r == Listing(replies)
  {
    hide UInt32At, UnitsAt, Repair, Sort;
    var entries: seq<Name> := [];
    var left := replies;
    while left.Filled?
      invariant Sized(left) && |entries| <= MostEntries
      invariant Collect(left, entries) == Collect(replies, [])
      decreases left
    {
      var data := left.data;
      ghost var found := entries;
      var size: int32 := BufferSize as int32;
      var offset: int32 := 0;
      var more := true;
      while more
        invariant 0 <= offset && |entries| <= MostEntries
        invariant more ==> Walk(data, offset as nat, entries) == Walk(data, 0, found)
        invariant !more ==> Walk(data, 0, found) == Names_(entries)
        decreases more, size - offset
      {
        if offset > size - 104 {
          return MalformedEntry;
        }
        var next := ToUInt32(data, offset);
        var length := ToUInt32(data, offset + 60);
        if length == 0 || length % 2 != 0 || length > (size - offset - 104) as uint32 {
          return MalformedName;
        }
        var name := Repair(UnitsAt(data, (offset + 104) as nat, length as nat / 2));
        if name != Dot && name != DotDot {
          entries := entries + [name];
        }
        if |entries| > MostEntries {
          return UnexpectedContent;
        }
        if next == 0 {
          more := false;
        } else {
          if next < 104 + length || next > (size - offset - 104) as uint32 {
            return MalformedOffset;
          }
          offset := offset + next as int32;
        }
      }
      left := left.rest;
    }
    if left.code != NoMoreFiles {
      return SystemError(left.code);
    }
    r := Names_(Sort(Ordinal(), entries));
  }

  function ToUInt32(data: seq<byte>, offset: int32): (n: uint32)
    requires 0 <= offset as int && offset as int + 4 <= |data|
    ensures n as int == UInt32At(data, offset as int)
  {
    UInt32At(data, offset as int) as uint32
  }

  // The inventory check: sorted against sorted, element by element.
  method Verify(replies: Replies, expectedChildren: seq<Name>) returns (ok: bool)
    requires Sized(replies)
    ensures ok <==> Listing(replies).Names_? && multiset(Listing(replies).names) == multiset(expectedChildren)
  {
    hide Sort, Collect, TotalOrder, Ordinal;
    OrdinalIsTotal();
    var actual := ReadEntries(replies);
    var expected := Sort(Ordinal(), expectedChildren);
    SortIsSorted(Ordinal(), expectedChildren);
    if !actual.Names_? {
      return false;
    }
    SortIsSorted(Ordinal(), Collect(replies, []).names);
    if |actual.names| != |expected| {
      assert |multiset(actual.names)| == |actual.names| && |multiset(expected)| == |expected|;
      return false;
    }
    for i := 0 to |expected|
      invariant actual.names[..i] == expected[..i]
    {
      if actual.names[i] != expected[i] {
        if multiset(actual.names) == multiset(expected) {
          SortedIsUnique(Ordinal(), actual.names, expected);
        }
        return false;
      }
    }
    assert actual.names == actual.names[..|expected|] && expected == expected[..|expected|];
    ok := true;
  }
}
