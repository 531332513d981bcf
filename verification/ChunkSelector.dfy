/**
 Which chunk a module of the Cockpit goes to. The selector is asked once per module, in an order the bundler
 chooses, and works out the module sets it needs at the first question that comes with the graph.
*/
module ChunkSelector {
  import opened Options
  import opened Sequences
  import opened ChunkGraph
  import opened ChunkPaths

  datatype Chunk =
    | ApprovalBody
    | CockpitRuntime | CockpitFoundation | CockpitEntry
    | Vendor(name: string)

  predicate IsCockpit(c: Option<Chunk>) {
    c in {Some(CockpitRuntime), Some(CockpitFoundation), Some(CockpitEntry)}
  }

  // What is decided elsewhere: which paths are placed automatically, and two searches of the graph.
  datatype Library = Library(
    automatic: Id -> bool,
    bindings: (Graph, Id) -> (set<Id>, set<Id>),
    lazyIcons: (Graph, set<Id>) -> set<Id>)

  function BootChunk(id: Id): (c: Chunk)
    ensures IsCockpit(Some(c))
  {
    if Contains(Normalized(id), "/node_modules/") || (id != "" && id[0] == '\0') then CockpitRuntime
    else if Contains(Normalized(id), "/packages/") then CockpitFoundation
    else CockpitEntry
  }

  function VendorChunk(id: Id): (c: Option<Chunk>)
    ensures c.Some? ==> c.value.Vendor?
  {
    var path := Normalized(id);
    if !Contains(path, "/node_modules/") then None
    else if Contains(path, "/node_modules/react-dom/") || Contains(path, "/node_modules/react/")
    then Some(Vendor("react"))
    else if Contains(path, "/node_modules/@radix-ui/") then Some(Vendor("radix"))
    else if Contains(path, "/node_modules/@react-three/") then Some(Vendor("r3f"))
    else if Contains(path, "/node_modules/three/") then Some(Vendor("three"))
    else if Contains(path, "/node_modules/@assistant-ui/") then Some(Vendor("assistant-ui"))
    else if Contains(path, "/node_modules/react-markdown/") || Contains(path, "/node_modules/remark-gfm/")
    then Some(Vendor("markdown"))
    else None
  }

  // What main.tsx initializes.
  ghost function Initial(g: Graph): set<Id> {
    set m | m in g.info && exists root :: root in g.ids && IsMain(root) && Reaches(g, root, m)
  }

  ghost function BootOwners(c: Library, g: Graph): set<Id> {
    set entry, m | entry in g.ids && IsEntry(entry) && m in c.bindings(g, entry).0 :: m
  }

  ghost function Boot(c: Library, g: Graph): set<Id> {
    BootOwners(c, g) - Initial(g)
  }

  function Named(c: Library, g: Graph): set<Id> {
    set entry, m | entry in g.ids && IsEntry(entry) && m in c.bindings(g, entry).1 :: m
  }

  predicate MayMove(c: Library, g: Graph, boot: set<Id>, id: Id) {
    && id in g.info && g.info[id].isIncluded.Some?
    && (c.automatic(id) ==> g.info[id].isIncluded.value)
    && g.info[id].isProgram
    && id !in boot
  }

  function OwnsPart(part: nat): Id -> bool
    requires part < |BodyParts|
  {
    id => Owns(part, id)
  }

  function OwnersOf(g: Graph, part: nat): seq<Id>
    requires part < |BodyParts|
  {
    Filter(OwnsPart(part), g.ids)
  }

  predicate PartMayMove(c: Library, g: Graph, boot: set<Id>, part: nat)
    requires part < |BodyParts|
  {
    |OwnersOf(g, part)| == 1 && MayMove(c, g, boot, OwnersOf(g, part)[0])
  }

  // The owners of the approval body, when each part has exactly one and all of them may move.
  function BodyOwners(c: Library, g: Graph, boot: set<Id>): set<Id> {
    if forall part | 0 <= part < |BodyParts| :: PartMayMove(c, g, boot, part)
    then set part | 0 <= part < |BodyParts| && PartMayMove(c, g, boot, part) :: OwnersOf(g, part)[0]
    else {}
  }

  datatype Memo = Memo(boot: set<Id>, named: set<Id>, lazyIcons: set<Id>, body: set<Id>)

  ghost function MemoOf(c: Library, g: Graph): Memo {
    var boot := Boot(c, g);
    Memo(boot, Named(c, g), c.lazyIcons(g, boot), BodyOwners(c, g, boot))
  }

  predicate LeftAlone(c: Library, id: Id) {
    Exempt(id) || (c.automatic(id) && !IsBoundCapability(id) && !IsBoundMemory(id) && !KnownApprovalOwner(id))
  }

  // The answer, from the module sets or without them.
  function PlaceOf(c: Library, memo: Option<Memo>, id: Id): Option<Chunk> {
    if LeftAlone(c, id) then None
    else if memo.Some? && id in memo.value.body then Some(ApprovalBody)
    else if memo.Some? && KnownApprovalOwner(id) && c.automatic(id) && id !in memo.value.named then None
    else if memo.Some? && IsBoundMemory(id) && id !in memo.value.named then None
    else if memo.Some? && id in memo.value.lazyIcons then None
    else if memo.Some? && id in memo.value.boot then Some(BootChunk(id))
    else if IsBoundCapability(id) || IsBoundMemory(id) then None
    else VendorChunk(id)
  }

  ghost function Answer(c: Library, graph: Option<Graph>, id: Id): Option<Chunk> {
    PlaceOf(c, if graph.Some? then Some(MemoOf(c, graph.value)) else None, id)
  }

  // ---------------------------------------------------------------- the boot chunks

  // Nothing main.tsx can reach ever lands in a Cockpit chunk.
  lemma MainStaysOutOfCockpit(c: Library, g: Graph, root: Id, id: Id)
    requires root in g.ids && IsMain(root) && id in Reachable(g, root)
    ensures !IsCockpit(Answer(c, Some(g), id))
  {
    hide LeftAlone, IsMain, IsEntry, BodyOwners, KnownApprovalOwner, BootChunk, VendorChunk, IsBoundMemory,
      IsBoundCapability;
    assert id in Initial(g);
  }

  // Exactly which modules land in a Cockpit chunk: those retained by the boot, unless the approval body or an
  // icon takes them, and, where ownership is ambiguous, only with a resolved boot binding.
  lemma CockpitExactly(c: Library, g: Graph, id: Id)
    ensures var memo := MemoOf(c, g);
      IsCockpit(Answer(c, Some(g), id)) <==>
        && !LeftAlone(c, id)
        && id in BootOwners(c, g) && !(exists root :: root in g.ids && IsMain(root) && id in Reachable(g, root))
        && id !in memo.body && id !in memo.lazyIcons
        && (IsBoundMemory(id) || (c.automatic(id) && KnownApprovalOwner(id)) ==> id in memo.named)
  {
    hide LeftAlone, IsMain, IsEntry, BodyOwners, KnownApprovalOwner, BootChunk, VendorChunk, IsBoundMemory,
      IsBoundCapability;
    InfoOfInitial(g, id);
  }

  lemma InfoOfInitial(g: Graph, id: Id)
    ensures id in Initial(g) <==> exists root :: root in g.ids && IsMain(root) && id in Reachable(g, root)
  {
    hide IsMain;
    if id in Initial(g) {
      var root :| root in g.ids && IsMain(root) && Reaches(g, root, id);
      assert id in Reachable(g, root);
    }
  }

  // ---------------------------------------------------------------- the approval body

  lemma OwnersAreKnown(c: Library, g: Graph, boot: set<Id>, id: Id)
    ensures id in BodyOwners(c, g, boot) ==>
      id in g.ids && OwnsAPart(id) && KnownApprovalOwner(id) && MayMove(c, g, boot, id)
  {
    hide BodyParts, Owns, MayMove;
    if id in BodyOwners(c, g, boot) {
      var part :| 0 <= part < |BodyParts| && PartMayMove(c, g, boot, part) && OwnersOf(g, part)[0] == id;
      assert id in OwnersOf(g, part);
      assert Owns(part, id);
    }
  }

  // There is a body exactly when every part has one owner that may move, and then it holds every owner there is.
  lemma BodyHoldsEveryOwner(c: Library, g: Graph, boot: set<Id>)
    ensures BodyOwners(c, g, boot) != {} <==>
      forall i | 0 <= i < |BodyParts| :: PartMayMove(c, g, boot, i)
    ensures BodyOwners(c, g, boot) != {} ==>
      forall id | id in g.ids && OwnsAPart(id) :: id in BodyOwners(c, g, boot)
  {
    SixteenParts();
    hide BodyParts, Owns, MayMove;
    if forall i | 0 <= i < |BodyParts| :: PartMayMove(c, g, boot, i) {
      forall id | id in g.ids && OwnsAPart(id) ensures id in BodyOwners(c, g, boot) {
        var part :| 0 <= part < |BodyParts| && Owns(part, id);
        FilterComplete(OwnsPart(part), g.ids, id);
        assert PartMayMove(c, g, boot, part) && OwnersOf(g, part)[0] == id;
      }
      assert PartMayMove(c, g, boot, 0);
      assert OwnersOf(g, 0)[0] in BodyOwners(c, g, boot);
    }
  }

  // Main result: the owners in a graph go to the chunk of the approval body all together or not at all, for
  // all owners whose path does not run through one of the three exempt Radix packages. Owners that do run
  // through one never go there, so together with them it is all or none exactly if there is no body or they
  // are in agreement.
  lemma OwnersMoveTogether(c: Library, g: Graph)
    ensures forall a, b | IsOwnerIn(g, a) && IsOwnerIn(g, b) && !IsRadixLeaf(Normalized(a)) &&
      !IsRadixLeaf(Normalized(b)) ::
      InBody(c, g, a) <==> InBody(c, g, b)
    ensures forall a | InBody(c, g, a) :: IsOwnerIn(g, a) && !IsRadixLeaf(Normalized(a))
    ensures (forall a, b | IsOwnerIn(g, a) && IsOwnerIn(g, b) :: InBody(c, g, a) <==> InBody(c, g, b)) <==>
      || MemoOf(c, g).body == {}
      || (forall a, b | IsOwnerIn(g, a) && IsOwnerIn(g, b) :: IsRadixLeaf(Normalized(a)) <==>
        IsRadixLeaf(Normalized(b)))
  {
    var memo := MemoOf(c, g);
    BodyHoldsEveryOwner(c, g, memo.boot);
    forall id ensures InBody(c, g, id) <==> id in memo.body && !IsRadixLeaf(Normalized(id))
      ensures id in memo.body ==> IsOwnerIn(g, id)
    {
      OwnersAreKnown(c, g, memo.boot, id);
      if OwnsAPart(id) { OwnersAreExemptOnlyInRadix(id); }
      hide OwnsAPart, Exempt, IsRadixLeaf, MemoOf, BodyOwners, VendorChunk, BootChunk;
    }
    hide InBody, IsOwnerIn, IsRadixLeaf, Normalized, MemoOf;
  }

  predicate IsOwnerIn(g: Graph, id: Id) {
    id in g.ids && OwnsAPart(id)
  }

  ghost predicate InBody(c: Library, g: Graph, id: Id) {
    Answer(c, Some(g), id) == Some(ApprovalBody)
  }

  // ---------------------------------------------------------------- the selector

  class Selector {
    const library: Library
    var memo: Option<Memo>
    // The graph the module sets were worked out from.
    ghost var from: Option<Graph>

    ghost predicate Valid()
      reads this
    {
      memo == if from.Some? then Some(MemoOf(library, from.value)) else None
    }

    constructor (library: Library)
      ensures Valid() && from == None && this.library == library
    {
      this.library := library;
      memo, from := None, None;
    }

    method WorkOut(graph: Graph) returns (m: Memo)
      ensures m == MemoOf(library, graph)
    {
      hide IsMain, IsEntry, BodyOwners;
      var boot, named, initial := {}, {}, {};
      for i := 0 to |graph.ids|
        invariant initial == set m | m in graph.info && exists root ::
          root in graph.ids[..i] && IsMain(root) && Reaches(graph, root, m)
        invariant boot == set entry, m | entry in graph.ids[..i] && IsEntry(entry) &&
          m in library.bindings(graph, entry).0 :: m
        invariant named == set entry, m | entry in graph.ids[..i] && IsEntry(entry) &&
          m in library.bindings(graph, entry).1 :: m
      {
        var moduleId := graph.ids[i];
        assert graph.ids[..i + 1] == graph.ids[..i] + [moduleId];
        if IsMain(moduleId) {
          initial := VisitRoot(graph, moduleId, initial);
        }
        if IsEntry(moduleId) {
          var (owners, bound) := library.bindings(graph, moduleId);
          boot, named := boot + owners, named + bound;
        }
      }
      assert graph.ids[..|graph.ids|] == graph.ids;
      boot := boot - initial;
      m := Memo(boot, named, library.lazyIcons(graph, boot), BodyOwners(library, graph, boot));
    }

    // Main result: the answer depends on the module and on the first graph that was given, not on what else
    // was asked before.
    method Select(id: Id, graph: Option<Graph>) returns (chunk: Option<Chunk>)
      requires Valid()
      modifies this
      ensures Valid() && (from == old(from) || (old(from) == None && from == graph))
      ensures chunk == Answer(library, if graph.Some? && old(from).Some? then old(from) else graph, id)
    {
      hide LeftAlone, MemoOf, VendorChunk, BootChunk, KnownApprovalOwner, IsBoundCapability, IsBoundMemory;
      if LeftAlone(library, id) {
        return None;
      }
      if graph.Some? && memo == None {
        var m := WorkOut(graph.value);
        memo, from := Some(m), graph;
      }
      chunk := PlaceOf(library, if graph.Some? then memo else None, id);
    }
  }

  // Main result, for a whole build: any order of questions, with repetitions, gives every module the same
  // answer; nothing that main.tsx reaches lands in a Cockpit chunk; and of the approval owners outside the
  // exempt Radix packages either all or none get the chunk of the body.
  method PlaceAll(library: Library, graph: Graph, order: seq<Id>) returns (chunks: map<Id, Option<Chunk>>)
    ensures chunks.Keys == set id | id in order
    ensures forall id | id in order :: chunks[id] == Answer(library, Some(graph), id)
    ensures forall id, root | id in order && root in graph.ids && IsMain(root) && id in Reachable(graph, root) ::
      !IsCockpit(chunks[id])
    ensures forall a, b | a in order && b in order && IsOwnerIn(graph, a) && IsOwnerIn(graph, b)
        && !IsRadixLeaf(Normalized(a)) && !IsRadixLeaf(Normalized(b)) ::
      chunks[a] == Some(ApprovalBody) <==> chunks[b] == Some(ApprovalBody)
  {
    hide Answer, IsMain, IsRadixLeaf, Normalized, IsOwnerIn, Reachable;
    var selector := new Selector(library);
    chunks := map[];
    for i := 0 to |order|
      invariant selector.Valid() && selector.from in {None, Some(graph)} && selector.library == library
      invariant chunks.Keys == set id | id in order[..i]
      invariant forall id | id in order[..i] :: chunks[id] == Answer(library, Some(graph), id)
    {
      var chunk := selector.Select(order[i], Some(graph));
      chunks := chunks[order[i] := chunk];
    }
    OwnersMoveTogether(library, graph);
    forall id, root | id in order && root in graph.ids && IsMain(root) && id in Reachable(graph, root)
      ensures !IsCockpit(chunks[id])
    {
      MainStaysOutOfCockpit(library, graph, root, id);
    }
  }
}
