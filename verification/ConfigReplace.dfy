/**
 Replacing a live configuration in place. Owners hold references to the configuration's records and arrays,
 so an object that keeps its place and its kind must stay the same object.
*/
module ConfigReplace {
  import ObjectGraph
  import opened ConfigLayout

  class Memory {
    var cells: Cells

    constructor (cells: Cells)
      ensures this.cells == cells
    {
      this.cells := cells;
    }

    method Allocate(cell: Cell) returns (ref: Ref)
      modifies this
      ensures ref !in old(cells) && cells == old(cells)[ref := cell]
    {
      ghost var unused := ObjectGraph.UnusedRef(cells.Keys);
      assert unused !in cells;
      ref :| ref !in cells;
      cells := cells[ref := cell];
    }

    // structuredClone: a copy made of new objects only.
    method StructuredClone(v: Value, ghost m: Layout) returns (w: Value, ghost x: Layout)
      requires Lays(cells, v, m)
      modifies this
      ensures Lays(cells, w, x) && TreeShaped(x) && Erase(x) == Erase(m)
      ensures Refs(x) !! old(cells).Keys && SameOn(old(cells), cells, old(cells).Keys)
      decreases m, 1
    {
      if v.Leaf? {
        w, x := v, m;
      } else {
        match cells[v.ref]
        case Arr(items) =>
          var copies, xs := CloneItems(v.ref, items, m);
          ghost var before := cells;
          var ref := Allocate(Arr(copies));
          w, x := At(ref), Items(ref, xs);
          NewItems(before, cells, ref, copies, xs, m.items, old(cells).Keys);
        case Rec(fields) =>
          var copies, xs := CloneFields(v.ref, fields, m);
          ghost var before := cells;
          var ref := Allocate(Rec(copies));
          w, x := At(ref), Fields(ref, xs);
          NewFields(before, cells, ref, copies, xs, m.fields, old(cells).Keys);
      }
    }

    method CloneItems(source: Ref, items: seq<Value>, ghost m: Layout)
      returns (copies: seq<Value>, ghost xs: seq<Layout>)
      requires Lays(cells, At(source), m) && cells[source] == Arr(items)
      modifies this
      ensures ItemCopies(cells, copies, xs, m.items, old(cells).Keys)
      ensures SameOn(old(cells), cells, old(cells).Keys)
      decreases m, 0
    {
      hide ItemCopies, Refs, TreeShaped, Erase;
      copies, xs := [], [];
      NoItemCopies(cells, cells.Keys);
      for n := 0 to |items|
        invariant n == 0 ==> cells == old(cells)
        invariant ItemCopies(cells, copies, xs, m.items[..n], old(cells).Keys)
        invariant SameOn(old(cells), cells, old(cells).Keys)
      {
        ghost var before := cells;
        LaysAllocated(old(cells), At(source), m);
        ItemRefs(source, m.items, n);
        LaysElsewhere(old(cells), cells, items[n], m.items[n]);
        var w, x := StructuredClone(items[n], m.items[n]);
        OneMoreItem(before, cells, copies, xs, m.items[..n], old(cells).Keys, w, x, m.items[n]);
        assert m.items[..n + 1] == m.items[..n] + [m.items[n]];
        copies, xs := copies + [w], xs + [x];
      }
      assert m.items[..|items|] == m.items;
    }

    method CloneFields(source: Ref, fields: map<string, Value>, ghost m: Layout)
      returns (copies: map<string, Value>, ghost xs: map<string, Layout>)
      requires Lays(cells, At(source), m) && cells[source] == Rec(fields)
      modifies this
      ensures FieldCopies(cells, copies, xs, m.fields, old(cells).Keys) && xs.Keys == m.fields.Keys
      ensures SameOn(old(cells), cells, old(cells).Keys)
      decreases m, 0
    {
      hide FieldCopies, Refs, TreeShaped, Erase;
      copies, xs := map[], map[];
      NoFieldCopies(cells, m.fields, cells.Keys);
      var keys := fields.Keys;
      while keys != {}
        invariant keys <= fields.Keys && xs.Keys == fields.Keys - keys
        invariant FieldCopies(cells, copies, xs, m.fields, old(cells).Keys)
        invariant SameOn(old(cells), cells, old(cells).Keys)
        decreases keys
      {
        var key :| key in keys;
        ghost var before := cells;
        LaysAllocated(old(cells), At(source), m);
        FieldRefs(source, m.fields, key);
        LaysElsewhere(old(cells), cells, fields[key], m.fields[key]);
        var w, x := StructuredClone(fields[key], m.fields[key]);
        OneMoreField(before, cells, copies, xs, m.fields, old(cells).Keys, key, w, x);
        copies, xs, keys := copies[key := w], xs[key := x], keys - {key};
      }
    }

    // The body of the loop over the source's entries.
    method ReplaceField(target: Ref, key: string, nextValue: Value, ghost l: Layout, ghost n: Layout)
      returns (ghost x: Layout)
      requires IsRecordAt(cells, target, l) && Lays(cells, nextValue, n) && TreeShaped(n) && Refs(l) !! Refs(n)
      modifies this
      ensures IsRecordAt(cells, target, Fields(target, l.fields[key := x]))
      ensures FieldReplaced(l, key, Erase(n), x, old(cells).Keys)
      ensures OnlyWithin(old(cells), cells, Refs(l), Refs(Fields(target, l.fields[key := x])))
      decreases n, 1
    {
      hide TreeShaped, KeepsIdentity, Refs;
      ghost var before := cells;
      var fields := cells[target].fields;
      if key in fields {
        Nested(before, target, key, l);
      }
      if key in fields && fields[key].At? && nextValue.At? && cells[fields[key].ref].Arr? && cells[nextValue.ref].Arr? {
        var current := fields[key].ref;
        var copy, y := StructuredClone(nextValue, n);
        ghost var cloned := cells;
        var items := cells[copy.ref].items;
        cells := cells[current := Arr(items)];
        x := Items(current, y.items);
        Spliced(before, cloned, cells, target, key, l, n, y, current);
      } else if key in fields && fields[key].At? && nextValue.At? && cells[fields[key].ref].Rec? &&
        cells[nextValue.ref].Rec? {
        x := ReplaceMutableConfigValue(fields[key].ref, nextValue.ref, l.fields[key], n);
        Recursed(before, cells, target, key, l, n, x);
      } else {
        var copy, y := StructuredClone(nextValue, n);
        x := y;
        ghost var cloned := cells;
        cells := cells[target := Rec(fields[key := copy])];
        Assigned(before, cloned, cells, target, key, l, n, copy, x);
      }
    }

    // The keys the source does not have go.
    method DropMissing(target: Ref, source: Ref, ghost l: Layout, ghost m: Layout)
      returns (ghost cur: map<string, Layout>)
      requires IsRecordAt(cells, target, l) && IsRecordAt(cells, source, m) && Refs(l) !! Refs(m)
      modifies this
      ensures cur == map k | k in l.fields && k in m.fields :: l.fields[k]
      ensures IsRecordAt(cells, target, Fields(target, cur))
      ensures OnlyWithin(old(cells), cells, Refs(l), Refs(Fields(target, cur)))
    {
      hide TreeShaped, OnlyWithin, Refs;
      cur := l.fields;
      var keys := cells[target].fields.Keys;
      Untouched(cells, target, l);
      while keys != {}
        invariant keys <= l.fields.Keys
        invariant cur == map k | k in l.fields && (k in keys || k in m.fields) :: l.fields[k]
        invariant IsRecordAt(cells, target, Fields(target, cur))
        invariant OnlyWithin(old(cells), cells, Refs(l), Refs(Fields(target, cur)))
        decreases keys
      {
        var key :| key in keys;
        keys := keys - {key};
        SourceUntouched(old(cells), cells, l, Fields(target, cur), source, m);
        if key !in cells[source].fields {
          ghost var before := cells;
          cells := cells[target := Rec(cells[target].fields - {key})];
          Dropped(old(cells), before, cells, target, l, cur, key);
          cur := cur - {key};
        }
      }
    }

    // Main result: on disjoint trees the target comes to look like the source, with nothing left over; every
    // nested object that stays an object of its kind is still the same object; all that is not part of the
    // target, the source included, is as it was.
    method ReplaceMutableConfigValue(target: Ref, source: Ref, ghost l: Layout, ghost m: Layout)
      returns (ghost r: Layout)
      requires IsRecordAt(cells, target, l) && IsRecordAt(cells, source, m) && Refs(l) !! Refs(m)
      modifies this
      ensures IsRecordAt(cells, target, r) && Erase(r) == Erase(m)
      ensures KeepsIdentity(l, Erase(m), r, old(cells).Keys)
      ensures OnlyWithin(old(cells), cells, Refs(l), Refs(r))
      ensures Lays(cells, At(source), m)
      decreases m, 0
    {
      hide TreeShaped, KeepsIdentity, FieldReplaced, OnlyWithin, Erase, Refs;
      ghost var cur := DropMissing(target, source, l, m);
      SourceUntouched(old(cells), cells, l, Fields(target, cur), source, m);
      var entries := cells[source].fields;
      ghost var kept := cur;
      var todo := entries.Keys;
      while todo != {}
        invariant todo <= entries.Keys && entries.Keys == m.fields.Keys
        invariant IsRecordAt(cells, target, Fields(target, cur))
        invariant OnlyWithin(old(cells), cells, Refs(l), Refs(Fields(target, cur)))
        invariant source in cells && cells[source] == Rec(entries)
        invariant cur.Keys == kept.Keys + (entries.Keys - todo)
        invariant forall k | k in todo && k in kept :: cur[k] == l.fields[k]
        invariant forall k | k in entries && k !in todo ::
          FieldReplaced(l, k, Erase(m.fields[k]), cur[k], old(cells).Keys)
        decreases todo
      {
        var key :| key in todo;
        assert key in cur <==> key in l.fields;
        todo := todo - {key};
        ghost var before := cells;
        ghost var c := Fields(target, cur);
        SourceUntouched(old(cells), cells, l, c, source, m);
        Nested(cells, source, key, m);
        FieldApart(old(cells), cells, l, c, source, m, key);
        ghost var x := ReplaceField(target, key, entries[key], c, m.fields[key]);
        ReplacedSince(l, c, key, Erase(m.fields[key]), x, old(cells).Keys, before.Keys);
        WithinSince(old(cells), before, cells, Refs(l), Refs(c), Refs(Fields(target, cur[key := x])));
        cur := cur[key := x];
        SourceUntouched(old(cells), cells, l, Fields(target, cur), source, m);
      }
      r := Fields(target, cur);
      SourceUntouched(old(cells), cells, l, r, source, m);
      AllReplaced(l, m, r, old(cells).Keys);
    }

    // Applying a candidate and then restoring what was there before puts the old values back into the same
    // record.
    method ApplyThenRestore(target: Ref, candidate: Ref, previous: Ref, ghost l: Layout, ghost c: Layout,
        ghost p: Layout)
      returns (ghost r: Layout)
      requires IsRecordAt(cells, target, l) && IsRecordAt(cells, candidate, c) && IsRecordAt(cells, previous, p)
      requires Refs(l) !! Refs(c) && Refs(l) !! Refs(p)
      modifies this
      ensures IsRecordAt(cells, target, r) && Erase(r) == Erase(p)
      ensures OnlyWithin(old(cells), cells, Refs(l), Refs(r))
      ensures Lays(cells, At(candidate), c) && Lays(cells, At(previous), p)
    {
      hide TreeShaped, KeepsIdentity, Refs, Erase, OnlyWithin;
      ghost var start := cells;
      ghost var applied := ReplaceMutableConfigValue(target, candidate, l, c);
      ghost var middle := cells;
      SourceUntouched(start, middle, l, applied, previous, p);
      r := ReplaceMutableConfigValue(target, previous, applied, p);
      WithinSince(start, middle, cells, Refs(l), Refs(applied), Refs(r));
      SourceUntouched(start, cells, l, r, candidate, c);
    }
  }

  // xs are laid out as new, separate objects that look like ms.
  ghost predicate ItemCopies(cells: Cells, copies: seq<Value>, xs: seq<Layout>, ms: seq<Layout>, used: set<Ref>) {
    && |copies| == |xs| == |ms| && used <= cells.Keys
    && (forall i | 0 <= i < |xs| :: Lays(cells, copies[i], xs[i]) && TreeShaped(xs[i]) && Erase(xs[i]) == Erase(ms[i]))
    && (forall i | 0 <= i < |xs| :: Refs(xs[i]) !! used)
    && (forall i, j | 0 <= i < j < |xs| :: Refs(xs[i]) !! Refs(xs[j]))
  }

  ghost predicate FieldCopies(cells: Cells, copies: map<string, Value>, xs: map<string, Layout>,
      ms: map<string, Layout>, used: set<Ref>) {
    && copies.Keys == xs.Keys <= ms.Keys && used <= cells.Keys
    && (forall k | k in xs :: Lays(cells, copies[k], xs[k]) && TreeShaped(xs[k]) && Erase(xs[k]) == Erase(ms[k]))
    && (forall k | k in xs :: Refs(xs[k]) !! used)
    && (forall j, k | j in xs && k in xs && j != k :: Refs(xs[j]) !! Refs(xs[k]))
  }

  lemma NoItemCopies(cells: Cells, used: set<Ref>)
    requires used <= cells.Keys
    ensures forall ms: seq<Layout> | ms == [] :: ItemCopies(cells, [], [], ms, used)
  {
  }

  lemma NoFieldCopies(cells: Cells, ms: map<string, Layout>, used: set<Ref>)
    requires used <= cells.Keys
    ensures FieldCopies(cells, map[], map[], ms, used)
  {
  }

  lemma OneMoreItem(g: Cells, h: Cells, copies: seq<Value>, xs: seq<Layout>, ms: seq<Layout>, used: set<Ref>,
      w: Value, x: Layout, m: Layout)
    requires ItemCopies(g, copies, xs, ms, used) && SameOn(g, h, g.Keys) && used <= h.Keys
    requires Lays(h, w, x) && TreeShaped(x) && Erase(x) == Erase(m) && Refs(x) !! g.Keys
    ensures ItemCopies(h, copies + [w], xs + [x], ms + [m], used)
  {
    hide Lays, Erase, TreeShaped, Refs;
    forall i | 0 <= i < |xs| ensures Lays(h, copies[i], xs[i]) && Refs(xs[i]) !! Refs(x) {
      LaysAllocated(g, copies[i], xs[i]);
      LaysElsewhere(g, h, copies[i], xs[i]);
    }
  }

  lemma OneMoreField(g: Cells, h: Cells, copies: map<string, Value>, xs: map<string, Layout>, ms: map<string, Layout>,
      used: set<Ref>, k: string, w: Value, x: Layout)
    requires FieldCopies(g, copies, xs, ms, used) && SameOn(g, h, g.Keys) && used <= h.Keys && k in ms
    requires Lays(h, w, x) && TreeShaped(x) && Erase(x) == Erase(ms[k]) && Refs(x) !! g.Keys
    ensures FieldCopies(h, copies[k := w], xs[k := x], ms, used)
  {
    hide Lays, Erase, TreeShaped, Refs;
    forall j | j in xs ensures Lays(h, copies[j], xs[j]) && Refs(xs[j]) !! Refs(x) {
      LaysAllocated(g, copies[j], xs[j]);
      LaysElsewhere(g, h, copies[j], xs[j]);
    }
  }

  // l is what the record at ref looks like.
  ghost predicate IsRecordAt(cells: Cells, ref: Ref, l: Layout) {
    l.Fields? && Lays(cells, At(ref), l) && TreeShaped(l)
  }

  ghost predicate FieldReplaced(l: Layout, key: string, m: Json, x: Layout, used: set<Ref>)
    requires l.Fields?
  {
    && Erase(x) == m
    && if key in l.fields then KeepsIdentity(l.fields[key], m, x, used) else Refs(x) !! used
  }

  // Nothing outside `mine` changed, and of what existed only `mine` is in the result.
  ghost predicate OnlyWithin(g: Cells, h: Cells, mine: set<Ref>, result: set<Ref>) {
    g.Keys <= h.Keys && SameOn(g, h, g.Keys - mine) && result * g.Keys <= mine
  }

  lemma Untouched(g: Cells, target: Ref, l: Layout)
    requires IsRecordAt(g, target, l)
    ensures OnlyWithin(g, g, Refs(l), Refs(l)) && l == Fields(target, l.fields)
    ensures l.fields == map k | k in l.fields :: l.fields[k]
    ensures target in Refs(l)
  {
  }

  lemma SourceUntouched(g: Cells, h: Cells, l: Layout, r: Layout, source: Ref, m: Layout)
    requires OnlyWithin(g, h, Refs(l), Refs(r)) && Refs(l) !! Refs(m)
    requires IsRecordAt(g, source, m)
    ensures IsRecordAt(h, source, m) && h[source] == g[source]
    ensures Refs(r) !! Refs(m) && g.Keys <= h.Keys
  {
    hide TreeShaped;
    LaysAllocated(g, At(source), m);
    LaysElsewhere(g, h, At(source), m);
  }

  lemma FieldApart(g: Cells, h: Cells, l: Layout, c: Layout, source: Ref, m: Layout, key: string)
    requires Refs(c) !! Refs(m) && m.Fields? && key in m.fields
    ensures Refs(c) !! Refs(m.fields[key])
  {
    FieldRefs(m.ref, m.fields, key);
  }

  lemma Dropped(g: Cells, before: Cells, h: Cells, target: Ref, l: Layout, cur: map<string, Layout>, key: string)
    requires IsRecordAt(before, target, Fields(target, cur)) && target in Refs(l)
    requires OnlyWithin(g, before, Refs(l), Refs(Fields(target, cur)))
    requires h == before[target := Rec(before[target].fields - {key})]
    ensures IsRecordAt(h, target, Fields(target, cur - {key}))
    ensures OnlyWithin(g, h, Refs(l), Refs(Fields(target, cur - {key})))
  {
    hide TreeShaped, Lays;
    DropField(before, h, target, cur, key);
  }

  lemma WithinSince(g: Cells, before: Cells, h: Cells, mine: set<Ref>, was: set<Ref>, result: set<Ref>)
    requires OnlyWithin(g, before, mine, was) && OnlyWithin(before, h, was, result)
    ensures OnlyWithin(g, h, mine, result)
  {
  }

  lemma ReplacedSince(l: Layout, c: Layout, key: string, m: Json, x: Layout, used: set<Ref>, since: set<Ref>)
    requires l.Fields? && c.Fields? && FieldReplaced(c, key, m, x, since) && used <= since
    requires key in c.fields <==> key in l.fields
    requires key in c.fields ==> c.fields[key] == l.fields[key]
    ensures FieldReplaced(l, key, m, x, used)
  {
    if key in l.fields {
      KeepsIdentityWithin(l.fields[key], m, x, since, used);
    }
  }

  lemma AllReplaced(l: Layout, m: Layout, r: Layout, used: set<Ref>)
    requires l.Fields? && m.Fields? && r.Fields? && r.ref == l.ref && r.fields.Keys == m.fields.Keys
    requires forall k | k in m.fields :: FieldReplaced(l, k, Erase(m.fields[k]), r.fields[k], used)
    ensures Erase(r) == Erase(m) && KeepsIdentity(l, Erase(m), r, used)
  {
    assert Erase(r).fields == Erase(m).fields;
    forall k | k in r.fields && k in l.fields
      ensures KeepsIdentity(l.fields[k], Erase(m).fields[k], r.fields[k], used)
    {
      assert FieldReplaced(l, k, Erase(m.fields[k]), r.fields[k], used);
    }
    forall k | k in r.fields && k !in l.fields ensures Refs(r.fields[k]) !! used {
      assert FieldReplaced(l, k, Erase(m.fields[k]), r.fields[k], used);
    }
  }

  lemma Assigned(g: Cells, g1: Cells, h: Cells, target: Ref, key: string, l: Layout, n: Layout, v: Value, x: Layout)
    requires IsRecordAt(g, target, l) && g.Keys <= g1.Keys && SameOn(g, g1, g.Keys)
    requires Lays(g1, v, x) && TreeShaped(x) && Erase(x) == Erase(n) && Refs(x) !! g.Keys
    requires h == g1[target := Rec(g[target].fields[key := v])]
    requires key in l.fields ==> !(l.fields[key].Items? && n.Items?) && !(l.fields[key].Fields? && n.Fields?)
    ensures IsRecordAt(h, target, Fields(target, l.fields[key := x]))
    ensures FieldReplaced(l, key, Erase(n), x, g.Keys)
    ensures OnlyWithin(g, h, Refs(l), Refs(Fields(target, l.fields[key := x])))
  {
    hide TreeShaped;
    LaysAllocated(g, At(target), l);
    LaysElsewhere(g1, h, v, x);
    assert Refs(x) * g.Keys == {};
    SetField(g, h, target, l.fields, key, v, x);
  }

  lemma Nested(g: Cells, target: Ref, key: string, l: Layout)
    requires IsRecordAt(g, target, l) && key in l.fields
    ensures Lays(g, g[target].fields[key], l.fields[key]) && TreeShaped(l.fields[key])
    ensures Refs(l.fields[key]) <= Refs(l) && target !in Refs(l.fields[key]) && target in Refs(l)
  {
    FieldRefs(target, l.fields, key);
  }

  lemma Recursed(g: Cells, h: Cells, target: Ref, key: string, l: Layout, n: Layout, x: Layout)
    requires IsRecordAt(g, target, l) && key in l.fields && l.fields[key].Fields? && n.Fields? &&
      g[target].fields[key].At?
    requires IsRecordAt(h, g[target].fields[key].ref, x) && Erase(x) == Erase(n)
    requires KeepsIdentity(l.fields[key], Erase(n), x, g.Keys)
    requires OnlyWithin(g, h, Refs(l.fields[key]), Refs(x))
    ensures IsRecordAt(h, target, Fields(target, l.fields[key := x]))
    ensures FieldReplaced(l, key, Erase(n), x, g.Keys)
    ensures OnlyWithin(g, h, Refs(l), Refs(Fields(target, l.fields[key := x])))
  {
    Nested(g, target, key, l);
    hide TreeShaped, KeepsIdentity, Erase;
    LaysAllocated(h, g[target].fields[key], x);
    var v := g[target].fields[key];
    assert g[target].fields[key := v] == g[target].fields;
    SetField(g, h, target, l.fields, key, v, x);
  }

  lemma Spliced(g: Cells, g1: Cells, h: Cells, target: Ref, key: string, l: Layout, n: Layout, y: Layout, current: Ref)
    requires IsRecordAt(g, target, l) && key in l.fields && l.fields[key].Items? && n.Items? &&
      g[target].fields[key] == At(current)
    requires g.Keys <= g1.Keys && SameOn(g, g1, g.Keys)
    requires y.Items? && Lays(g1, At(y.ref), y) && TreeShaped(y) && Erase(y) == Erase(n) && Refs(y) !! g.Keys
    requires h == g1[current := g1[y.ref]]
    ensures IsRecordAt(h, target, Fields(target, l.fields[key := Items(current, y.items)]))
    ensures FieldReplaced(l, key, Erase(n), Items(current, y.items), g.Keys)
    ensures OnlyWithin(g, h, Refs(l), Refs(Fields(target, l.fields[key := Items(current, y.items)])))
  {
    Nested(g, target, key, l);
    var x := Items(current, y.items);
    assert Lays(g, At(current), l.fields[key]);
    forall i | 0 <= i < |y.items|
      ensures Lays(h, h[current].items[i], y.items[i]) && Refs(y.items[i]) !! g.Keys
    {
      ItemRefs(y.ref, y.items, i);
      LaysElsewhere(g1, h, g1[y.ref].items[i], y.items[i]);
    }
    assert Refs(x) * g.Keys <= {current};
    var v := g[target].fields[key];
    assert g[target].fields[key := v] == g[target].fields;
    SetField(g, h, target, l.fields, key, v, x);
  }

  lemma NewItems(g: Cells, h: Cells, ref: Ref, copies: seq<Value>, xs: seq<Layout>, ms: seq<Layout>, used: set<Ref>)
    requires ItemCopies(g, copies, xs, ms, used)
    requires ref !in g && ref in h && h[ref] == Arr(copies) && SameOn(g, h, g.Keys)
    ensures Lays(h, At(ref), Items(ref, xs)) && TreeShaped(Items(ref, xs)) && Refs(Items(ref, xs)) !! used
    ensures forall source :: Erase(Items(ref, xs)) == Erase(Items(source, ms))
  {
    forall i | 0 <= i < |xs| ensures Lays(h, copies[i], xs[i]) && ref !in Refs(xs[i]) {
      LaysAllocated(g, copies[i], xs[i]);
      LaysElsewhere(g, h, copies[i], xs[i]);
    }
  }

  lemma NewFields(g: Cells, h: Cells, ref: Ref, copies: map<string, Value>, xs: map<string, Layout>,
      ms: map<string, Layout>, used: set<Ref>)
    requires FieldCopies(g, copies, xs, ms, used) && xs.Keys == ms.Keys
    requires ref !in g && ref in h && h[ref] == Rec(copies) && SameOn(g, h, g.Keys)
    ensures Lays(h, At(ref), Fields(ref, xs)) && TreeShaped(Fields(ref, xs)) && Refs(Fields(ref, xs)) !! used
    ensures forall source :: Erase(Fields(ref, xs)) == Erase(Fields(source, ms))
  {
    forall k | k in xs ensures Lays(h, copies[k], xs[k]) && ref !in Refs(xs[k]) {
      LaysAllocated(g, copies[k], xs[k]);
      LaysElsewhere(g, h, copies[k], xs[k]);
    }
    assert forall source :: Erase(Fields(ref, xs)).fields == Erase(Fields(source, ms)).fields;
  }
}
