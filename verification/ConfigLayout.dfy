/** Configuration objects in memory: records and arrays that owners hold references to. */
module ConfigLayout {
  import ObjectGraph
  import opened Options

  type Ref = ObjectGraph.Ref

  // A configuration value as plain data.
  datatype Json = Plain(text: string) | List(items: seq<Json>) | Dict(fields: map<string, Json>)

  datatype Cell = Arr(items: seq<Value>) | Rec(fields: map<string, Value>)
  datatype Value = Leaf(text: string) | At(ref: Ref)
  type Cells = map<Ref, Cell>

  // The same value together with the reference of every object in it.
  datatype Layout =
    | Atom(text: string)
    | Items(ref: Ref, items: seq<Layout>)
    | Fields(ref: Ref, fields: map<string, Layout>)

  function Erase(l: Layout): Json
    decreases l
  {
    match l
    case Atom(text) => Plain(text)
    case Items(_, items) => List(seq(|items|, i requires 0 <= i < |items| => Erase(items[i])))
    case Fields(_, fields) => Dict(map k | k in fields :: Erase(fields[k]))
  }

  ghost function Refs(l: Layout): set<Ref>
    decreases l
  {
    match l
    case Atom(_) => {}
    case Items(ref, items) => {ref} + set i, r | 0 <= i < |items| && r in Refs(items[i]) :: r
    case Fields(ref, fields) => {ref} + set k, r | k in fields && r in Refs(fields[k]) :: r
  }

  // No object is reached twice.
  ghost predicate TreeShaped(l: Layout)
    decreases l
  {
    match l
    case Atom(_) => true
    case Items(ref, items) =>
      && (forall i | 0 <= i < |items| :: TreeShaped(items[i]) && ref !in Refs(items[i]))
      && (forall i, j | 0 <= i < j < |items| :: Refs(items[i]) !! Refs(items[j]))
    case Fields(ref, fields) =>
      && (forall k | k in fields :: TreeShaped(fields[k]) && ref !in Refs(fields[k]))
      && (forall j, k | j in fields && k in fields && j != k :: Refs(fields[j]) !! Refs(fields[k]))
  }

  // In memory, v is laid out as l.
  ghost predicate Lays(cells: Cells, v: Value, l: Layout)
    decreases l
  {
    match l
    case Atom(text) => v == Leaf(text)
    case Items(ref, items) =>
      && v == At(ref) && ref in cells && cells[ref].Arr? && |cells[ref].items| == |items|
      && forall i | 0 <= i < |items| :: Lays(cells, cells[ref].items[i], items[i])
    case Fields(ref, fields) =>
      && v == At(ref) && ref in cells && cells[ref].Rec? && cells[ref].fields.Keys == fields.Keys
      && forall k | k in fields :: Lays(cells, cells[ref].fields[k], fields[k])
  }

  ghost predicate SameOn(g: Cells, h: Cells, refs: set<Ref>) {
    forall r | r in refs && r in g :: r in h && h[r] == g[r]
  }

  // What a value looks like depends on its own objects only.
  lemma {:induction false} LaysElsewhere(g: Cells, h: Cells, v: Value, l: Layout)
    requires Lays(g, v, l) && SameOn(g, h, Refs(l))
    ensures Lays(h, v, l)
    decreases l
  {
    match l
    case Atom(_) =>
    case Items(ref, items) =>
      forall i | 0 <= i < |items| ensures Lays(h, h[ref].items[i], items[i]) {
        assert Refs(items[i]) <= Refs(l);
        LaysElsewhere(g, h, g[ref].items[i], items[i]);
      }
    case Fields(ref, fields) =>
      forall k | k in fields ensures Lays(h, h[ref].fields[k], fields[k]) {
        assert Refs(fields[k]) <= Refs(l);
        LaysElsewhere(g, h, g[ref].fields[k], fields[k]);
      }
  }

  lemma {:induction false} LaysAllocated(g: Cells, v: Value, l: Layout)
    requires Lays(g, v, l)
    ensures Refs(l) <= g.Keys
    decreases l
  {
    match l
    case Atom(_) =>
    case Items(ref, items) =>
      forall i | 0 <= i < |items| ensures Refs(items[i]) <= g.Keys { LaysAllocated(g, g[ref].items[i], items[i]); }
    case Fields(ref, fields) =>
      forall k | k in fields ensures Refs(fields[k]) <= g.Keys { LaysAllocated(g, g[ref].fields[k], fields[k]); }
  }

  // r is what became of l when it took the value m: an object that stays an object of its kind is still the
  // same object, and everything else is new.
  ghost predicate KeepsIdentity(l: Layout, m: Json, r: Layout, used: set<Ref>)
    decreases r
  {
    if l.Items? && m.List? then
      && r.Items? && r.ref == l.ref && forall i | 0 <= i < |r.items| :: Refs(r.items[i]) !! used
    else if l.Fields? && m.Dict? then
      && r.Fields? && r.ref == l.ref && r.fields.Keys == m.fields.Keys
      && forall k | k in r.fields ::
          if k in l.fields then KeepsIdentity(l.fields[k], m.fields[k], r.fields[k], used)
          else Refs(r.fields[k]) !! used
    else Refs(r) !! used
  }

  lemma {:induction false} KeepsIdentityWithin(l: Layout, m: Json, r: Layout, used: set<Ref>, fewer: set<Ref>)
    requires KeepsIdentity(l, m, r, used) && fewer <= used
    ensures KeepsIdentity(l, m, r, fewer)
    decreases r
  {
    if l.Fields? && m.Dict? {
      forall k | k in r.fields && k in l.fields ensures KeepsIdentity(l.fields[k], m.fields[k], r.fields[k], fewer) {
        KeepsIdentityWithin(l.fields[k], m.fields[k], r.fields[k], used, fewer);
      }
    }
  }

  lemma ItemRefs(ref: Ref, items: seq<Layout>, i: nat)
    requires i < |items|
    ensures Refs(items[i]) <= Refs(Items(ref, items))
  {
  }

  lemma FieldRefs(ref: Ref, fields: map<string, Layout>, k: string)
    requires k in fields
    ensures Refs(fields[k]) <= Refs(Fields(ref, fields))
  {
  }

  lemma OtherFieldsStay(g: Cells, h: Cells, ref: Ref, fields: map<string, Layout>, k: string, v: Value, x: Layout,
      j: string)
    requires Lays(g, At(ref), Fields(ref, fields)) && TreeShaped(Fields(ref, fields)) && j in fields && j != k
    requires ref in h && h[ref] == Rec(g[ref].fields[k := v])
    requires Refs(x) * g.Keys <= if k in fields then Refs(fields[k]) else {}
    requires SameOn(g, h, g.Keys - {ref} - if k in fields then Refs(fields[k]) else {})
    ensures Lays(h, h[ref].fields[j], fields[j]) && TreeShaped(fields[j])
    ensures Refs(fields[j]) !! Refs(x) && ref !in Refs(fields[j])
  {
    LaysAllocated(g, g[ref].fields[j], fields[j]);
    assert k in fields ==> Refs(fields[j]) !! Refs(fields[k]);
    LaysElsewhere(g, h, g[ref].fields[j], fields[j]);
  }

  lemma RefsAfterSetting(ref: Ref, fields: map<string, Layout>, k: string, x: Layout, used: set<Ref>)
    requires Refs(x) * used <= if k in fields then Refs(fields[k]) else {}
    ensures Refs(Fields(ref, fields[k := x])) * used <= Refs(Fields(ref, fields))
  {
    var after := fields[k := x];
    forall r | r in Refs(Fields(ref, after)) && r in used ensures r in Refs(Fields(ref, fields)) {
      if r != ref {
        var j :| j in after && r in Refs(after[j]);
        if j in fields { FieldRefs(ref, fields, j); }
      }
    }
  }

  // One field of a record takes a new value; the rest of the record stays as it is.
  lemma SetField(g: Cells, h: Cells, ref: Ref, fields: map<string, Layout>, k: string, v: Value, x: Layout)
    requires Lays(g, At(ref), Fields(ref, fields)) && TreeShaped(Fields(ref, fields))
    requires ref in h && h[ref] == Rec(g[ref].fields[k := v]) && Lays(h, v, x) && TreeShaped(x) && ref !in Refs(x)
    requires Refs(x) * g.Keys <= if k in fields then Refs(fields[k]) else {}
    requires SameOn(g, h, g.Keys - {ref} - if k in fields then Refs(fields[k]) else {})
    ensures Lays(h, At(ref), Fields(ref, fields[k := x])) && TreeShaped(Fields(ref, fields[k := x]))
    ensures Refs(Fields(ref, fields[k := x])) * g.Keys <= Refs(Fields(ref, fields))
  {
    forall j | j in fields && j != k ensures Lays(h, h[ref].fields[j], fields[j]) && Refs(fields[j]) !! Refs(x) {
      OtherFieldsStay(g, h, ref, fields, k, v, x, j);
    }
    RefsAfterSetting(ref, fields, k, x, g.Keys);
    StaysATree(ref, fields, k, x);
    hide Refs, SameOn, TreeShaped;
  }

  lemma StaysATree(ref: Ref, fields: map<string, Layout>, k: string, x: Layout)
    requires TreeShaped(Fields(ref, fields)) && TreeShaped(x) && ref !in Refs(x)
    requires forall j | j in fields && j != k :: Refs(fields[j]) !! Refs(x)
    ensures TreeShaped(Fields(ref, fields[k := x]))
  {
    hide Refs;
  }

  lemma DropField(g: Cells, h: Cells, ref: Ref, fields: map<string, Layout>, k: string)
    requires Lays(g, At(ref), Fields(ref, fields)) && TreeShaped(Fields(ref, fields))
    requires h == g[ref := Rec(g[ref].fields - {k})]
    ensures Lays(h, At(ref), Fields(ref, fields - {k})) && TreeShaped(Fields(ref, fields - {k}))
    ensures Refs(Fields(ref, fields - {k})) <= Refs(Fields(ref, fields))
  {
    forall j | j in fields && j != k ensures Lays(h, h[ref].fields[j], fields[j]) {
      LaysElsewhere(g, h, g[ref].fields[j], fields[j]);
    }
  }

  function Descend(l: Layout, path: seq<string>): (r: Option<Layout>)
    ensures r.Some? && path != [] ==> l.Fields? && path[0] in l.fields
    decreases |path|
  {
    if path == [] then Some(l)
    else if l.Fields? && path[0] in l.fields then Descend(l.fields[path[0]], path[1..])
    else None
  }

  // All along the path both sides hold records, and at its end they hold two records or two arrays.
  ghost predicate SameKindAlong(l: Layout, m: Json, path: seq<string>)
    decreases |path|
  {
    if path == [] then (l.Items? && m.List?) || (l.Fields? && m.Dict?)
    else
      && l.Fields? && m.Dict? && path[0] in l.fields && path[0] in m.fields
      && SameKindAlong(l.fields[path[0]], m.fields[path[0]], path[1..])
  }

  // What keeping identity means for whoever holds a reference: an object reached through record keys is one
  // that existed before exactly when both sides agree on the kind all along the path, and then it is the
  // very object that was there.
  lemma {:induction false} LiveReferencesSurvive(l: Layout, m: Json, r: Layout, used: set<Ref>, path: seq<string>)
    requires KeepsIdentity(l, m, r, used) && Refs(l) <= used
    ensures Descend(r, path).Some? && !Descend(r, path).value.Atom? ==>
      && (Descend(r, path).value.ref in used <==> SameKindAlong(l, m, path))
      && (SameKindAlong(l, m, path) ==>
            Descend(l, path).Some? && !Descend(l, path).value.Atom? &&
              Descend(r, path).value.ref == Descend(l, path).value.ref)
    decreases |path|
  {
    if Descend(r, path).Some? && !Descend(r, path).value.Atom? {
      if l.Fields? && m.Dict? && path != [] && path[0] in l.fields {
        FieldRefs(l.ref, l.fields, path[0]);
        LiveReferencesSurvive(l.fields[path[0]], m.fields[path[0]], r.fields[path[0]], used, path[1..]);
      } else {
        RefOnPath(r, path);
        if l.Fields? && m.Dict? && path != [] {
          RefOnPath(r.fields[path[0]], path[1..]);
        }
      }
    }
  }

  lemma {:induction false} RefOnPath(l: Layout, path: seq<string>)
    requires Descend(l, path).Some? && !Descend(l, path).value.Atom?
    ensures Descend(l, path).value.ref in Refs(l)
    decreases |path|
  {
    if path != [] {
      FieldRefs(l.ref, l.fields, path[0]);
      RefOnPath(l.fields[path[0]], path[1..]);
    }
  }
}
