/** Output trees as objects in memory: every tree has a heap that stands for it. */
module SanitizerHeap {
  import opened ObjectGraph
  import opened Sanitizer
  import opened SanitizerAgain

  ghost predicate Extends(h: Graph, g: Graph) {
    forall r | r in g :: r in h && h[r] == g[r]
  }

  lemma {:induction false} RepresentsInExtension(g: Graph, h: Graph, v: Value, t: Tree)
    requires Extends(h, g) && Represents(g, v, t)
    ensures Represents(h, v, t)
    decreases t
  {
    if t.Items? {
      forall i | 0 <= i < |t.items| ensures Represents(h, h[v.ref].items[i], t.items[i]) {
        RepresentsInExtension(g, h, g[v.ref].items[i], t.items[i]);
      }
    } else if t.Fields? {
      forall k | k in t.fields ensures Represents(h, h[v.ref].fields[k], t.fields[k]) {
        RepresentsInExtension(g, h, g[v.ref].fields[k], t.fields[k]);
      }
    }
  }

  lemma {:induction false} AllocateItems(g: Graph, t: Tree, n: nat) returns (h: Graph, values: seq<Value>)
    requires Closed(g) && t.Items? && n <= |t.items|
    ensures Closed(h) && Extends(h, g) && |values| == n
    ensures forall i | 0 <= i < n :: Fits(h, values[i]) && Represents(h, values[i], t.items[i])
    decreases t, 0, n
  {
    if n == 0 {
      h, values := g, [];
    } else {
      var g1, rest := AllocateItems(g, t, n - 1);
      var h1, v := Allocate(g1, t.items[n - 1]);
      h, values := h1, rest + [v];
      forall i | 0 <= i < n - 1 ensures Represents(h, rest[i], t.items[i]) {
        RepresentsInExtension(g1, h, rest[i], t.items[i]);
      }
    }
  }

  lemma {:induction false} AllocateFields(g: Graph, t: Tree, keys: set<string>)
    returns (h: Graph, values: map<string, Value>)
    requires Closed(g) && t.Fields? && keys <= t.fields.Keys
    ensures Closed(h) && Extends(h, g) && values.Keys == keys
    ensures forall k | k in keys :: Fits(h, values[k]) && Represents(h, values[k], t.fields[k])
    decreases t, 0, keys
  {
    if keys == {} {
      h, values := g, map[];
    } else {
      var key :| key in keys;
      var g1, rest := AllocateFields(g, t, keys - {key});
      var h1, v := Allocate(g1, t.fields[key]);
      h, values := h1, rest[key := v];
      forall k | k in keys && k != key ensures Represents(h, rest[k], t.fields[k]) {
        RepresentsInExtension(g1, h, rest[k], t.fields[k]);
      }
    }
  }

  // The heap a tree is written to exists, whatever the heap already holds.
  lemma {:induction false} Allocate(g: Graph, t: Tree) returns (h: Graph, v: Value)
    requires Closed(g)
    ensures Closed(h) && Extends(h, g) && Fits(h, v) && Represents(h, v, t)
    decreases t, 1
  {
    h := g;
    match t
    case Undef => v := Undefined;
    case Nil => v := Null;
    case Scalar(text, truthy) => v := Prim(text, truthy);
    case Function => v := Func;
    case Text(text) => v := Str(text);
    case Circular => v := Str(CircularText);
    case Redacted => v := Str(RedactedText);
    case Items(items) =>
      var g1, values := AllocateItems(g, t, |items|);
      var r := UnusedRef(g1.Keys);
      h, v := g1[r := List(values)], At(r);
      forall i | 0 <= i < |items| ensures Represents(h, values[i], items[i]) {
        RepresentsInExtension(g1, h, values[i], items[i]);
      }
    case Fields(fields) =>
      var g1, values := AllocateFields(g, t, fields.Keys);
      var r := UnusedRef(g1.Keys);
      h, v := g1[r := Record(values)], At(r);
      forall k | k in fields ensures Represents(h, values[k], fields[k]) {
        RepresentsInExtension(g1, h, values[k], fields[k]);
      }
  }
}
