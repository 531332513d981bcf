/**
 Log metadata is sanitized twice: once when the pieces are merged and once more when the line is written.
 The second walk sees the first one's output as ordinary objects.
*/
module SanitizerAgain {
  import opened Options
  import opened ObjectGraph
  import opened Sanitizer

  const CircularText := "[Circular]"
  const RedactedText := "[redacted]"

  // The objects in the heap that stand for an output tree. They may share parts.
  ghost predicate Represents(g: Graph, v: Value, t: Tree)
    decreases t
  {
    match t
    case Undef => v == Undefined
    case Nil => v == Null
    case Scalar(text, truthy) => v == Prim(text, truthy)
    case Function => v == Func
    case Text(text) => v == Str(text)
    case Circular => v == Str(CircularText)
    case Redacted => v == Str(RedactedText)
    case Items(items) =>
      && v.At? && v.ref in g && g[v.ref].List? && |g[v.ref].items| == |items|
      && forall i | 0 <= i < |items| :: Represents(g, g[v.ref].items[i], items[i])
    case Fields(fields) =>
      && v.At? && v.ref in g && g[v.ref].Record? && g[v.ref].fields.Keys == fields.Keys
      && forall k | k in fields :: Represents(g, g[v.ref].fields[k], fields[k])
  }

  // Sanitizing a tree, with no graph and no marker in sight.
  function Again(p: Policy, t: Tree): (r: Tree)
    ensures (r.Undef? <==> t.Undef?) && (r.Function? <==> t.Function?)
    decreases t
  {
    match t
    case Undef => Undef
    case Nil => Nil
    case Scalar(text, truthy) => Scalar(text, truthy)
    case Function => Function
    case Text(text) => Text(p.redact(text))
    case Circular => Text(p.redact(CircularText))
    case Redacted => Text(p.redact(RedactedText))
    case Items(items) => Items(seq(|items|, i requires 0 <= i < |items| => Again(p, items[i])))
    case Fields(fields) =>
      Fields(map k | k in fields && k != Proto && !fields[k].Function? && (p.sensitive(k) || !fields[k].Undef?) ::
        if p.sensitive(k) then Redacted else Again(p, fields[k]))
  }

  // Everything below v is at most n levels deep in the heap.
  ghost predicate Shallow(g: Graph, v: Value, n: nat)
    decreases n
  {
    v.At? && v.ref in g ==>
      n > 0
      && match g[v.ref]
         case List(items) => forall i | 0 <= i < |items| :: Shallow(g, items[i], n - 1)
         case Record(fields) => forall k | k in fields :: Shallow(g, fields[k], n - 1)
  }

  ghost predicate Finite(g: Graph, v: Value) {
    exists n: nat :: Shallow(g, v, n)
  }

  ghost function Depth(g: Graph, v: Value, bound: nat): (n: nat)
    requires Shallow(g, v, bound)
    ensures n <= bound && Shallow(g, v, n) && (n > 0 ==> !Shallow(g, v, n - 1))
  {
    if bound == 0 || !Shallow(g, v, bound - 1) then bound else Depth(g, v, bound - 1)
  }

  lemma {:induction false} ShallowGrows(g: Graph, v: Value, m: nat, n: nat)
    requires m <= n && Shallow(g, v, m)
    ensures Shallow(g, v, n)
    decreases m
  {
    if v.At? && v.ref in g {
      match g[v.ref]
      case List(items) =>
        forall i | 0 <= i < |items| ensures Shallow(g, items[i], n - 1) { ShallowGrows(g, items[i], m - 1, n - 1); }
      case Record(fields) =>
        forall k | k in fields ensures Shallow(g, fields[k], n - 1) { ShallowGrows(g, fields[k], m - 1, n - 1); }
    }
  }

  lemma {:induction false} DeepestOf(g: Graph, values: set<Value>) returns (n: nat)
    requires forall v | v in values :: Finite(g, v)
    ensures forall v | v in values :: Shallow(g, v, n)
  {
    n := 0;
    if v :| v in values {
      var d: nat :| Shallow(g, v, d);
      var rest := DeepestOf(g, values - {v});
      n := d + rest;
      forall w | w in values ensures Shallow(g, w, n) {
        if w == v { ShallowGrows(g, w, d, n); } else { ShallowGrows(g, w, rest, n); }
      }
    }
  }

  // Whatever stands for a tree has a depth.
  lemma {:induction false} TreesAreFinite(g: Graph, v: Value, t: Tree)
    requires Represents(g, v, t)
    ensures Finite(g, v)
    decreases t
  {
    if t.Items? {
      var values := g[v.ref].items;
      forall i | 0 <= i < |values| ensures Finite(g, values[i]) { TreesAreFinite(g, values[i], t.items[i]); }
      var n := DeepestOf(g, set w | w in values);
      assert Shallow(g, v, n + 1);
    } else if t.Fields? {
      var values := g[v.ref].fields;
      forall k | k in values ensures Finite(g, values[k]) { TreesAreFinite(g, values[k], t.fields[k]); }
      var n := DeepestOf(g, values.Values);
      assert Shallow(g, v, n + 1);
    } else {
      assert Shallow(g, v, 0);
    }
  }

  // No object being visited is as shallow as what is still to come.
  ghost predicate Deeper(g: Graph, seen: set<Ref>, n: nat) {
    forall r | r in seen :: !Shallow(g, At(r), n)
  }

  lemma Below(g: Graph, v: Value, seen: set<Ref>, bound: nat) returns (n: nat)
    requires v.At? && v.ref in g && Shallow(g, v, bound) && Deeper(g, seen, bound)
    ensures v.ref !in seen && Shallow(g, v, n + 1) && Deeper(g, seen + {v.ref}, n)
  {
    n := Depth(g, v, bound) - 1;
    forall r | r in seen ensures !Shallow(g, At(r), n) {
      if Shallow(g, At(r), n) {
        ShallowGrows(g, At(r), n, bound);
      }
    }
  }

  // Main result: over any heap that stands for an output tree, the walk is the one over the tree. It meets
  // no object twice on a path, and the `verbose` flag no longer matters.
  lemma {:induction false} SecondWalk(p: Policy, g: Graph, v: Value, t: Tree, verbose: bool, seen: set<Ref>, bound: nat)
    requires Closed(g) && Fits(g, v) && Represents(g, v, t)
    requires Shallow(g, v, bound) && Deeper(g, seen, bound)
    ensures Sanitize(p, g, v, verbose, seen) == Again(p, t)
    decreases t
  {
    if t.Items? {
      var n := Below(g, v, seen, bound);
      var values := g[v.ref].items;
      forall i | 0 <= i < |values| ensures Sanitize(p, g, values[i], verbose, seen + {v.ref}) == Again(p, t.items[i]) {
        SecondWalk(p, g, values[i], t.items[i], verbose, seen + {v.ref}, n);
      }
    } else if t.Fields? {
      var n := Below(g, v, seen, bound);
      var values := g[v.ref].fields;
      forall k | k in values ensures Sanitize(p, g, values[k], verbose, seen + {v.ref}) == Again(p, t.fields[k]) {
        SecondWalk(p, g, values[k], t.fields[k], verbose, seen + {v.ref}, n);
      }
      FieldsAgree(p, g, v, t, verbose, seen);
    }
  }

  lemma SameKind(g: Graph, v: Value, t: Tree)
    requires Represents(g, v, t)
    ensures (v.Func? <==> t.Function?) && (v.Undefined? <==> t.Undef?)
  {
  }

  lemma FieldsAgree(p: Policy, g: Graph, v: Value, t: Tree, verbose: bool, seen: set<Ref>)
    requires Closed(g) && Fits(g, v) && Represents(g, v, t) && t.Fields? && v.ref !in seen
    requires forall k | k in t.fields ::
      Sanitize(p, g, g[v.ref].fields[k], verbose, seen + {v.ref}) == Again(p, t.fields[k])
    ensures Sanitize(p, g, v, verbose, seen) == Again(p, t)
  {
    hide Kept;
    var s, a := Sanitize(p, g, v, verbose, seen), Again(p, t);
    var values := g[v.ref].fields;
    forall k | k in values ensures Kept(p, k, values[k]) <==> k in a.fields {
      KeptAgrees(p, g, k, values[k], t.fields[k]);
    }
    assert s.fields == a.fields;
  }

  lemma KeptAgrees(p: Policy, g: Graph, k: string, v: Value, t: Tree)
    requires Represents(g, v, t)
    ensures Kept(p, k, v) <==> k != Proto && !t.Function? && (p.sensitive(k) || !t.Undef?)
  {
    SameKind(g, v, t);
  }

  lemma {:induction false} AgainHasNoMarkers(p: Policy, t: Tree, path: seq<Label>)
    ensures Find(Again(p, t), path) != Some(Circular)
    decreases |path|
  {
    if path != [] && Child(Again(p, t), path[0]).Some? {
      var child := Child(Again(p, t), path[0]).value;
      if child != Redacted {
        AgainHasNoMarkers(p, Child(t, path[0]).value, path[1..]);
      }
    }
  }

  lemma {:induction false} AgainIsRedacted(p: Policy, t: Tree, path: seq<Label>, k: string)
    requires Find(Again(p, t), path).Some? && Find(Again(p, t), path).value.Fields? &&
      k in Find(Again(p, t), path).value.fields
    requires p.sensitive(k)
    ensures Find(Again(p, t), path).value.fields[k] == Redacted
    decreases |path|
  {
    if path != [] {
      var child := Child(Again(p, t), path[0]).value;
      if child != Redacted {
        AgainIsRedacted(p, Child(t, path[0]).value, path[1..], k);
      }
    }
  }

  // Sanitizing what was sanitized twice changes nothing more.
  lemma {:induction false} AgainTwice(p: Policy, t: Tree)
    requires forall s :: p.redact(p.redact(s)) == p.redact(s)
    ensures Again(p, Again(p, t)) == Again(p, t)
    decreases t
  {
    var a := Again(p, t);
    if t.Items? {
      forall i | 0 <= i < |t.items| ensures Again(p, a.items[i]) == a.items[i] { AgainTwice(p, t.items[i]); }
      assert Again(p, a).items == a.items;
    } else if t.Fields? {
      forall k | k in a.fields ensures p.sensitive(k) || Again(p, a.fields[k]) == a.fields[k] {
        AgainTwice(p, t.fields[k]);
      }
      assert forall k | k in a.fields ::
        k != Proto && !a.fields[k].Function? && (p.sensitive(k) || !a.fields[k].Undef?);
      assert Again(p, a).fields.Keys == a.fields.Keys;
      assert Again(p, a).fields == a.fields;
    }
  }

  function SanitizeObject(p: Policy, g: Graph, v: Value): map<string, Tree>
    requires Closed(g) && Fits(g, v)
  {
    var t := Sanitize(p, g, v, false, {});
    if t.Fields? then t.fields else map[]
  }

  predicate Truthy(t: Tree) {
    match t
    case Undef => false
    case Nil => false
    case Scalar(_, truthy) => truthy
    case Text(text) => text != ""
    case Function => true
    case Circular => true
    case Redacted => true
    case Items(_) => true
    case Fields(_) => true
  }

  // The logger's own bindings and the metadata of the call, in one record; None when there is nothing to say.
  function MergeMeta(p: Policy, g: Graph, bindings: Value, meta: Value): Option<Tree>
    requires Closed(g) && Fits(g, bindings) && Fits(g, meta)
  {
    var m := Sanitize(p, g, meta, true, {});
    var b := SanitizeObject(p, g, bindings);
    if !Truthy(m) && b == map[] then None
    else if m.Fields? then Some(Fields(b + m.fields))
    else Some(Fields(b["detail" := m]))
  }

  // Main result: whatever was logged, and however the merged record lies in memory, the written metadata
  // adds no marker of its own and shows nothing under a sensitive key, error reports included.
  lemma {:induction false} WrittenMetadataIsSafe(p: Policy, g: Graph, bindings: Value, meta: Value, h: Graph,
      v: Value, verbose: bool)
    requires Closed(g) && Fits(g, bindings) && Fits(g, meta)
    requires MergeMeta(p, g, bindings, meta).Some?
    requires Closed(h) && Fits(h, v) && Represents(h, v, MergeMeta(p, g, bindings, meta).value)
    ensures Sanitize(p, h, v, verbose, {}) == Again(p, MergeMeta(p, g, bindings, meta).value)
    ensures AllRedacted(p, Sanitize(p, h, v, verbose, {}))
    ensures forall path :: Find(Sanitize(p, h, v, verbose, {}), path) != Some(Circular)
  {
    var t := MergeMeta(p, g, bindings, meta).value;
    TreesAreFinite(h, v, t);
    var bound: nat :| Shallow(h, v, bound);
    SecondWalk(p, h, v, t, verbose, {}, bound);
    var a := Again(p, t);
    forall path ensures Find(a, path) != Some(Circular) {
      AgainHasNoMarkers(p, t, path);
    }
    forall path, k | Find(a, path).Some? && Find(a, path).value.Fields? && k in Find(a, path).value.fields &&
      p.sensitive(k)
      ensures Find(a, path).value.fields[k] == Redacted
    {
      AgainIsRedacted(p, t, path, k);
    }
  }
}
