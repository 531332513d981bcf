/**
 Turning a value of any shape into something safe to log: functions go, sensitive keys are redacted, and a
 reference to an object that is still being visited becomes a marker.
*/
module Sanitizer {
  import opened Options
  import opened ObjectGraph

  // Which keys are sensitive and what is cut out of strings is decided elsewhere.
  datatype Policy = Policy(sensitive: string -> bool, redact: string -> string)

  // Assigning this key sets the prototype and leaves no entry behind.
  const Proto := "__proto__"

  predicate Kept(p: Policy, key: string, entry: Value) {
    !entry.Func? && key != Proto && (p.sensitive(key) || !entry.Undefined?)
  }

  function Report(p: Policy, e: Value, verbose: bool): Tree
    requires e.Fault?
  {
    Fields(map[
      "error" := Text(p.redact(e.message)),
      "code" := if e.code.Some? then Text(e.code.value) else Undef,
      "stack" := if verbose && e.stack.Some? && e.stack.value != "" then Text(p.redact(e.stack.value)) else Undef])
  }

  function Sanitize(p: Policy, g: Graph, v: Value, verbose: bool, seen: set<Ref>): (t: Tree)
    requires Closed(g) && Fits(g, v)
    ensures t.Undef? <==> v.Undefined?
    ensures t.Circular? <==> v.At? && v.ref in seen
    decreases g.Keys - seen
  {
    match v
    case Undefined => Undef
    case Null => Nil
    case Prim(text, truthy) => Scalar(text, truthy)
    case Str(text) => Text(p.redact(text))
    case Func => Function
    case Fault(_, _, _) => Report(p, v, verbose)
    case At(r) =>
      if r in seen then Circular
      else
        assert g.Keys - (seen + {r}) < g.Keys - seen by { assert r in g.Keys - seen; }
        match g[r]
        case List(items) =>
          Items(seq(|items|, i requires 0 <= i < |items| => Sanitize(p, g, items[i], verbose, seen + {r})))
        case Record(fields) =>
          Fields(map k | k in fields && Kept(p, k, fields[k]) ::
            if p.sensitive(k) then Redacted else Sanitize(p, g, fields[k], verbose, seen + {r}))
  }

  // One edge of the graph the walk may take.
  function Follow(p: Policy, g: Graph, v: Value, step: Label): Option<Value> {
    if !v.At? || v.ref !in g then None
    else
      match g[v.ref]
      case List(items) => if step.Index? && step.i < |items| then Some(items[step.i]) else None
      case Record(fields) =>
        if step.Key? && step.key in fields && Kept(p, step.key, fields[step.key]) && !p.sensitive(step.key)
        then Some(fields[step.key]) else None
  }

  // The value at the end of a path through the graph itself, cycles and all.
  function Walk(p: Policy, g: Graph, v: Value, path: seq<Label>): Option<Value>
    decreases |path|
  {
    if path == [] then Some(v)
    else
      var next := Follow(p, g, v, path[0]);
      if next.Some? then Walk(p, g, next.value, path[1..]) else None
  }

  // The objects left behind on the way, in order.
  function Passed(p: Policy, g: Graph, v: Value, path: seq<Label>): (refs: seq<Ref>)
    requires Walk(p, g, v, path).Some?
    ensures |refs| == |path|
    ensures forall r | r in refs :: r in g
    decreases |path|
  {
    if path == [] then [] else [v.ref] + Passed(p, g, Follow(p, g, v, path[0]).value, path[1..])
  }

  // The objects on the path are all different and none is in `seen`.
  predicate Fresh(refs: seq<Ref>, seen: set<Ref>) {
    && (forall i | 0 <= i < |refs| :: refs[i] !in seen)
    && (forall i, j | 0 <= i < j < |refs| :: refs[i] != refs[j])
  }

  predicate Reaches(p: Policy, g: Graph, v: Value, path: seq<Label>) {
    Walk(p, g, v, path).Some?
  }

  lemma {:induction false} WalkFits(p: Policy, g: Graph, v: Value, path: seq<Label>)
    requires Closed(g) && Fits(g, v) && Walk(p, g, v, path).Some?
    ensures Fits(g, Walk(p, g, v, path).value)
    decreases |path|
  {
    if path != [] {
      WalkFits(p, g, Follow(p, g, v, path[0]).value, path[1..]);
    }
  }

  lemma ChildFollows(p: Policy, g: Graph, v: Value, verbose: bool, seen: set<Ref>, step: Label)
    requires Closed(g) && Fits(g, v)
    ensures Follow(p, g, v, step).Some? && v.ref !in seen ==>
      && Fits(g, Follow(p, g, v, step).value)
      && Child(Sanitize(p, g, v, verbose, seen), step) ==
        Some(Sanitize(p, g, Follow(p, g, v, step).value, verbose, seen + {v.ref}))
    ensures Child(Sanitize(p, g, v, verbose, seen), step).Some? ==>
      || v.Fault?
      || (v.At? && v.ref !in seen && Follow(p, g, v, step).Some?)
      || Child(Sanitize(p, g, v, verbose, seen), step) == Some(Redacted)
  {
  }

  // What the output holds at the end of any walk that met no object twice on its way.
  lemma {:induction false} OutputAlongAWalk(p: Policy, g: Graph, v: Value, verbose: bool, seen: set<Ref>,
      path: seq<Label>)
    requires Closed(g) && Fits(g, v)
    requires Reaches(p, g, v, path) && Fresh(Passed(p, g, v, path), seen)
    ensures Fits(g, Walk(p, g, v, path).value)
    ensures Find(Sanitize(p, g, v, verbose, seen), path)
      == Some(Sanitize(p, g, Walk(p, g, v, path).value, verbose, seen + Range(Passed(p, g, v, path))))
    decreases |path|
  {
    WalkFits(p, g, v, path);
    if path == [] {
      assert seen + Range(Passed(p, g, v, path)) == seen;
    } else {
      var next := Follow(p, g, v, path[0]).value;
      var refs := Passed(p, g, v, path);
      var rest := Passed(p, g, next, path[1..]);
      assert refs[0] == v.ref && refs[1..] == rest;
      ChildFollows(p, g, v, verbose, seen, path[0]);
      assert Fresh(rest, seen + {v.ref}) by {
        forall i | 0 <= i < |rest| ensures rest[i] !in seen + {v.ref} && rest[i] == refs[i + 1] {}
      }
      OutputAlongAWalk(p, g, next, verbose, seen + {v.ref}, path[1..]);
      assert seen + {v.ref} + Range(rest) == seen + Range(refs);
    }
  }

  function Range(refs: seq<Ref>): set<Ref> {
    set r | r in refs
  }

  // The output goes no further than such walks do, except into a redacted entry or an error's report.
  lemma {:induction false} OutputFollowsTheGraph(p: Policy, g: Graph, v: Value, verbose: bool, seen: set<Ref>,
      path: seq<Label>)
    requires Closed(g) && Fits(g, v)
    requires Find(Sanitize(p, g, v, verbose, seen), path).Some?
    ensures
      || (Reaches(p, g, v, path) && Fresh(Passed(p, g, v, path), seen))
      || (path != [] && Find(Sanitize(p, g, v, verbose, seen), path).value in {Redacted, Undef})
      || (path != [] && Find(Sanitize(p, g, v, verbose, seen), path).value.Text?)
    decreases |path|
  {
    if path != [] {
      ChildFollows(p, g, v, verbose, seen, path[0]);
      var t := Sanitize(p, g, v, verbose, seen);
      var child := Child(t, path[0]).value;
      if v.At? && v.ref !in seen && Follow(p, g, v, path[0]).Some? {
        var next := Follow(p, g, v, path[0]).value;
        OutputFollowsTheGraph(p, g, next, verbose, seen + {v.ref}, path[1..]);
        if Reaches(p, g, next, path[1..]) && Fresh(Passed(p, g, next, path[1..]), seen + {v.ref}) {
          var rest := Passed(p, g, next, path[1..]);
          assert Passed(p, g, v, path) == [v.ref] + rest;
        }
      } else {
        assert child in {Redacted, Undef} || child.Text?;
        assert path[1..] == [];
      }
    }
  }

  // The walk ends at an object it already passed.
  predicate Revisits(p: Policy, g: Graph, v: Value, path: seq<Label>) {
    && Reaches(p, g, v, path)
    && Walk(p, g, v, path).value.At?
    && Walk(p, g, v, path).value.ref in Passed(p, g, v, path)
  }

  // Main result: the marker stands exactly where a walk comes back, for the first time, to an object on
  // the current path.
  lemma {:induction false} CircularExactlyOnRevisits(p: Policy, g: Graph, v: Value, verbose: bool, path: seq<Label>)
    requires Closed(g) && Fits(g, v)
    ensures Find(Sanitize(p, g, v, verbose, {}), path) == Some(Circular)
      <==> Revisits(p, g, v, path) && Fresh(Passed(p, g, v, path), {})
  {
    if Find(Sanitize(p, g, v, verbose, {}), path) == Some(Circular) {
      OutputFollowsTheGraph(p, g, v, verbose, {}, path);
    }
    if Reaches(p, g, v, path) && Fresh(Passed(p, g, v, path), {}) {
      OutputAlongAWalk(p, g, v, verbose, {}, path);
      var refs := Passed(p, g, v, path);
      assert {} + Range(refs) == Range(refs);
    }
  }

  lemma {:induction false} WalkPrefix(p: Policy, g: Graph, v: Value, path: seq<Label>, n: nat)
    requires Reaches(p, g, v, path) && n < |path|
    ensures Reaches(p, g, v, path[..n])
    ensures Passed(p, g, v, path[..n]) == Passed(p, g, v, path)[..n]
    ensures Walk(p, g, v, path[..n]) == Some(At(Passed(p, g, v, path)[n]))
    decreases n
  {
    if n > 0 {
      var next := Follow(p, g, v, path[0]).value;
      WalkPrefix(p, g, next, path[1..], n - 1);
      assert path[..n][0] == path[0] && path[..n][1..] == path[1..][..n - 1];
      assert Passed(p, g, v, path) == [v.ref] + Passed(p, g, next, path[1..]);
    } else {
      assert path[..0] == [];
    }
  }

  // The shortest walk that comes back anywhere.
  lemma {:induction false} FirstRevisit(p: Policy, g: Graph, v: Value, path: seq<Label>) returns (n: nat)
    requires Revisits(p, g, v, path)
    ensures n <= |path| && Revisits(p, g, v, path[..n]) && Fresh(Passed(p, g, v, path[..n]), {})
    decreases |path|
  {
    var refs := Passed(p, g, v, path);
    if Fresh(refs, {}) {
      n := |path|;
      assert path[..n] == path;
    } else {
      var i, j :| 0 <= i < j < |refs| && refs[i] == refs[j];
      WalkPrefix(p, g, v, path, j);
      assert refs[..j][i] == refs[j];
      n := FirstRevisit(p, g, v, path[..j]);
      assert path[..j][..n] == path[..n];
    }
  }

  // Sharing alone never produces the marker: it appears if and only if some walk runs in a circle.
  lemma {:induction false} CircularIffACycleIsReachable(p: Policy, g: Graph, v: Value, verbose: bool)
    requires Closed(g) && Fits(g, v)
    ensures (exists path :: Find(Sanitize(p, g, v, verbose, {}), path) == Some(Circular))
      <==> (exists path :: Revisits(p, g, v, path))
  {
    if path :| Find(Sanitize(p, g, v, verbose, {}), path) == Some(Circular) {
      CircularExactlyOnRevisits(p, g, v, verbose, path);
      assert Revisits(p, g, v, path);
    }
    if path :| Revisits(p, g, v, path) {
      var n := FirstRevisit(p, g, v, path);
      CircularExactlyOnRevisits(p, g, v, verbose, path[..n]);
    }
  }

  // Under every sensitive key, at every depth, stands the redaction marker.
  ghost predicate AllRedacted(p: Policy, t: Tree) {
    forall path, k | Find(t, path).Some? && Find(t, path).value.Fields? && k in Find(t, path).value.fields &&
      p.sensitive(k) ::
      Find(t, path).value.fields[k] == Redacted
  }

  // The report of an error is written without looking at its keys.
  predicate ReportKeysArePlain(p: Policy) {
    !p.sensitive("error") && !p.sensitive("code") && !p.sensitive("stack")
  }

  lemma {:induction false} RedactedBelow(p: Policy, g: Graph, v: Value, verbose: bool, seen: set<Ref>,
      path: seq<Label>, k: string)
    requires Closed(g) && Fits(g, v) && ReportKeysArePlain(p) && p.sensitive(k)
    requires Find(Sanitize(p, g, v, verbose, seen), path).Some? &&
      Find(Sanitize(p, g, v, verbose, seen), path).value.Fields?
    requires k in Find(Sanitize(p, g, v, verbose, seen), path).value.fields
    ensures Find(Sanitize(p, g, v, verbose, seen), path).value.fields[k] == Redacted
  {
    OutputFollowsTheGraph(p, g, v, verbose, seen, path);
    OutputAlongAWalk(p, g, v, verbose, seen, path);
  }

  // Main result: every sensitive key is redacted in every output, exactly when none of the keys an error
  // report uses is itself sensitive.
  lemma {:induction false} SensitiveKeysAreRedacted(p: Policy, verbose: bool)
    ensures (forall g: Graph, v | Closed(g) && Fits(g, v) :: AllRedacted(p, Sanitize(p, g, v, verbose, {})))
      <==> ReportKeysArePlain(p)
  {
    if ReportKeysArePlain(p) {
      forall g: Graph, v | Closed(g) && Fits(g, v) ensures AllRedacted(p, Sanitize(p, g, v, verbose, {})) {
        var t := Sanitize(p, g, v, verbose, {});
        forall path, k | Find(t, path).Some? && Find(t, path).value.Fields? && k in Find(t, path).value.fields &&
          p.sensitive(k)
          ensures Find(t, path).value.fields[k] == Redacted
        {
          RedactedBelow(p, g, v, verbose, {}, path, k);
        }
      }
    } else {
      var g: Graph := map[];
      var v := Fault("", None, None);
      var t := Sanitize(p, g, v, verbose, {});
      assert Find(t, []) == Some(t);
      assert !AllRedacted(p, t);
      assert Closed(g) && Fits(g, v);
    }
  }

  // Nothing a sensitive key holds can be seen: replacing it changes no output.
  predicate SameButForSecrets(p: Policy, g: Graph, h: Graph) {
    && g.Keys == h.Keys
    && forall r | r in g ::
        if g[r].List? then h[r] == g[r]
        else
          && h[r].Record? && h[r].fields.Keys == g[r].fields.Keys
          && forall k | k in g[r].fields ::
              h[r].fields[k] == g[r].fields[k]
              || (p.sensitive(k) && !g[r].fields[k].Func? && !h[r].fields[k].Func?)
  }

  lemma {:induction false} SecretsDoNotShow(p: Policy, g: Graph, h: Graph, v: Value, verbose: bool, seen: set<Ref>)
    requires Closed(g) && Closed(h) && Fits(g, v) && SameButForSecrets(p, g, h)
    ensures Fits(h, v)
    ensures Sanitize(p, g, v, verbose, seen) == Sanitize(p, h, v, verbose, seen)
    decreases g.Keys - seen
  {
    if v.At? && v.ref !in seen {
      var r := v.ref;
      assert g.Keys - (seen + {r}) < g.Keys - seen by { assert r in g.Keys - seen; }
      var t, u := Sanitize(p, g, v, verbose, seen), Sanitize(p, h, v, verbose, seen);
      match g[r]
      case List(items) =>
        assert h[r] == g[r];
        forall i | 0 <= i < |items| ensures t.items[i] == u.items[i] {
          SecretsDoNotShow(p, g, h, items[i], verbose, seen + {r});
        }
      case Record(fields) =>
        forall k | k in fields && Kept(p, k, fields[k]) ensures k in u.fields && t.fields[k] == u.fields[k] {
          if !p.sensitive(k) {
            SecretsDoNotShow(p, g, h, fields[k], verbose, seen + {r});
          }
        }
        assert t.fields.Keys == u.fields.Keys;
        assert t.fields == u.fields;
    }
  }
}
