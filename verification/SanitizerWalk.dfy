/**
 The walk itself: one recursive visit that adds each object to a shared set before its entries and takes it
 out afterwards.
*/
module SanitizerWalk {
  import opened ObjectGraph
  import opened Sanitizer

  class Walker {
    var seen: set<Ref>

    constructor ()
      ensures seen == {}
    {
      seen := {};
    }

    // Termination is part of the result: every finite graph is walked to the end, and `seen` is left as found.
    method SanitizeUnknown(p: Policy, g: Graph, v: Value, verbose: bool) returns (t: Tree)
      requires Closed(g) && Fits(g, v)
      modifies this
      ensures seen == old(seen)
      ensures t == Sanitize(p, g, v, verbose, old(seen))
      decreases g.Keys - seen, 1
    {
      match v
      case Undefined => t := Undef;
      case Null => t := Nil;
      case Prim(text, truthy) => t := Scalar(text, truthy);
      case Str(text) => t := Text(p.redact(text));
      case Func => t := Function;
      case Fault(_, _, _) => t := Report(p, v, verbose);
      case At(r) =>
        if r in seen {
          return Circular;
        }
        assert g.Keys - (seen + {r}) < g.Keys - seen by { assert r in g.Keys - seen; }
        ghost var before := seen;
        seen := seen + {r};
        match g[r] {
          case List(items) =>
            var normalized := SanitizeItems(p, g, items, verbose);
            t := Items(normalized);
            assert t == Sanitize(p, g, v, verbose, before);
          case Record(fields) =>
            var result := SanitizeFields(p, g, fields, verbose);
            t := Fields(result);
            assert Sanitize(p, g, v, verbose, before).fields == result;
        }
        seen := seen - {r};
        assert seen == before;
    }

    method SanitizeItems(p: Policy, g: Graph, items: seq<Value>, verbose: bool) returns (normalized: seq<Tree>)
      requires Closed(g) && forall i | 0 <= i < |items| :: Fits(g, items[i])
      modifies this
      ensures seen == old(seen) && |normalized| == |items|
      ensures forall i | 0 <= i < |items| :: normalized[i] == Sanitize(p, g, items[i], verbose, old(seen))
      decreases g.Keys - seen, 2
    {
      normalized := [];
      for n := 0 to |items|
        invariant seen == old(seen) && |normalized| == n
        invariant forall i | 0 <= i < n :: normalized[i] == Sanitize(p, g, items[i], verbose, old(seen))
      {
        var t := SanitizeUnknown(p, g, items[n], verbose);
        normalized := normalized + [t];
      }
    }

    method SanitizeFields(p: Policy, g: Graph, fields: map<string, Value>, verbose: bool)
      returns (result: map<string, Tree>)
      requires Closed(g) && forall k | k in fields :: Fits(g, fields[k])
      modifies this
      ensures seen == old(seen)
      ensures result == map k | k in fields && Kept(p, k, fields[k]) ::
        if p.sensitive(k) then Redacted else Sanitize(p, g, fields[k], verbose, old(seen))
      decreases g.Keys - seen, 2
    {
      result := map[];
      var keys := fields.Keys;
      while keys != {}
        invariant keys <= fields.Keys && seen == old(seen)
        invariant result == map k | k in fields && k !in keys && Kept(p, k, fields[k]) ::
          if p.sensitive(k) then Redacted else Sanitize(p, g, fields[k], verbose, old(seen))
        decreases keys
      {
        var key :| key in keys;
        var entry := fields[key];
        keys := keys - {key};
        if entry.Func? {
          continue;
        }
        if p.sensitive(key) {
          result := Assign(result, key, Redacted);
          continue;
        }
        var t := SanitizeUnknown(p, g, entry, verbose);
        if t != Undef {
          result := Assign(result, key, t);
        }
      }
    }
  }

  function Assign(result: map<string, Tree>, key: string, t: Tree): map<string, Tree> {
    if key == Proto then result else result[key := t]
  }
}
