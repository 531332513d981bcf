/**
 JavaScript values as a log call can receive them: a heap of arrays and records whose entries refer to one
 another freely, cycles included, and the finite trees that are written out.
*/
module ObjectGraph {
  import opened Options

  type Ref = nat

  datatype Value =
    | Undefined
    | Null
    | Prim(text: string, truthy: bool)   // a number, boolean or symbol
    | Str(text: string)
    | Func
    | Fault(message: string, code: Option<string>, stack: Option<string>)   // an Error object
    | At(ref: Ref)

  datatype Cell = List(items: seq<Value>) | Record(fields: map<string, Value>)

  type Graph = map<Ref, Cell>

  predicate Fits(g: Graph, v: Value) {
    v.At? ==> v.ref in g
  }

  // Every reference leads somewhere.
  predicate Closed(g: Graph) {
    forall r | r in g ::
      match g[r]
      case List(items) => forall i | 0 <= i < |items| :: Fits(g, items[i])
      case Record(fields) => forall k | k in fields :: Fits(g, fields[k])
  }

  datatype Tree =
    | Undef
    | Nil
    | Scalar(text: string, truthy: bool)
    | Function
    | Text(text: string)
    | Circular
    | Redacted
    | Items(items: seq<Tree>)
    | Fields(fields: map<string, Tree>)

  datatype Label = Index(i: nat) | Key(key: string)

  function Child(t: Tree, step: Label): Option<Tree> {
    match step
    case Index(i) => if t.Items? && i < |t.items| then Some(t.items[i]) else None
    case Key(k) => if t.Fields? && k in t.fields then Some(t.fields[k]) else None
  }

  function Find(t: Tree, path: seq<Label>): Option<Tree> {
    if path == [] then Some(t)
    else
      var child := Child(t, path[0]);
      if child.Some? then Find(child.value, path[1..]) else None
  }

  lemma {:induction false} UnusedRef(refs: set<Ref>) returns (r: Ref)
    ensures forall s | s in refs :: s < r
  {
    r := 0;
    if s :| s in refs {
      var rest := UnusedRef(refs - {s});
      r := s + rest + 1;
      assert forall q | q in refs :: q == s || q in refs - {s};
    }
  }
}
