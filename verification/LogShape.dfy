/** The written line: sanitized metadata cut down to a few fields, or summarized request by request. */
module LogShape {
  import opened Options
  import opened EnvText
  import opened KeyRule
  import opened ObjectGraph
  import opened Sanitizer
  import opened SanitizerAgain

  // The keys a compact line keeps, by their words.
  const CompactNames: seq<seq<string>> := TimeNames + PlaceNames + OtherNames

  const TimeNames: seq<seq<string>> := [
    ["duration", "ms"], ["elapsed", "ms"], ["health", "elapsed", "ms"], ["response", "time"],
    ["spawn", "elapsed", "ms"], ["startup", "elapsed", "ms"], ["timeout", "ms"]]

  const PlaceNames: seq<seq<string>> := [
    ["address"], ["auth", "mode"], ["fallback", "used"], ["host"], ["method"], ["override", "env"], ["path"], ["pid"],
    ["port"], ["route"], ["url"]]

  const OtherNames: seq<seq<string>> := [
    ["code"], ["error"], ["reason"], ["req", "id"], ["retry", "index"], ["signal"], ["status"], ["status", "code"],
    ["stderr"], ["stdout"]]

  // The names a summary has for fields of its own.
  const SummaryNames: seq<seq<string>> := [
    ["id"], ["method"], ["url"], ["route"], ["correlation", "id"], ["trace", "id"], ["origin", "surface"],
    ["session", "id"], ["auth", "actor", "id"], ["auth", "actor", "source"], ["status", "code"], ["status", "message"]]

  predicate PlainWords(words: seq<string>) {
    words != [] && forall i | 0 <= i < |words| :: Plain(words[i])
  }

  predicate HarmlessName(words: seq<string>) {
    && PlainWords(words)
    && forall i | 0 <= i < |words| :: words[i] !in SecretWords && words[i] !in {"key", "token"}
  }

  lemma NamesAreHarmless()
    ensures forall k | 0 <= k < |TimeNames| :: HarmlessName(TimeNames[k])
    ensures forall k | 0 <= k < |PlaceNames| :: HarmlessName(PlaceNames[k])
    ensures forall k | 0 <= k < |OtherNames| :: HarmlessName(OtherNames[k])
    ensures forall k | 0 <= k < |SummaryNames| :: HarmlessName(SummaryNames[k])
  {
    TimeNamesAreHarmless();
    PlaceNamesAreHarmless();
    OtherNamesAreHarmless();
    SummaryNamesAreHarmless();
    hide HarmlessName;
  }

  lemma TimeNamesAreHarmless()
    ensures forall k | 0 <= k < |TimeNames| :: HarmlessName(TimeNames[k])
  {
  }

  lemma PlaceNamesAreHarmless()
    ensures forall k | 0 <= k < |PlaceNames| :: HarmlessName(PlaceNames[k])
  {
  }

  lemma OtherNamesAreHarmless()
    ensures forall k | 0 <= k < |OtherNames| :: HarmlessName(OtherNames[k])
  {
  }

  lemma SummaryNamesAreHarmless()
    ensures forall k | 0 <= k < |SummaryNames| :: HarmlessName(SummaryNames[k])
  {
  }

  // The key with these words.
  function Name(words: seq<string>): string {
    if PlainWords(words) then Camel(words) else ""
  }

  predicate IsCompactName(key: string) {
    exists k | 0 <= k < |CompactNames| :: key == Name(CompactNames[k])
  }

  // ---------------------------------------------------------------- the compact line

  predicate IsObject(t: Tree) {
    t.Items? || t.Fields?
  }

  function Get(t: Tree, key: string): Tree {
    if t.Fields? && key in t.fields then t.fields[key] else Undef
  }

  // The entries of an object in the order its keys were added.
  type Order = set<string> -> seq<string>

  ghost predicate Enumerates(order: Order) {
    forall keys :: (forall k | k in order(keys) :: k in keys) && (forall k | k in keys :: k in order(keys))
  }

  function Compact(order: Order, t: Tree): Tree
    requires Enumerates(order)
    decreases t, 1, 0
  {
    match t
    case Items(items) => Items(Defined(seq(|items|, i requires 0 <= i < |items| => Compact(order, items[i]))))
    case Fields(fields) => Fields(CompactFields(order, t, order(fields.Keys), map[]))
    case Undef => t
    case Nil => t
    case Scalar(_, _) => t
    case Function => t
    case Text(_) => t
    case Circular => t
    case Redacted => t
  }

  function Defined(items: seq<Tree>): (r: seq<Tree>)
    ensures forall x | x in r :: x in items
  {
    if items == [] then [] else (if items[0].Undef? then [] else [items[0]]) + Defined(items[1..])
  }

  // The loop over the entries that are left.
  function CompactFields(order: Order, t: Tree, keys: seq<string>, result: map<string, Tree>): map<string, Tree>
    requires Enumerates(order) && t.Fields? && forall k | k in keys :: k in t.fields
    decreases t, 0, |keys|
  {
    if keys == [] then result
    else
      var key, rest := keys[0], keys[1..];
      var entry := t.fields[key];
      var next :=
        if IsCompactName(key) then result[key := Compact(order, entry)]
        else if key == "err" then result[Name(["error"]) := Compact(order, entry)]
        else if key == "req" && IsObject(entry) then
          result[Name(["req", "id"]) := CompactGet(order, entry, "id")]
                [Name(["method"]) := CompactGet(order, entry, "method")]
                [Name(["url"]) := CompactGet(order, entry, "url")]
        else if key == "res" && IsObject(entry) then
          result[Name(["status", "code"]) := CompactGet(order, entry, "statusCode")]
        else if key == "context" && IsObject(entry) then
          result[Name(["error"]) := CompactGet(order, entry, "error")]
                [Name(["reason"]) := CompactGet(order, entry, "reason")]
                [Name(["retry", "index"]) := CompactGet(order, entry, "retryIndex")]
                [Name(["fallback", "used"]) := CompactGet(order, entry, "fallbackUsed")]
        else result;
      CompactFields(order, t, rest, next)
  }

  function CompactGet(order: Order, t: Tree, key: string): Tree
    requires Enumerates(order)
    decreases t, 0, 0
  {
    if t.Fields? && key in t.fields then Compact(order, t.fields[key]) else Undef
  }

  // ---------------------------------------------------------------- the verbose summary

  function Or(a: Tree, b: Tree): Tree {
    if a.Undef? || a.Nil? then b else a
  }

  function Raw(t: Tree): Tree {
    var raw := Get(t, "raw");
    if IsObject(raw) then raw else Undef
  }

  // A string that is more than white space, without the white space around it.
  function ShortText(t: Tree): Tree {
    match t
    case Text(text) => if Trim(text) == "" then Undef else Text(Trim(text))
    case Circular => t
    case Redacted => t
    case Undef => Undef
    case Nil => Undef
    case Scalar(_, _) => Undef
    case Function => Undef
    case Items(_) => Undef
    case Fields(_) => Undef
  }

  function DropUndefined(fields: map<string, Tree>): map<string, Tree> {
    map k | k in fields && !fields[k].Undef? :: fields[k]
  }

  function RequestTarget(t: Tree): map<string, Tree> {
    map[]
      [Name(["id"]) := Get(t, "id")]
      [Name(["method"]) := Or(Get(t, "method"), Get(Raw(t), "method"))]
      [Name(["url"]) := Or(Get(t, "url"), Get(Raw(t), "url"))]
      [Name(["route"]) := ShortText(Get(Get(t, "routeOptions"), "url"))]
  }

  function SummarizeRequest(t: Tree): Tree {
    Fields(DropUndefined(RequestTarget(t)
      [Name(["correlation", "id"]) := Get(t, "correlationId")]
      [Name(["trace", "id"]) := Get(t, "traceId")]
      [Name(["origin", "surface"]) := Get(t, "originSurface")]
      [Name(["session", "id"]) := Get(t, "requestSessionId")]
      [Name(["auth", "actor", "id"]) := Get(t, "authActorId")]
      [Name(["auth", "actor", "source"]) := Get(t, "authActorSource")]
      ["idempotencyKey" := Get(t, "idempotencyKey")]))
  }

  function SummarizeResponse(t: Tree): Tree {
    Fields(DropUndefined(map[
      Name(["status", "code"]) := Or(Get(t, "statusCode"), Get(Raw(t), "statusCode")),
      Name(["status", "message"]) := Or(Get(t, "statusMessage"), Get(Raw(t), "statusMessage"))]))
  }

  function Summarize(t: Tree): Tree
    decreases t
  {
    match t
    case Items(items) => Items(seq(|items|, i requires 0 <= i < |items| => Summarize(items[i])))
    case Fields(fields) =>
      Fields(map k | k in fields ::
        if k in {"req", "request"} && IsObject(fields[k]) then SummarizeRequest(fields[k])
        else if k == "res" && IsObject(fields[k]) then SummarizeResponse(fields[k])
        else Summarize(fields[k]))
    case Undef => t
    case Nil => t
    case Scalar(_, _) => t
    case Function => t
    case Text(_) => t
    case Circular => t
    case Redacted => t
  }

  // ---------------------------------------------------------------- what the line can show

  // Under every sensitive key, at every depth, stands the redaction marker.
  ghost predicate Guarded(t: Tree)
    decreases t
  {
    match t
    case Items(items) => forall i | 0 <= i < |items| :: Guarded(items[i])
    case Fields(fields) => forall k | k in fields :: Guarded(fields[k]) && (IsSensitive(k) ==> fields[k] == Redacted)
    case Undef => true
    case Nil => true
    case Scalar(_, _) => true
    case Function => true
    case Text(_) => true
    case Circular => true
    case Redacted => true
  }

  function Terminal(redact: string -> string): Policy {
    Policy(key => IsSensitive(key), redact)
  }

  lemma {:induction false} GuardedMeansRedacted(redact: string -> string, t: Tree, path: seq<Label>, k: string)
    requires Guarded(t) && Find(t, path).Some? && Find(t, path).value.Fields? && k in Find(t, path).value.fields
    ensures IsSensitive(k) ==> Find(t, path).value.fields[k] == Redacted
    decreases |path|
  {
    if path != [] {
      GuardedMeansRedacted(redact, Child(t, path[0]).value, path[1..], k);
    }
  }

  lemma {:induction false} RedactedMeansGuarded(redact: string -> string, t: Tree)
    requires AllRedacted(Terminal(redact), t)
    ensures Guarded(t)
    decreases t
  {
    hide IsSensitive;
    assert Find(t, []) == Some(t);
    if t.Items? {
      forall i | 0 <= i < |t.items| ensures Guarded(t.items[i]) {
        BelowIsRedacted(Terminal(redact), t, Index(i));
        RedactedMeansGuarded(redact, t.items[i]);
      }
    } else if t.Fields? {
      forall k | k in t.fields ensures Guarded(t.fields[k]) && (IsSensitive(k) ==> t.fields[k] == Redacted) {
        BelowIsRedacted(Terminal(redact), t, Key(k));
        RedactedMeansGuarded(redact, t.fields[k]);
        assert Terminal(redact).sensitive(k) == IsSensitive(k);
      }
    }
  }

  lemma BelowIsRedacted(p: Policy, t: Tree, step: Label)
    requires AllRedacted(p, t) && Child(t, step).Some?
    ensures AllRedacted(p, Child(t, step).value)
  {
    var child := Child(t, step).value;
    forall path, k | Find(child, path).Some? && Find(child, path).value.Fields? &&
      k in Find(child, path).value.fields && p.sensitive(k)
      ensures Find(child, path).value.fields[k] == Redacted
    {
      assert ([step] + path)[1..] == path;
      assert Find(t, [step] + path) == Find(child, path);
    }
  }

  lemma {:induction false} DefinedIsGuarded(items: seq<Tree>)
    requires forall i | 0 <= i < |items| :: Guarded(items[i])
    ensures forall i | 0 <= i < |Defined(items)| :: Guarded(Defined(items)[i])
  {
    if items != [] {
      DefinedIsGuarded(items[1..]);
    }
  }

  lemma NameIsHarmless(words: seq<string>)
    requires HarmlessName(words)
    ensures !IsSensitive(Name(words))
  {
    HarmlessWords(words);
  }

  lemma CompactNameIsHarmless(key: string)
    requires IsCompactName(key)
    ensures !IsSensitive(key)
  {
    hide IsSensitive, HarmlessName, Name, TimeNames, PlaceNames, OtherNames;
    NamesAreHarmless();
    var k :| 0 <= k < |CompactNames| && key == Name(CompactNames[k]);
    NameIsHarmless(CompactNames[k]);
  }

  lemma UsedNamesAreHarmless()
    ensures !IsSensitive(Name(["error"])) && !IsSensitive(Name(["reason"])) && !IsSensitive(Name(["req", "id"]))
    ensures !IsSensitive(Name(["retry", "index"])) && !IsSensitive(Name(["status", "code"]))
    ensures !IsSensitive(Name(["fallback", "used"])) && !IsSensitive(Name(["method"])) && !IsSensitive(Name(["url"]))
  {
    assert OtherNames[1] == ["error"] && OtherNames[2] == ["reason"] && OtherNames[3] == ["req", "id"];
    assert OtherNames[4] == ["retry", "index"] && OtherNames[7] == ["status", "code"];
    assert PlaceNames[2] == ["fallback", "used"] && PlaceNames[4] == ["method"] && PlaceNames[10] == ["url"];
    assert |OtherNames| == 10 && |PlaceNames| == 11;
    hide IsSensitive, HarmlessName, Name, TimeNames, PlaceNames, OtherNames, SummaryNames;
    NamesAreHarmless();
    NameIsHarmless(["error"]);
    NameIsHarmless(["reason"]);
    NameIsHarmless(["req", "id"]);
    NameIsHarmless(["retry", "index"]);
    NameIsHarmless(["status", "code"]);
    NameIsHarmless(["fallback", "used"]);
    NameIsHarmless(["method"]);
    NameIsHarmless(["url"]);
  }

  ghost predicate GuardedFields(fields: map<string, Tree>) {
    forall k | k in fields :: Guarded(fields[k]) && !IsSensitive(k)
  }

  lemma SetKeepsGuarded(fields: map<string, Tree>, key: string, t: Tree)
    requires GuardedFields(fields) && Guarded(t) && !IsSensitive(key)
    ensures GuardedFields(fields[key := t])
  {
    hide Guarded, IsSensitive;
  }

  // A compact line has no sensitive key anywhere, whatever it was made of.
  lemma {:induction false} CompactIsGuarded(order: Order, t: Tree)
    requires Enumerates(order)
    ensures Guarded(Compact(order, t))
    decreases t, 1, 0
  {
    hide IsSensitive;
    if t.Items? {
      var items := seq(|t.items|, i requires 0 <= i < |t.items| => Compact(order, t.items[i]));
      forall i | 0 <= i < |items| ensures Guarded(items[i]) {
        CompactIsGuarded(order, t.items[i]);
      }
      DefinedIsGuarded(items);
    } else if t.Fields? {
      CompactFieldsAreGuarded(order, t, order(t.fields.Keys), map[]);
    }
  }

  lemma {:induction false} CompactGetIsGuarded(order: Order, t: Tree, key: string)
    requires Enumerates(order)
    ensures Guarded(CompactGet(order, t, key))
    decreases t, 0, 0
  {
    if t.Fields? && key in t.fields {
      CompactIsGuarded(order, t.fields[key]);
    }
  }

  lemma {:induction false} CompactFieldsAreGuarded(order: Order, t: Tree, keys: seq<string>, result: map<string, Tree>)
    requires Enumerates(order) && t.Fields? && (forall k | k in keys :: k in t.fields) && GuardedFields(result)
    ensures GuardedFields(CompactFields(order, t, keys, result))
    decreases t, 0, |keys|
  {
    hide IsSensitive, Guarded, GuardedFields, Name, IsCompactName;
    if keys != [] {
      var key, rest := keys[0], keys[1..];
      var entry := t.fields[key];
      UsedNamesAreHarmless();
      var next := result;
      if IsCompactName(key) {
        CompactNameIsHarmless(key);
        CompactIsGuarded(order, entry);
        next := Set(result, key, Compact(order, entry));
      } else if key == "err" {
        CompactIsGuarded(order, entry);
        next := Set(result, Name(["error"]), Compact(order, entry));
      } else if key == "req" && IsObject(entry) {
        next := SetGot(order, next, Name(["req", "id"]), entry, "id");
        next := SetGot(order, next, Name(["method"]), entry, "method");
        next := SetGot(order, next, Name(["url"]), entry, "url");
      } else if key == "res" && IsObject(entry) {
        next := SetGot(order, next, Name(["status", "code"]), entry, "statusCode");
      } else if key == "context" && IsObject(entry) {
        next := SetGot(order, next, Name(["error"]), entry, "error");
        next := SetGot(order, next, Name(["reason"]), entry, "reason");
        next := SetGot(order, next, Name(["retry", "index"]), entry, "retryIndex");
        next := SetGot(order, next, Name(["fallback", "used"]), entry, "fallbackUsed");
      }
      CompactFieldsAreGuarded(order, t, rest, next);
    }
  }

  lemma Set(result: map<string, Tree>, key: string, t: Tree) returns (next: map<string, Tree>)
    requires GuardedFields(result) && Guarded(t) && !IsSensitive(key)
    ensures next == result[key := t] && GuardedFields(next)
  {
    next := result[key := t];
    SetKeepsGuarded(result, key, t);
  }

  lemma {:induction false} SetGot(order: Order, result: map<string, Tree>, name: string, t: Tree, key: string)
    returns (next: map<string, Tree>)
    requires Enumerates(order) && GuardedFields(result) && !IsSensitive(name)
    ensures next == result[name := CompactGet(order, t, key)] && GuardedFields(next)
    decreases t, 0, 1
  {
    CompactGetIsGuarded(order, t, key);
    next := Set(result, name, CompactGet(order, t, key));
  }

  lemma GetIsGuarded(t: Tree, key: string)
    requires Guarded(t)
    ensures Guarded(Get(t, key)) && (IsSensitive(key) ==> Get(t, key) in {Undef, Redacted})
    ensures Guarded(Raw(t)) && Guarded(ShortText(t))
  {
  }

  lemma {:induction false} SummaryIsGuarded(t: Tree)
    requires Guarded(t)
    ensures Guarded(Summarize(t))
    ensures t == Redacted ==> Summarize(t) == Redacted
    decreases t
  {
    hide IsSensitive, SummarizeRequest, SummarizeResponse;
    if t.Items? {
      forall i | 0 <= i < |t.items| ensures Guarded(Summarize(t.items[i])) { SummaryIsGuarded(t.items[i]); }
    } else if t.Fields? {
      forall k | k in t.fields
        ensures Guarded(Summarize(t).fields[k]) && (IsSensitive(k) ==> Summarize(t).fields[k] == Redacted)
      {
        SummaryIsGuarded(t.fields[k]);
        RequestIsGuarded(t.fields[k]);
        ResponseIsGuarded(t.fields[k]);
      }
    }
  }

  lemma SummaryNamesAreUsed()
    ensures !IsSensitive(Name(["id"])) && !IsSensitive(Name(["method"])) && !IsSensitive(Name(["url"]))
    ensures !IsSensitive(Name(["route"])) && !IsSensitive(Name(["correlation", "id"])) &&
      !IsSensitive(Name(["trace", "id"]))
    ensures !IsSensitive(Name(["origin", "surface"])) && !IsSensitive(Name(["session", "id"]))
    ensures !IsSensitive(Name(["auth", "actor", "id"])) && !IsSensitive(Name(["auth", "actor", "source"]))
    ensures !IsSensitive(Name(["status", "code"])) && !IsSensitive(Name(["status", "message"]))
  {
    assert |SummaryNames| == 12;
    assert SummaryNames[0] == ["id"] && SummaryNames[1] == ["method"] && SummaryNames[2] == ["url"];
    assert SummaryNames[3] == ["route"] && SummaryNames[4] == ["correlation", "id"] &&
      SummaryNames[5] == ["trace", "id"];
    assert SummaryNames[6] == ["origin", "surface"] && SummaryNames[7] == ["session", "id"];
    assert SummaryNames[8] == ["auth", "actor", "id"] && SummaryNames[9] == ["auth", "actor", "source"];
    assert SummaryNames[10] == ["status", "code"] && SummaryNames[11] == ["status", "message"];
    hide IsSensitive, HarmlessName, Name, TimeNames, PlaceNames, OtherNames, SummaryNames;
    NamesAreHarmless();
    NameIsHarmless(["id"]);
    NameIsHarmless(["method"]);
    NameIsHarmless(["url"]);
    NameIsHarmless(["route"]);
    NameIsHarmless(["correlation", "id"]);
    NameIsHarmless(["trace", "id"]);
    NameIsHarmless(["origin", "surface"]);
    NameIsHarmless(["session", "id"]);
    NameIsHarmless(["auth", "actor", "id"]);
    NameIsHarmless(["auth", "actor", "source"]);
    NameIsHarmless(["status", "code"]);
    NameIsHarmless(["status", "message"]);
  }

  lemma TargetIsGuarded(t: Tree)
    requires Guarded(t)
    ensures GuardedFields(RequestTarget(t))
  {
    hide IsSensitive, Guarded, Name, Get, Raw, ShortText, Or, GuardedFields;
    SummaryNamesAreUsed();
    var raw, options := Raw(t), Get(t, "routeOptions");
    GetIsGuarded(t, "id");
    GetIsGuarded(t, "method");
    GetIsGuarded(t, "url");
    GetIsGuarded(t, "routeOptions");
    GetIsGuarded(raw, "method");
    GetIsGuarded(raw, "url");
    GetIsGuarded(options, "url");
    GetIsGuarded(Get(options, "url"), "");
    OrIsGuarded(Get(t, "method"), Get(raw, "method"));
    OrIsGuarded(Get(t, "url"), Get(raw, "url"));
    NoFields();
    var fields := Set(map[], Name(["id"]), Get(t, "id"));
    fields := Set(fields, Name(["method"]), Or(Get(t, "method"), Get(raw, "method")));
    fields := Set(fields, Name(["url"]), Or(Get(t, "url"), Get(raw, "url")));
    fields := Set(fields, Name(["route"]), ShortText(Get(options, "url")));
  }

  lemma RequestIsGuarded(t: Tree)
    requires Guarded(t)
    ensures Guarded(SummarizeRequest(t))
  {
    hide IsSensitive, Guarded, Name, Get, GuardedFields, RequestTarget;
    SummaryNamesAreUsed();
    TargetIsGuarded(t);
    GuardedGets(t);
    var fields := Set(RequestTarget(t), Name(["correlation", "id"]), Get(t, "correlationId"));
    fields := Set(fields, Name(["trace", "id"]), Get(t, "traceId"));
    fields := Set(fields, Name(["origin", "surface"]), Get(t, "originSurface"));
    fields := Set(fields, Name(["session", "id"]), Get(t, "requestSessionId"));
    fields := Set(fields, Name(["auth", "actor", "id"]), Get(t, "authActorId"));
    fields := Set(fields, Name(["auth", "actor", "source"]), Get(t, "authActorSource"));
    LastField(fields, "idempotencyKey", Get(t, "idempotencyKey"));
  }

  lemma NoFields()
    ensures GuardedFields(map[])
  {
  }

  lemma LastField(fields: map<string, Tree>, key: string, t: Tree)
    requires GuardedFields(fields) && Guarded(t) && (IsSensitive(key) ==> t in {Undef, Redacted})
    ensures Guarded(Fields(DropUndefined(fields[key := t])))
  {
    hide IsSensitive;
  }

  lemma OrIsGuarded(a: Tree, b: Tree)
    requires Guarded(a) && Guarded(b)
    ensures Guarded(Or(a, b))
  {
  }

  lemma GuardedGets(t: Tree)
    requires Guarded(t)
    ensures forall key :: Guarded(Get(t, key)) && (IsSensitive(key) ==> Get(t, key) in {Undef, Redacted})
  {
    hide IsSensitive, Guarded, Get;
    forall key ensures Guarded(Get(t, key)) && (IsSensitive(key) ==> Get(t, key) in {Undef, Redacted}) {
      GetIsGuarded(t, key);
    }
  }

  lemma FieldsAreGuarded(fields: map<string, Tree>)
    requires forall k | k in fields :: Guarded(fields[k]) && (IsSensitive(k) ==> fields[k] == Redacted)
    ensures Guarded(Fields(fields))
  {
    hide IsSensitive;
  }

  lemma ResponseIsGuarded(t: Tree)
    requires Guarded(t)
    ensures Guarded(SummarizeResponse(t))
  {
    hide IsSensitive, Guarded, Name, Get, Raw;
    SummaryNamesAreUsed();
    GuardedGets(t);
    GuardedGets(Raw(t)) by { GetIsGuarded(t, ""); }
    FieldsAreGuarded(SummarizeResponse(t).fields);
  }

  function Line(order: Order, t: Tree, verbose: bool): Tree
    requires Enumerates(order)
  {
    if verbose then Summarize(t) else Compact(order, t)
  }

  // Main result: for every bindings and metadata, however the merged record lies in memory, the record that
  // is printed has the redaction marker under every sensitive key at every depth.
  lemma PrintedMetadataIsSafe(redact: string -> string, g: Graph, bindings: Value, meta: Value, h: Graph, v: Value,
      order: Order, verbose: bool)
    requires Closed(g) && Fits(g, bindings) && Fits(g, meta) && Enumerates(order)
    requires MergeMeta(Terminal(redact), g, bindings, meta).Some?
    requires Closed(h) && Fits(h, v) && Represents(h, v, MergeMeta(Terminal(redact), g, bindings, meta).value)
    ensures AllRedacted(Terminal(redact), Line(order, Sanitize(Terminal(redact), h, v, verbose, {}), verbose))
  {
    hide IsSensitive, Compact, Summarize, Guarded;
    var p := Terminal(redact);
    var t := Sanitize(p, h, v, verbose, {});
    WrittenMetadataIsSafe(p, g, bindings, meta, h, v, verbose);
    RedactedMeansGuarded(redact, t);
    CompactIsGuarded(order, t);
    SummaryIsGuarded(t);
    var line := Line(order, t, verbose);
    forall path, k | Find(line, path).Some? && Find(line, path).value.Fields? && k in Find(line, path).value.fields &&
      p.sensitive(k)
      ensures Find(line, path).value.fields[k] == Redacted
    {
      GuardedMeansRedacted(redact, line, path, k);
    }
  }

  // With this rule no key of an error report is sensitive, so one walk redacts all that is.
  lemma OneWalkRedactsAll(redact: string -> string, g: Graph, v: Value, verbose: bool)
    requires Closed(g) && Fits(g, v)
    ensures AllRedacted(Terminal(redact), Sanitize(Terminal(redact), g, v, verbose, {}))
  {
    ReportKeysArePlainHere(redact);
    SensitiveKeysAreRedacted(Terminal(redact), verbose);
  }

  lemma OneWord(word: string)
    requires Plain(word) && word !in SecretWords && word !in {"key", "token"}
    ensures !IsSensitive(word)
  {
    assert [word][1..] == [] && Camel([word]) == word + "" == word;
    HarmlessWords([word]);
  }

  lemma ReportKeysArePlainHere(redact: string -> string)
    ensures ReportKeysArePlain(Terminal(redact))
  {
    hide IsSensitive;
    OneWord("error");
    OneWord("code");
    OneWord("stack");
  }

  // What a sensitive key holds has no influence on the record that is printed.
  lemma SecretsAreNotPrinted(redact: string -> string, g: Graph, h: Graph, bindings: Value, meta: Value)
    requires Closed(g) && Closed(h) && Fits(g, bindings) && Fits(g, meta) && SameButForSecrets(Terminal(redact), g, h)
    ensures Fits(h, bindings) && Fits(h, meta)
    ensures MergeMeta(Terminal(redact), g, bindings, meta) == MergeMeta(Terminal(redact), h, bindings, meta)
  {
    hide IsSensitive, Sanitize;
    SecretsDoNotShow(Terminal(redact), g, h, bindings, false, {});
    SecretsDoNotShow(Terminal(redact), g, h, meta, true, {});
  }
}
