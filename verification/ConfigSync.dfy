/**
 Keeping the split configuration files in step with the unified one. A directory is a map from file names
 to contents. Reading JSON and writing it are given by a codec.
*/
module ConfigSync {
  import opened Options
  import opened LineEndings

  datatype Json =
    | Scalar(text: string)
    | Arr(items: seq<Json>)
    | Obj(fields: map<string, Json>)

  type Files = map<string, string>

  // JSON.parse, JSON.stringify with an indent of two, and JSON.stringify without one.
  datatype Codec = Codec(parse: string -> Option<Json>, pretty: Json -> string, compact: Json -> string)

  function Serialize(codec: Codec, v: Json): string {
    codec.pretty(v) + "\n"
  }

  // A value that some text stands for.
  ghost predicate Readable(codec: Codec, v: Json) {
    exists s :: codec.parse(s) == Some(v)
  }

  // What is read back when a value has been written: mostly the value itself, but a number can come back as
  // another one or as null.
  function Reread(codec: Codec, v: Json): Json {
    var read := codec.parse(codec.compact(v));
    if read.Some? then read.value else v
  }

  // What is used of JSON. A value that can be read can be written, both ways with the same meaning; what
  // comes back has the same shape, entry by entry, and is written with the same text; carriage returns are
  // escaped. A list or an object can be read exactly if all its entries can, and so can the number one.
  ghost predicate Lawful(codec: Codec) {
    && (forall v | Readable(codec, v) :: WritesWell(codec, v) && KeepsItsShape(codec, v))
    && (forall items :: Readable(codec, Arr(items)) <==> ReadableItems(codec, items))
    && (forall fields :: Readable(codec, Obj(fields)) <==> ReadableFields(codec, fields))
    && Readable(codec, Scalar("1"))
  }

  // What is read back is a scalar, a list or an object again, with every entry read back on its own.
  ghost predicate KeepsItsShape(codec: Codec, v: Json) {
    var back := Reread(codec, v);
    match v
    case Scalar(_) => back.Scalar?
    case Arr(items) =>
      back.Arr? && |back.items| == |items| && forall i | 0 <= i < |items| :: back.items[i] == Reread(codec, items[i])
    case Obj(fields) =>
      && back.Obj? && back.fields.Keys == fields.Keys
      && forall k | k in fields :: back.fields[k] == Reread(codec, fields[k])
  }

  ghost predicate ReadableItems(codec: Codec, items: seq<Json>) {
    forall i | 0 <= i < |items| :: Readable(codec, items[i])
  }

  ghost predicate WritesWell(codec: Codec, v: Json) {
    && codec.parse(codec.compact(v)).Some?
    && codec.parse(Serialize(codec, v)) == codec.parse(codec.compact(v))
    && codec.pretty(Reread(codec, v)) == codec.pretty(v)
    && '\r' !in codec.pretty(v)
    && Comparable(Serialize(codec, v)) != ""
  }

  ghost predicate ReadableFields(codec: Codec, fields: map<string, Json>) {
    forall k | k in fields :: Readable(codec, fields[k])
  }

  datatype Target = Target(aliases: seq<string>, filename: string, example: string)

  const UnifiedFilename := "goatcitadel.json"
  const CronFilename := "cron-jobs.json"

  const Targets: seq<Target> := [
    Target(["assistant"], "assistant.config.json", "assistant.config.example.json"),
    Target(["toolPolicy", "tool-policy"], "tool-policy.json", "tool-policy.example.json"),
    Target(["budgets"], "budgets.json", "budgets.example.json"),
    Target(["llm", "llmProviders", "llm-providers"], "llm-providers.json", "llm-providers.example.json"),
    Target(["cronJobs", "cron", "cron-jobs"], CronFilename, "cron-jobs.example.json")]

  const UnsafeKeys := {"__proto__", "prototype", "constructor"}

  datatype SyncError =
    | InvalidJson(file: string)
    | NoSuchFile(file: string)
    | NotAnObject
    | InvalidSection(file: string)
    | UnsafeKey(file: string)

  datatype Result<T> = Ok(value: T) | Err(error: SyncError)

  // A copy of the value, or nothing when some object in it has an unsafe key.
  function SanitizeValue(v: Json): (r: Option<Json>) {
    match v
    case Scalar(_) => Some(v)
    case Arr(items) =>
      if forall i | 0 <= i < |items| :: SanitizeValue(items[i]).Some?
      then Some(Arr(seq(|items|, i requires 0 <= i < |items| => SanitizeValue(items[i]).value)))
      else None
    case Obj(fields) =>
      if forall k | k in fields :: k !in UnsafeKeys && SanitizeValue(fields[k]).Some?
      then Some(Obj(map k | k in fields :: SanitizeValue(fields[k]).value))
      else None
  }

  datatype Step = Index(i: nat) | Key(key: string)

  function Lookup(v: Json, path: seq<Step>): Option<Json>
    decreases |path|
  {
    if path == [] then Some(v)
    else
      match path[0]
      case Index(i) => if v.Arr? && i < |v.items| then Lookup(v.items[i], path[1..]) else None
      case Key(k) => if v.Obj? && k in v.fields then Lookup(v.fields[k], path[1..]) else None
  }

  ghost predicate UnsafeAt(v: Json, path: seq<Step>) {
    path != [] && path[|path| - 1].Key? && path[|path| - 1].key in UnsafeKeys && Lookup(v, path).Some?
  }

  // Nothing is rewritten: the value passes as it is, exactly when no object at any depth has an unsafe key.
  lemma {:induction false} SanitizingIsAllOrNothing(v: Json)
    ensures SanitizeValue(v) == None || SanitizeValue(v) == Some(v)
    ensures SanitizeValue(v) == None <==> exists path :: UnsafeAt(v, path)
    decreases v
  {
    if SanitizeValue(v) == None {
      var path := UnsafePath(v);
    } else {
      SafeCopy(v);
      forall path ensures !UnsafeAt(v, path) {
        SafeAt(v, path);
      }
    }
  }

  lemma {:induction false} SafeCopy(v: Json)
    requires SanitizeValue(v).Some?
    ensures SanitizeValue(v).value == v
    decreases v
  {
    match v
    case Scalar(_) =>
    case Arr(items) =>
      forall i | 0 <= i < |items| ensures SanitizeValue(items[i]).value == items[i] { SafeCopy(items[i]); }
      assert SanitizeValue(v).value.items == items;
    case Obj(fields) =>
      forall k | k in fields ensures SanitizeValue(fields[k]).value == fields[k] { SafeCopy(fields[k]); }
      assert SanitizeValue(v).value.fields == fields;
  }

  lemma {:induction false} SafeAt(v: Json, path: seq<Step>)
    requires SanitizeValue(v).Some?
    ensures !UnsafeAt(v, path)
    decreases |path|
  {
    if UnsafeAt(v, path) && |path| > 1 {
      assert path[1..][|path[1..]| - 1] == path[|path| - 1];
      match path[0]
      case Index(i) => SafeAt(v.items[i], path[1..]);
      case Key(k) => SafeAt(v.fields[k], path[1..]);
    }
  }

  lemma {:induction false} UnsafePath(v: Json) returns (path: seq<Step>)
    requires SanitizeValue(v) == None
    ensures UnsafeAt(v, path)
    decreases v
  {
    match v
    case Arr(items) =>
      var i :| 0 <= i < |items| && SanitizeValue(items[i]) == None;
      var rest := UnsafePath(items[i]);
      path := [Index(i)] + rest;
      assert path[1..] == rest && path[|path| - 1] == rest[|rest| - 1];
    case Obj(fields) =>
      var k :| k in fields && (k in UnsafeKeys || SanitizeValue(fields[k]) == None);
      if k in UnsafeKeys {
        path := [Key(k)];
        assert Lookup(fields[k], path[1..]) == Some(fields[k]);
      } else {
        var rest := UnsafePath(fields[k]);
        path := [Key(k)] + rest;
        assert path[1..] == rest && path[|path| - 1] == rest[|rest| - 1];
      }
  }

  // The section under the first alias that is present.
  function ReadSection(payload: map<string, Json>, aliases: seq<string>): (r: Option<Json>)
    ensures r == None <==> forall i | 0 <= i < |aliases| :: aliases[i] !in payload
    ensures r.Some? ==> exists i :: 0 <= i < |aliases| && FirstIn(payload, aliases, i) && payload[aliases[i]] == r.value
  {
    if aliases == [] then None
    else if aliases[0] in payload then
      assert FirstIn(payload, aliases, 0);
      Some(payload[aliases[0]])
    else
      var r := ReadSection(payload, aliases[1..]);
      assert r.Some? ==> exists i ::
        0 <= i < |aliases| && FirstIn(payload, aliases, i) && payload[aliases[i]] == r.value by {
        if r.Some? {
          var i :| 0 <= i < |aliases| - 1 && FirstIn(payload, aliases[1..], i) && payload[aliases[1..][i]] == r.value;
          assert FirstIn(payload, aliases, i + 1);
        }
      }
      r
  }

  // The i-th alias is the first that the payload has.
  predicate FirstIn(payload: map<string, Json>, aliases: seq<string>, i: nat)
    requires i < |aliases|
  {
    aliases[i] in payload && forall j | 0 <= j < i :: aliases[j] !in payload
  }

  function NormalizeSection(v: Json, filename: string): Result<Json> {
    if !v.Obj? && !(v.Arr? && filename == CronFilename) then Err(InvalidSection(filename))
    else
      var safe := SanitizeValue(v);
      if safe == None then Err(UnsafeKey(filename))
      else if v.Arr? then Ok(Obj(map["jobs" := safe.value]))
      else Ok(safe.value)
  }

  // A section that is accepted is passed on as it is, except that a list of cron jobs is put under `jobs`; it
  // is accepted exactly when it has the right shape and no unsafe key anywhere.
  lemma SectionsPassUnchanged(v: Json, filename: string)
    ensures NormalizeSection(v, filename).Ok? <==>
      (v.Obj? || (v.Arr? && filename == CronFilename)) && !(exists path :: UnsafeAt(v, path))
    ensures NormalizeSection(v, filename).Ok? ==>
      NormalizeSection(v, filename).value == if v.Arr? then Obj(map["jobs" := v]) else v
    ensures NormalizeSection(v, filename) == Err(UnsafeKey(filename)) ==> exists path :: UnsafeAt(v, path)
  {
    SanitizingIsAllOrNothing(v);
  }

  function Current(files: Files, filename: string): string {
    if filename in files then files[filename] else ""
  }

  predicate UpToDate(codec: Codec, files: Files, filename: string, v: Json) {
    Comparable(Current(files, filename)) == Comparable(Serialize(codec, v))
  }

  function Written(codec: Codec, files: Files, filename: string, v: Json): Files {
    if UpToDate(codec, files, filename, v) then files
    else files[filename := ApplyPreferred(Serialize(codec, v), DetectLineEnding(Current(files, filename)))]
  }

  lemma NoPairWithoutReturns(s: string)
    requires '\r' !in s
    ensures Normalize(s) == s && !DoubleReturn(s) && !HasPair(s)
  {
    NoPairIsNormal(s);
  }

  // A text without carriage returns that ends in a line feed compares equal to what is written for it, and is
  // written with the ending it is asked for.
  lemma WrittenTextSettles(s: string, ending: Ending)
    requires '\r' !in s && s != "" && s[|s| - 1] == '\n'
    ensures Comparable(ApplyPreferred(s, ending)) == Comparable(s)
    ensures DetectLineEnding(ApplyPreferred(s, ending)) == ending
  {
    NoPairWithoutReturns(s);
    PreferredEndingComparesEqual(s, ending);
    EndingIsPreserved(s, ending);
    hide Normalize, ApplyPreferred, DetectLineEnding, HasPair, DoubleReturn;
  }

  // After writing, the file compares equal and still has the line endings it had.
  lemma WritingSettles(codec: Codec, files: Files, filename: string, v: Json)
    requires Lawful(codec) && Readable(codec, v)
    ensures var after := Written(codec, files, filename, v);
      && UpToDate(codec, after, filename, v)
      && filename in after
      && after - {filename} == files - {filename}
      && DetectLineEnding(Current(after, filename)) == DetectLineEnding(Current(files, filename))
      && Written(codec, after, filename, v) == after
  {
    hide Lawful, Readable, WritesWell, Comparable, ApplyPreferred, DetectLineEnding;
    WritesWhenLawful(codec, v);
    SerializedText(codec, v);
    WrittenTextSettles(Serialize(codec, v), DetectLineEnding(Current(files, filename)));
    NothingComparesToNothing();
    hide Serialize;
  }

  lemma WritesWhenLawful(codec: Codec, v: Json)
    requires Lawful(codec) && Readable(codec, v)
    ensures WritesWell(codec, v)
  {
    hide Readable, WritesWell;
  }

  lemma SerializedText(codec: Codec, v: Json)
    requires WritesWell(codec, v)
    ensures var s := Serialize(codec, v); '\r' !in s && s != "" && s[|s| - 1] == '\n' && Comparable(s) != ""
  {
    hide Comparable;
  }

  lemma NothingComparesToNothing()
    ensures Comparable("") == ""
  {
  }

  datatype Outcome = Done(synced: seq<string>) | Failed(error: SyncError)

  datatype Synced = Synced(files: Files, outcome: Outcome)

  function SyncSections(codec: Codec, files: Files, payload: map<string, Json>, targets: seq<Target>,
      synced: seq<string>): Synced
    decreases |targets|
  {
    if targets == [] then Synced(files, Done(synced))
    else
      var name := targets[0].filename;
      var section := ReadSection(payload, targets[0].aliases);
      if section == None then SyncSections(codec, files, payload, targets[1..], synced)
      else
        match NormalizeSection(section.value, name)
        case Err(e) => Synced(files, Failed(e))
        case Ok(v) =>
          SyncSections(codec, Written(codec, files, name, v), payload, targets[1..],
            if UpToDate(codec, files, name, v) then synced else synced + [name])
  }

  ghost predicate Distinct(targets: seq<Target>) {
    forall i, j | 0 <= i < j < |targets| :: targets[i].filename != targets[j].filename
  }

  // Only the files of the targets are touched, and none disappears.
  lemma {:induction false} SectionsTouchTheirFiles(codec: Codec, files: Files, payload: map<string, Json>,
      targets: seq<Target>, synced: seq<string>, f: string)
    ensures var after := SyncSections(codec, files, payload, targets, synced).files;
      && (f in files ==> f in after)
      && ((forall i | 0 <= i < |targets| :: targets[i].filename != f) ==>
        (f in after <==> f in files) && Current(after, f) == Current(files, f))
    decreases |targets|
  {
    hide Comparable, ApplyPreferred, DetectLineEnding, Serialize, NormalizeSection, ReadSection;
    if targets != [] {
      var name := targets[0].filename;
      var section := ReadSection(payload, targets[0].aliases);
      if section == None {
        SectionsTouchTheirFiles(codec, files, payload, targets[1..], synced, f);
      } else if NormalizeSection(section.value, name).Ok? {
        var v := NormalizeSection(section.value, name).value;
        SectionsTouchTheirFiles(codec, Written(codec, files, name, v), payload, targets[1..],
          if UpToDate(codec, files, name, v) then synced else synced + [name], f);
      }
    }
  }

  // The section the payload has for a target.
  function Expected(payload: map<string, Json>, t: Target): Option<Result<Json>> {
    var section := ReadSection(payload, t.aliases);
    if section == None then None else Some(NormalizeSection(section.value, t.filename))
  }

  function WithNothingSynced(o: Outcome): Outcome {
    if o.Done? then Done([]) else o
  }

  lemma SectionsAreReadable(codec: Codec, payload: map<string, Json>, t: Target, v: Json)
    requires Lawful(codec) && ReadableFields(codec, payload) && Expected(payload, t) == Some(Ok(v))
    ensures Readable(codec, v)
  {
    hide Readable;
    var section := ReadSection(payload, t.aliases).value;
    SectionsPassUnchanged(section, t.filename);
    if section.Arr? {
      assert ReadableFields(codec, map["jobs" := section]);
    }
  }

  // Running the sections again over their own result changes no file and syncs nothing, and they fail again
  // where they failed before.
  lemma {:induction false} SectionsSettle(codec: Codec, files: Files, payload: map<string, Json>,
      targets: seq<Target>, synced: seq<string>)
    requires Lawful(codec) && Distinct(targets) && ReadableFields(codec, payload)
    ensures var first := SyncSections(codec, files, payload, targets, synced);
      SyncSections(codec, first.files, payload, targets, []) == Synced(first.files, WithNothingSynced(first.outcome))
    ensures var first := SyncSections(codec, files, payload, targets, synced);
      first.outcome.Done? ==> forall i | 0 <= i < |targets| && Expected(payload, targets[i]).Some? ::
        && Expected(payload, targets[i]).value.Ok?
        && targets[i].filename in first.files
        && UpToDate(codec, first.files, targets[i].filename, Expected(payload, targets[i]).value.value)
    decreases |targets|
  {
    hide Lawful, Readable, ReadableFields, Comparable, ApplyPreferred, DetectLineEnding, Serialize, NormalizeSection,
      ReadSection;
    if targets != [] {
      var name := targets[0].filename;
      var rest := targets[1..];
      assert forall i | 0 <= i < |rest| :: rest[i] == targets[i + 1];
      var section := ReadSection(payload, targets[0].aliases);
      if section == None {
        SectionsSettle(codec, files, payload, rest, synced);
      } else if NormalizeSection(section.value, name).Ok? {
        var v := NormalizeSection(section.value, name).value;
        var next := Written(codec, files, name, v);
        var more := if UpToDate(codec, files, name, v) then synced else synced + [name];
        SectionsSettle(codec, next, payload, rest, more);
        SectionsAreReadable(codec, payload, targets[0], v);
        WritingSettles(codec, files, name, v);
        SectionsTouchTheirFiles(codec, next, payload, rest, more, name);
      }
    }
  }

  // ---------------------------------------------------------------- writing and reading back

  lemma RereadParts(codec: Codec, v: Json)
    requires Lawful(codec) && Readable(codec, v)
    ensures KeepsItsShape(codec, v)
    ensures v.Arr? ==> ReadableItems(codec, v.items)
    ensures v.Obj? ==> ReadableFields(codec, v.fields)
  {
    hide Readable, WritesWell, KeepsItsShape, ReadableItems, ReadableFields;
    match v
    case Scalar(text) =>
    case Arr(items) => assert Readable(codec, Arr(items));
    case Obj(fields) => assert Readable(codec, Obj(fields));
  }

  // What is read back has unsafe keys exactly where the written value had them.
  lemma {:induction false} RereadIsAsSafe(codec: Codec, v: Json)
    requires Lawful(codec) && Readable(codec, v)
    ensures SanitizeValue(Reread(codec, v)).Some? <==> SanitizeValue(v).Some?
    decreases v
  {
    hide Lawful, Readable, Reread;
    RereadParts(codec, v);
    if v.Arr? {
      forall i | 0 <= i < |v.items|
        ensures SanitizeValue(Reread(codec, v.items[i])).Some? <==> SanitizeValue(v.items[i]).Some?
      {
        RereadIsAsSafe(codec, v.items[i]);
      }
    } else if v.Obj? {
      forall k | k in v.fields
        ensures SanitizeValue(Reread(codec, v.fields[k])).Some? <==> SanitizeValue(v.fields[k]).Some?
      {
        RereadIsAsSafe(codec, v.fields[k]);
      }
    }
  }

  // A section that is read back is accepted exactly if the written one is, and written with the same text.
  lemma RereadSection(codec: Codec, v: Json, filename: string)
    requires Lawful(codec) && Readable(codec, v)
    ensures var before, after := NormalizeSection(v, filename), NormalizeSection(Reread(codec, v), filename);
      && (before.Ok? <==> after.Ok?)
      && (before.Ok? ==> codec.pretty(before.value) == codec.pretty(after.value))
  {
    RereadIsAsSafe(codec, v);
    RereadParts(codec, v);
    NormalizedIsItself(v, filename);
    NormalizedIsItself(Reread(codec, v), filename);
    if NormalizeSection(v, filename).Ok? && v.Arr? {
      JobsAreReread(codec, v);
    } else {
      assert WritesWell(codec, v);
    }
    hide Lawful, Readable, Reread, SanitizeValue;
  }

  lemma NormalizedIsItself(v: Json, filename: string)
    ensures NormalizeSection(v, filename).Ok? <==>
      (v.Obj? || (v.Arr? && filename == CronFilename)) && SanitizeValue(v).Some?
    ensures NormalizeSection(v, filename).Ok? ==>
      NormalizeSection(v, filename).value == if v.Arr? then Obj(map["jobs" := v]) else v
  {
    if SanitizeValue(v).Some? {
      SafeCopy(v);
    }
  }

  lemma JobsAreReread(codec: Codec, v: Json)
    requires Lawful(codec) && Readable(codec, v)
    ensures codec.pretty(Obj(map["jobs" := Reread(codec, v)])) == codec.pretty(Obj(map["jobs" := v]))
  {
    hide Lawful, Readable, Reread, WritesWell;
    var fields := map["jobs" := v];
    ObjectsAreReadable(codec, fields);
    WritesWhenLawful(codec, Obj(fields));
    RereadParts(codec, Obj(fields));
    assert Reread(codec, Obj(fields)).fields == map["jobs" := Reread(codec, v)];
    PrettyOfReread(codec, Obj(fields));
  }

  lemma ObjectsAreReadable(codec: Codec, fields: map<string, Json>)
    requires Lawful(codec) && forall k | k in fields :: Readable(codec, fields[k])
    ensures Readable(codec, Obj(fields))
  {
    hide Readable, WritesWell, KeepsItsShape;
    assert ReadableFields(codec, fields);
  }

  lemma PrettyOfReread(codec: Codec, v: Json)
    requires WritesWell(codec, v)
    ensures codec.pretty(Reread(codec, v)) == codec.pretty(v)
  {
  }
}
