/** One run of the unified configuration sync over a directory, and what a second run finds to do. */
module ConfigSyncRun {
  import opened Options
  import opened LineEndings
  import opened ConfigSync

  datatype Copied = Copied(files: Files, names: seq<string>)

  // Every split file that is missing is copied from its example, when there is one.
  function Materialize(files: Files, targets: seq<Target>, names: seq<string>): Copied
    decreases |targets|
  {
    if targets == [] then Copied(files, names)
    else
      var t := targets[0];
      if t.filename in files || t.example !in files then Materialize(files, targets[1..], names)
      else Materialize(files[t.filename := files[t.example]], targets[1..], names + [t.filename])
  }

  function ReadJson(codec: Codec, files: Files, name: string): Result<Json> {
    if name !in files then Err(NoSuchFile(name))
    else
      var parsed := codec.parse(files[name]);
      if parsed == None then Err(InvalidJson(name)) else Ok(parsed.value)
  }

  // The sections under their first aliases, read in the order of the targets.
  function BuildUnified(codec: Codec, files: Files, targets: seq<Target>,
      payload: map<string, Json>): Result<map<string, Json>>
    requires forall i | 0 <= i < |targets| :: targets[i].aliases != []
    decreases |targets|
  {
    if targets == [] then Ok(payload)
    else
      match ReadJson(codec, files, targets[0].filename)
      case Err(e) => Err(e)
      case Ok(v) => BuildUnified(codec, files, targets[1..], payload[targets[0].aliases[0] := v])
  }

  datatype Report = Report(createdUnified: bool, materialized: seq<string>, synced: seq<string>)

  datatype Run = Run(files: Files, result: Result<Report>)

  // The sections of a parsed unified file.
  function SyncParsed(codec: Codec, files: Files, parsed: Option<Json>, created: bool, materialized: seq<string>): Run {
    if parsed == None then Run(files, Err(InvalidJson(UnifiedFilename)))
    else if !parsed.value.Obj? then Run(files, Err(NotAnObject))
    else
      var s := SyncSections(codec, files, parsed.value.fields, Targets, []);
      match s.outcome
      case Done(synced) => Run(s.files, Ok(Report(created, materialized, synced)))
      case Failed(e) => Run(s.files, Err(e))
  }

  function Sync(codec: Codec, files: Files, createIfMissing: bool): Run {
    var m := Materialize(files, Targets, []);
    if UnifiedFilename in m.files then
      SyncParsed(codec, m.files, codec.parse(m.files[UnifiedFilename]), false, m.names)
    else if !createIfMissing then Run(m.files, Ok(Report(false, m.names, [])))
    else
      match BuildUnified(codec, m.files, Targets, map["version" := Scalar("1")])
      case Err(e) => Run(m.files, Err(e))
      case Ok(payload) =>
        var unified := Obj(payload);
        SyncParsed(codec, Written(codec, m.files, UnifiedFilename, unified), codec.parse(codec.compact(unified)),
          true, m.names)
  }

  // No split file can be copied any more.
  predicate Complete(files: Files, targets: seq<Target>) {
    forall i | 0 <= i < |targets| :: targets[i].filename in files || targets[i].example !in files
  }

  predicate IsTarget(f: string, targets: seq<Target>) {
    exists i | 0 <= i < |targets| :: targets[i].filename == f
  }

  // The sixth character from the end tells the names apart: .example.json, tool-policy.json and the rest.
  lemma ExampleNames()
    ensures forall i | 0 <= i < |Targets| ::
      |Targets[i].example| > 6 && Targets[i].example[|Targets[i].example| - 6] == 'e'
    ensures forall i | 0 <= i < |Targets| ::
      |Targets[i].filename| > 6 && Targets[i].filename[|Targets[i].filename| - 6] != 'e'
    ensures UnifiedFilename[|UnifiedFilename| - 6] == 'l' && |UnifiedFilename| == 16 && UnifiedFilename[0] == 'g'
  {
  }

  lemma SplitNames()
    ensures Distinct(Targets)
    ensures forall i | 0 <= i < |Targets| :: Targets[i].aliases != [] && Targets[i].filename != UnifiedFilename
  {
    assert |Targets[0].filename| == 21;
    assert |Targets[1].filename| == 16 && Targets[1].filename[0] == 't';
    assert |Targets[2].filename| == 12;
    assert |Targets[3].filename| == 18;
    assert |Targets[4].filename| == 14;
    assert |UnifiedFilename| == 16 && UnifiedFilename[0] == 'g';
  }

  lemma TheTargets()
    ensures Distinct(Targets)
    ensures forall i, j | 0 <= i < |Targets| && 0 <= j < |Targets| :: Targets[i].example != Targets[j].filename
    ensures forall i | 0 <= i < |Targets| ::
      Targets[i].example != UnifiedFilename && Targets[i].filename != UnifiedFilename
    ensures forall i | 0 <= i < |Targets| :: Targets[i].aliases != []
  {
    hide Targets, UnifiedFilename;
    ExampleNames();
    SplitNames();
  }

  lemma {:induction false} MaterializeCopies(files: Files, targets: seq<Target>, names: seq<string>)
    requires forall i, j | 0 <= i < |targets| && 0 <= j < |targets| :: targets[i].example != targets[j].filename
    ensures var m := Materialize(files, targets, names);
      && Complete(m.files, targets)
      && (forall f | f in files :: f in m.files && m.files[f] == files[f])
      && (forall f | f in m.files && f !in files :: IsTarget(f, targets))
    decreases |targets|
  {
    if targets != [] {
      var t, rest := targets[0], targets[1..];
      assert forall i | 0 <= i < |rest| :: rest[i] == targets[i + 1];
      var next := if t.filename in files || t.example !in files then files else files[t.filename := files[t.example]];
      MaterializeCopies(next, rest, if next == files then names else names + [t.filename]);
      var m := Materialize(files, targets, names);
      assert m.files == Materialize(next, rest, if next == files then names else names + [t.filename]).files;
      forall f | f in m.files && f !in files ensures IsTarget(f, targets) {
        if f in next {
          assert targets[0].filename == f;
        } else {
          var i :| 0 <= i < |rest| && rest[i].filename == f;
          assert targets[i + 1].filename == f;
        }
      }
      assert !IsTarget(t.example, targets);
    }
  }

  lemma {:induction false} CompleteStays(files: Files, targets: seq<Target>)
    requires Complete(files, targets)
    ensures Materialize(files, targets, []) == Copied(files, [])
    decreases |targets|
  {
    if targets != [] {
      var rest := targets[1..];
      assert forall i | 0 <= i < |rest| :: rest[i] == targets[i + 1];
      CompleteStays(files, rest);
    }
  }

  lemma SectionsKeepComplete(codec: Codec, files: Files, payload: map<string, Json>)
    requires Complete(files, Targets)
    ensures var after := SyncSections(codec, files, payload, Targets, []).files;
      && Complete(after, Targets)
      && (UnifiedFilename in after <==> UnifiedFilename in files)
      && Current(after, UnifiedFilename) == Current(files, UnifiedFilename)
  {
    TheTargets();
    var after := SyncSections(codec, files, payload, Targets, []).files;
    forall i | 0 <= i < |Targets| ensures Targets[i].filename in after || Targets[i].example !in after {
      SectionsTouchTheirFiles(codec, files, payload, Targets, [], Targets[i].filename);
      SectionsTouchTheirFiles(codec, files, payload, Targets, [], Targets[i].example);
    }
    SectionsTouchTheirFiles(codec, files, payload, Targets, [], UnifiedFilename);
  }

  function NothingToDo(r: Result<Report>): Result<Report> {
    if r.Ok? then Ok(Report(false, [], [])) else r
  }

  lemma ParsedFieldsAreReadable(codec: Codec, text: string)
    requires Lawful(codec) && codec.parse(text).Some? && codec.parse(text).value.Obj?
    ensures ReadableFields(codec, codec.parse(text).value.fields)
  {
    assert Readable(codec, codec.parse(text).value);
    hide Readable;
  }

  lemma {:induction false} BuiltIsReadable(codec: Codec, files: Files, targets: seq<Target>, payload: map<string, Json>)
    requires ReadableFields(codec, payload) && forall i | 0 <= i < |targets| :: targets[i].aliases != []
    ensures var built := BuildUnified(codec, files, targets, payload);
      built.Ok? ==> ReadableFields(codec, built.value)
    decreases |targets|
  {
    if targets != [] && ReadJson(codec, files, targets[0].filename).Ok? {
      var v := ReadJson(codec, files, targets[0].filename).value;
      assert Readable(codec, v);
      BuiltIsReadable(codec, files, targets[1..], payload[targets[0].aliases[0] := v]);
    }
  }

  lemma UnifiedIsReadable(codec: Codec, files: Files)
    requires Lawful(codec)
    ensures forall i | 0 <= i < |Targets| :: Targets[i].aliases != []
    ensures var built := BuildUnified(codec, files, Targets, map["version" := Scalar("1")]);
      built.Ok? ==> ReadableFields(codec, built.value) && Readable(codec, Obj(built.value))
  {
    hide Targets, Readable, BuildUnified;
    TheTargets();
    assert ReadableFields(codec, map["version" := Scalar("1")]);
    BuiltIsReadable(codec, files, Targets, map["version" := Scalar("1")]);
  }

  // A second run that finds the same unified value changes nothing.
  lemma SyncParsedAgain(codec: Codec, files: Files, parsed: Option<Json>, created: bool, names: seq<string>)
    requires Lawful(codec) && Complete(files, Targets)
    requires UnifiedFilename in files && codec.parse(files[UnifiedFilename]) == parsed
    ensures var first := SyncParsed(codec, files, parsed, created, names);
      forall createIfMissing :: Sync(codec, first.files, createIfMissing) == Run(first.files, NothingToDo(first.result))
  {
    hide Lawful, SyncSections, Complete, Targets;
    var first := SyncParsed(codec, files, parsed, created, names);
    TheTargets();
    if parsed.Some? && parsed.value.Obj? {
      SectionsKeepComplete(codec, files, parsed.value.fields);
      ParsedFieldsAreReadable(codec, files[UnifiedFilename]);
      SectionsSettle(codec, files, parsed.value.fields, Targets, []);
    }
    CompleteStays(first.files, Targets);
  }

  // Main result: whatever the directory holds and however the first run ends, the second run changes no
  // file. After a success it copies nothing, syncs nothing and succeeds; after a failure it fails the same way.
  lemma SyncIsIdempotent(codec: Codec, files: Files, createIfMissing: bool)
    requires Lawful(codec)
    ensures var first := Sync(codec, files, createIfMissing);
      Sync(codec, first.files, createIfMissing) == Run(first.files, NothingToDo(first.result))
  {
    hide Lawful, SyncSections, SyncParsed, Complete, Materialize, BuildUnified, Targets;
    TheTargets();
    MaterializeCopies(files, Targets, []);
    var m := Materialize(files, Targets, []);
    CompleteStays(m.files, Targets);
    if UnifiedFilename in m.files {
      SyncParsedAgain(codec, m.files, codec.parse(m.files[UnifiedFilename]), false, m.names);
    } else if createIfMissing {
      var built := BuildUnified(codec, m.files, Targets, map["version" := Scalar("1")]);
      if built.Ok? {
        var unified := Obj(built.value);
        UnifiedIsReadable(codec, m.files);
        UnifiedIsReadBack(codec, m.files, unified);
        SyncParsedAgain(codec, Written(codec, m.files, UnifiedFilename, unified), codec.parse(codec.compact(unified)),
          true, m.names);
      }
    }
  }

  lemma UnifiedIsReadBack(codec: Codec, files: Files, unified: Json)
    requires Lawful(codec) && Readable(codec, unified) && Complete(files, Targets) && UnifiedFilename !in files
    ensures var after := Written(codec, files, UnifiedFilename, unified);
      && Complete(after, Targets) && UnifiedFilename in after
      && codec.parse(after[UnifiedFilename]) == codec.parse(codec.compact(unified)) == Some(Reread(codec, unified))
  {
    hide Lawful, Readable, Comparable, Normalize, ApplyPreferred, DetectLineEnding;
    WritesWhenLawful(codec, unified);
    TheTargets();
    WritingSettles(codec, files, UnifiedFilename, unified);
    SerializedText(codec, unified);
    NoPairWithoutReturns(Serialize(codec, unified));
    NothingIsPlain();
    WrittenPlainly(codec, unified);
    hide Serialize, Targets, Reread;
  }

  lemma NothingIsPlain()
    ensures Comparable("") == "" && DetectLineEnding("") == Lf
  {
    NoPairWithoutReturns("");
  }

  // A new file gets the serialized text as it is.
  lemma WrittenPlainly(codec: Codec, v: Json)
    requires WritesWell(codec, v)
    ensures ApplyPreferred(Serialize(codec, v), Lf) == Serialize(codec, v)
  {
    NoPairWithoutReturns(Serialize(codec, v));
  }

  // Main result: after a run that succeeds with a unified file, every section it has stands in its split
  // file, normalized, as far as the sync comparison can tell.
  lemma SplitFilesMatch(codec: Codec, files: Files, createIfMissing: bool)
    requires Lawful(codec)
    ensures var run := Sync(codec, files, createIfMissing);
      run.result.Ok? && UnifiedFilename in run.files ==>
        && codec.parse(run.files[UnifiedFilename]).Some? && codec.parse(run.files[UnifiedFilename]).value.Obj?
        && var payload := codec.parse(run.files[UnifiedFilename]).value.fields;
           forall i | 0 <= i < |Targets| && Expected(payload, Targets[i]).Some? ::
             && Expected(payload, Targets[i]).value.Ok?
             && Targets[i].filename in run.files
             && UpToDate(codec, run.files, Targets[i].filename, Expected(payload, Targets[i]).value.value)
  {
    hide Lawful, SyncSections, Complete, Materialize, BuildUnified, Targets, UpToDate, Expected;
    var first := Sync(codec, files, createIfMissing);
    SyncIsIdempotent(codec, files, createIfMissing);
    if first.result.Ok? && UnifiedFilename in first.files {
      TheTargets();
      MaterializeCopies(first.files, Targets, []);
      var m := Materialize(first.files, Targets, []);
      var parsed := codec.parse(m.files[UnifiedFilename]);
      assert m.files[UnifiedFilename] == first.files[UnifiedFilename];
      ParsedFieldsAreReadable(codec, m.files[UnifiedFilename]);
      SectionsSettle(codec, m.files, parsed.value.fields, Targets, []);
    }
  }

  // The payload built from the split files has the value of each under the first alias of its section.
  lemma {:induction false} BuiltSections(codec: Codec, files: Files, targets: seq<Target>, payload: map<string, Json>)
    requires forall i | 0 <= i < |targets| :: targets[i].aliases != []
    requires forall i, j | 0 <= i < j < |targets| :: targets[i].aliases[0] != targets[j].aliases[0]
    ensures var built := BuildUnified(codec, files, targets, payload);
      && (built.Ok? <==> forall i | 0 <= i < |targets| :: ReadJson(codec, files, targets[i].filename).Ok?)
      && (built.Ok? ==> forall i | 0 <= i < |targets| ::
            && targets[i].aliases[0] in built.value
            && Ok(built.value[targets[i].aliases[0]]) == ReadJson(codec, files, targets[i].filename))
      && (built.Ok? ==> forall k | k in payload && (forall i | 0 <= i < |targets| :: targets[i].aliases[0] != k) ::
            k in built.value && built.value[k] == payload[k])
    decreases |targets|
  {
    hide ReadJson;
    if targets != [] && ReadJson(codec, files, targets[0].filename).Ok? {
      var rest := targets[1..];
      assert forall i | 0 <= i < |rest| :: rest[i] == targets[i + 1];
      var v := ReadJson(codec, files, targets[0].filename).value;
      BuiltSections(codec, files, rest, payload[targets[0].aliases[0] := v]);
      assert forall i | 1 <= i < |targets| :: targets[i] == rest[i - 1];
    }
  }

  lemma FirstAliases()
    ensures forall i, j | 0 <= i < j < |Targets| :: Targets[i].aliases[0] != Targets[j].aliases[0]
  {
    assert Targets[0].aliases[0][0] == 'a';
    assert Targets[1].aliases[0][0] == 't';
    assert Targets[2].aliases[0][0] == 'b';
    assert Targets[3].aliases[0][0] == 'l';
    assert Targets[4].aliases[0][0] == 'c';
  }

  // Main result: a run that creates the unified file from the split files gives back in every split file,
  // normalized, the value that was in it.
  lemma CreationKeepsTheSplitFiles(codec: Codec, files: Files)
    requires Lawful(codec) && UnifiedFilename !in files
    ensures var run := Sync(codec, files, true);
      var before := Materialize(files, Targets, []).files;
      run.result.Ok? ==>
        && run.result.value.createdUnified
        && forall i | 0 <= i < |Targets| ::
             && ReadJson(codec, before, Targets[i].filename).Ok?
             && var section := NormalizeSection(ReadJson(codec, before, Targets[i].filename).value,
               Targets[i].filename);
                section.Ok? && UpToDate(codec, run.files, Targets[i].filename, section.value)
  {
    hide Lawful, Readable, ReadableFields, Reread, SyncSections, Complete, Materialize, BuildUnified, Targets,
      UpToDate, NormalizeSection, ReadJson, Written;
    TheTargets();
    FirstAliases();
    MaterializeCopies(files, Targets, []);
    var before := Materialize(files, Targets, []).files;
    assert UnifiedFilename !in before;
    BuiltSections(codec, before, Targets, map["version" := Scalar("1")]);
    var built := BuildUnified(codec, before, Targets, map["version" := Scalar("1")]);
    if built.Ok? {
      var unified := Obj(built.value);
      UnifiedIsReadable(codec, before);
      UnifiedIsReadBack(codec, before, unified);
      var payload := RereadPayload(codec, built.value);
      var written := Written(codec, before, UnifiedFilename, unified);
      SectionsSettle(codec, written, payload, Targets, []);
      var run := SyncParsed(codec, written, codec.parse(codec.compact(unified)), true, []);
      forall i | 0 <= i < |Targets| && run.result.Ok?
        ensures var section := NormalizeSection(built.value[Targets[i].aliases[0]], Targets[i].filename);
                section.Ok? && UpToDate(codec, run.files, Targets[i].filename, section.value)
      {
        var v := built.value[Targets[i].aliases[0]];
        assert Expected(payload, Targets[i]) == Some(NormalizeSection(Reread(codec, v), Targets[i].filename));
        RereadSection(codec, v, Targets[i].filename);
        SameTextSameState(codec, run.files, Targets[i].filename,
          NormalizeSection(v, Targets[i].filename).value,
          NormalizeSection(Reread(codec, v), Targets[i].filename).value);
      }
    }
  }

  lemma RereadPayload(codec: Codec, fields: map<string, Json>) returns (payload: map<string, Json>)
    requires Lawful(codec) && Readable(codec, Obj(fields))
    ensures Reread(codec, Obj(fields)) == Obj(payload) && payload.Keys == fields.Keys
    ensures forall k | k in fields :: payload[k] == Reread(codec, fields[k]) && Readable(codec, fields[k])
    ensures ReadableFields(codec, payload)
  {
    RereadParts(codec, Obj(fields));
    payload := Reread(codec, Obj(fields)).fields;
    assert WritesWell(codec, Obj(fields));
    assert codec.parse(codec.compact(Obj(fields))) == Some(Obj(payload));
    ParsedFieldsAreReadable(codec, codec.compact(Obj(fields)));
  }

  lemma SameTextSameState(codec: Codec, files: Files, filename: string, v: Json, w: Json)
    requires codec.pretty(v) == codec.pretty(w)
    ensures UpToDate(codec, files, filename, v) <==> UpToDate(codec, files, filename, w)
  {
  }
}
