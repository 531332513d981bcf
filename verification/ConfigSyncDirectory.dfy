/** The sync as it edits the directory, file by file. */
module ConfigSyncDirectory {
  import opened Options
  import opened LineEndings
  import opened ConfigSync
  import opened ConfigSyncRun

  class ConfigDirectory {
    const codec: Codec
    var files: Files

    constructor (codec: Codec, files: Files)
      ensures this.codec == codec && this.files == files
    {
      this.codec, this.files := codec, files;
    }

    method MaterializeConfigFilesFromExamples() returns (materialized: seq<string>)
      modifies this
      ensures Copied(files, materialized) == Materialize(old(files), Targets, [])
    {
      hide Targets;
      materialized := [];
      assert Targets[0..] == Targets;
      for i := 0 to |Targets|
        invariant Materialize(files, Targets[i..], materialized) == Materialize(old(files), Targets, [])
      {
        var target := Targets[i];
        assert Targets[i..][1..] == Targets[i + 1..];
        if target.filename in files || target.example !in files {
          continue;
        }
        files := files[target.filename := files[target.example]];
        materialized := materialized + [target.filename];
      }
    }

    // A file that compares equal is left alone; any other is rewritten with the line endings it had.
    method WriteJsonIfChanged(filename: string, data: Json) returns (changed: bool)
      modifies this
      ensures files == Written(codec, old(files), filename, data)
      ensures changed <==> !UpToDate(codec, old(files), filename, data)
    {
      var serialized := Serialize(codec, data);
      var current := if filename in files then files[filename] else "";
      if Comparable(current) == Comparable(serialized) {
        return false;
      }
      files := files[filename := ApplyPreferred(serialized, DetectLineEnding(current))];
      changed := true;
    }

    method BuildUnifiedFromSplitFiles() returns (r: Result<map<string, Json>>)
      ensures r == BuildUnified(codec, files, Targets, map["version" := Scalar("1")])
    {
      hide Targets;
      TheTargets();
      var payload := map["version" := Scalar("1")];
      assert Targets[0..] == Targets;
      for i := 0 to |Targets|
        invariant BuildUnified(codec, files, Targets[i..], payload) ==
          BuildUnified(codec, files, Targets, map["version" := Scalar("1")])
      {
        assert Targets[i..][1..] == Targets[i + 1..];
        match ReadJson(codec, files, Targets[i].filename) {
          case Err(e) => return Err(e);
          case Ok(v) => payload := payload[Targets[i].aliases[0] := v];
        }
      }
      r := Ok(payload);
    }

    method SyncUnifiedConfig(createUnifiedIfMissing: bool) returns (r: Result<Report>)
      modifies this
      ensures Run(files, r) == Sync(codec, old(files), createUnifiedIfMissing)
    {
      hide Targets, Written, UpToDate, BuildUnified, Materialize, NormalizeSection, ReadSection;
      var materialized := MaterializeConfigFilesFromExamples();
      var created := false;
      var parsed: Option<Json>;
      if UnifiedFilename in files {
        parsed := codec.parse(files[UnifiedFilename]);
      } else {
        if !createUnifiedIfMissing {
          return Ok(Report(false, materialized, []));
        }
        var initial := BuildUnifiedFromSplitFiles();
        if initial.Err? {
          return Err(initial.error);
        }
        var _ := WriteJsonIfChanged(UnifiedFilename, Obj(initial.value));
        created := true;
        parsed := codec.parse(codec.compact(Obj(initial.value)));
      }
      if parsed == None {
        return Err(InvalidJson(UnifiedFilename));
      }
      if !parsed.value.Obj? {
        return Err(NotAnObject);
      }
      var outcome := SyncSectionFiles(parsed.value.fields);
      r := match outcome case Done(synced) => Ok(Report(created, materialized, synced)) case Failed(e) => Err(e);
    }

    method SyncSectionFiles(payload: map<string, Json>) returns (outcome: Outcome)
      modifies this
      ensures Synced(files, outcome) == SyncSections(codec, old(files), payload, Targets, [])
    {
      hide Targets, Written, UpToDate, NormalizeSection, ReadSection;
      var syncedSections := [];
      assert Targets[0..] == Targets;
      for i := 0 to |Targets|
        invariant SyncSections(codec, files, payload, Targets[i..], syncedSections) ==
          SyncSections(codec, old(files), payload, Targets, [])
      {
        var target := Targets[i];
        assert Targets[i..][0] == target && Targets[i..][1..] == Targets[i + 1..];
        var sectionValue := ReadSection(payload, target.aliases);
        if sectionValue == None {
          continue;
        }
        var normalized := NormalizeSection(sectionValue.value, target.filename);
        if normalized.Err? {
          return Failed(normalized.error);
        }
        var changed := WriteJsonIfChanged(target.filename, normalized.value);
        if changed {
          syncedSections := syncedSections + [target.filename];
        }
      }
      assert Targets[|Targets|..] == [];
      outcome := Done(syncedSections);
    }
  }

  // Two runs in a row: the second finds nothing to do and no file is touched.
  method SyncTwice(codec: Codec, files: Files, createUnifiedIfMissing: bool)
    returns (first: Result<Report>, second: Result<Report>, after: Files)
    requires Lawful(codec)
    ensures Run(after, first) == Sync(codec, files, createUnifiedIfMissing)
    ensures second == NothingToDo(first)
  {
    hide Sync, Lawful;
    var directory := new ConfigDirectory(codec, files);
    first := directory.SyncUnifiedConfig(createUnifiedIfMissing);
    SyncIsIdempotent(codec, files, createUnifiedIfMissing);
    second := directory.SyncUnifiedConfig(createUnifiedIfMissing);
    after := directory.files;
  }
}
