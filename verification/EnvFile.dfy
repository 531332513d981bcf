/**
 The local environment file, edited in place. Finding the file and writing it atomically are not modelled:
 `text` is what it holds, None when it does not exist.
*/
module EnvFile {
  import opened Options
  import opened EnvText
  import opened EnvEscapes
  import opened EnvEdits

  datatype Write = Updated | KeyAbsent | InvalidKey

  class LocalEnvFile {
    var text: Option<string>

    constructor (text: Option<string>)
      ensures this.text == text
    {
      this.text := text;
    }

    // What the file means.
    ghost function Contents(): map<string, string>
      reads this
    {
      if text.Some? then Parse(text.value) else map[]
    }

    method UpsertLocalEnvVar(key: string, value: string) returns (result: Write)
      modifies this
      ensures result == if ValidKey(Trim(key)) then Updated else InvalidKey
      ensures result == InvalidKey ==> text == old(text)
      ensures result == Updated ==>
        var k := Trim(key);
        && Contents() - {k} == old(Contents()) - {k}
        && (k in Contents() && Contents()[k] == value <==> k != "__proto__" && !Ambiguous(value))
    {
      hide Assignment, Decode, Escape, Unescape, ValidKey, Ambiguous, Lines, Join, Trim, ParseLines, Assigns,
        WithoutFinalBlank;
      var k := Trim(key);
      if !ValidKey(k) {
        return InvalidKey;
      }
      var nextLine := k + "=" + Serialize(value);
      var raw := if text.Some? then text.value else "";
      EmptyFileMeansNothing();
      UpsertThenParse(raw, k, value);
      UpsertReadsBackExactly(raw, k, value);
      var lines := Lines(raw);
      var replaced := false;
      var updated: seq<string> := [];
      for i := 0 to |lines|
        invariant updated == Replaced(lines[..i], k, nextLine)
        invariant replaced <==> exists line :: line in lines[..i] && Assigns(line, k)
      {
        assert lines[..i + 1][..i] == lines[..i];
        assert forall line :: line in lines[..i + 1] <==> line in lines[..i] || line == lines[i];
        if Assigns(lines[i], k) {
          replaced := true;
          updated := updated + [nextLine];
        } else {
          updated := updated + [lines[i]];
        }
      }
      assert lines[..|lines|] == lines;
      if !replaced {
        UnreplacedLinesStay(lines, k, nextLine);
      }
      text := Some(if replaced then (if updated == [] then "" else Join(updated))
                   else Join(WithoutFinalBlank(updated) + [nextLine, ""]));
      result := Updated;
    }

    method DeleteLocalEnvVar(key: string) returns (result: Write)
      modifies this
      ensures result == InvalidKey <==> !ValidKey(Trim(key))
      ensures result == KeyAbsent ==> text == old(text)
      ensures result != InvalidKey ==> Contents() == old(Contents()) - {Trim(key)}
      ensures result == InvalidKey ==> text == old(text)
      ensures result == Updated <==>
        ValidKey(Trim(key)) && old(text).Some? && Has(old(text).value, Trim(key))
    {
      hide Assignment, Decode, ValidKey, Lines, Join, Trim, ParseLines, Assigns, WithoutFinalBlank;
      var k := Trim(key);
      if !ValidKey(k) {
        return InvalidKey;
      }
      if text.None? {
        return KeyAbsent;
      }
      DeleteThenParse(text.value, k);
      var lines := Lines(text.value);
      var removed := false;
      var updated: seq<string> := [];
      for i := 0 to |lines|
        invariant updated == Removed(lines[..i], k)
        invariant removed <==> exists line :: line in lines[..i] && Assigns(line, k)
      {
        assert lines[..i + 1][..i] == lines[..i];
        assert forall line :: line in lines[..i + 1] <==> line in lines[..i] || line == lines[i];
        if Assigns(lines[i], k) {
          removed := true;
        } else {
          updated := updated + [lines[i]];
        }
      }
      assert lines[..|lines|] == lines;
      if !removed {
        return KeyAbsent;
      }
      text := Some(Join(WithoutFinalBlank(updated) + [""]));
      result := Updated;
    }

    method ReadLocalEnvVar(key: string) returns (value: Option<string>)
      ensures ValidKey(Trim(key)) ==>
        value == if Trim(key) in Contents() then Some(Contents()[Trim(key)]) else None
      ensures !ValidKey(Trim(key)) ==> value.None?
    {
      var k := Trim(key);
      if !ValidKey(k) || text.None? {
        return None;
      }
      var parsed := ParseEnv(text.value);
      value := if k in parsed then Some(parsed[k]) else None;
    }
  }

  method ParseEnv(raw: string) returns (out: map<string, string>)
    ensures out == Parse(raw)
  {
    out := map[];
    var lines := Lines(raw);
    for i := 0 to |lines|
      invariant out == ParseLines(lines[..i])
    {
      assert lines[..i + 1][..i] == lines[..i];
      match ParseLine(lines[i]) {
        case None =>
        case Some((key, value)) => if key != "__proto__" { out := out[key := value]; }
      }
    }
    assert lines[..|lines|] == lines;
  }

  lemma EmptyFileMeansNothing()
    ensures Parse("") == map[]
  {
    BlankDoesNotParse([]);
    assert [] + [""] == [""];
  }

  lemma {:induction false} UnreplacedLinesStay(lines: seq<string>, key: string, next: string)
    requires !exists line :: line in lines && Assigns(line, key)
    ensures Replaced(lines, key, next) == lines
  {
    hide Assigns;
    if lines != [] {
      var front := lines[..|lines| - 1];
      assert forall line :: line in front ==> line in lines;
      UnreplacedLinesStay(front, key, next);
      assert front + [lines[|lines| - 1]] == lines;
    }
  }

  // A value can come back changed: a backslash followed by the letter n.
  lemma AmbiguousValueIsLost(text: string, key: string)
    requires ValidKey(key)
    ensures var after := Parse(Upsert(text, key, "\\n")); !(key in after && after[key] == "\\n")
  {
    hide Parse, Upsert, ValidKey;
    UpsertReadsBackExactly(text, key, "\\n");
    assert "\\n"[0] == '\\' && "\\n"[0 + 1] in {'n', 'r', 't'};
  }

  // A valid key can be written and still not be there.
  lemma ProtoIsNeverStored(text: string, value: string)
    ensures ValidKey("__proto__") && "__proto__" !in Parse(Upsert(text, "__proto__", value))
  {
    hide Parse, Upsert;
    UpsertThenParse(text, "__proto__", value);
  }
}
