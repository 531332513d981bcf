/**
 What reading back an edited environment file gives.
*/
module EnvEdits {
  import opened Options
  import opened EnvText
  import opened EnvEscapes

  // ---------------------------------------------------------------- lines

  function WithoutCarriage(line: string): string {
    if line != "" && line[|line| - 1] == '\r' then line[..|line| - 1] else line
  }

  lemma CarriageIsTrimmed(line: string)
    ensures Assignment(WithoutCarriage(line)) == Assignment(line)
  {
    assert TrimEnd(WithoutCarriage(line)) == TrimEnd(line);
    hide TrimEnd, TrimStart, IndexOf, WithoutCarriage;
  }

  lemma {:induction false} LinesHaveNoFeeds(text: string)
    ensures forall line | line in Lines(text) :: '\n' !in line
  {
    if text != "" {
      if text[0] == '\n' {
        LinesHaveNoFeeds(text[1..]);
      } else if text[0] == '\r' && |text| > 1 && text[1] == '\n' {
        LinesHaveNoFeeds(text[2..]);
      } else {
        LinesHaveNoFeeds(text[1..]);
        var rest := Lines(text[1..]);
        assert rest[0] in rest;
      }
    }
  }

  lemma {:induction false} LinesOfOne(line: string)
    requires '\n' !in line
    ensures Lines(line) == [line]
  {
    if line != "" {
      LinesOfOne(line[1..]);
      assert [line[0]] + line[1..] == line;
    }
  }

  lemma {:induction false} LinesSplitAtFeed(line: string, rest: string)
    requires '\n' !in line
    ensures Lines(line + "\n" + rest) == [WithoutCarriage(line)] + Lines(rest)
  {
    var text := line + "\n" + rest;
    if line == "" {
      assert text[1..] == rest;
    } else if line == "\r" {
      assert text[2..] == rest;
      assert WithoutCarriage(line) == "";
    } else {
      var tail := line[1..];
      LinesSplitAtFeed(tail, rest);
      assert text[1..] == tail + "\n" + rest;
      if |line| == 1 {
        assert tail == "";
      } else {
        assert text[1] == line[1];
      }
      assert [line[0]] + WithoutCarriage(tail) == WithoutCarriage(line);
      assert ([WithoutCarriage(tail)] + Lines(rest))[1..] == Lines(rest);
    }
  }

  // Joined lines are read as the same assignments when they are split again.
  lemma {:induction false} JoinedLinesReadTheSame(lines: seq<string>)
    requires lines != [] && forall line | line in lines :: '\n' !in line
    ensures |Lines(Join(lines))| == |lines|
    ensures forall i | 0 <= i < |lines| :: Assignment(Lines(Join(lines))[i]) == Assignment(lines[i])
  {
    assert lines[0] in lines;
    if |lines| == 1 {
      LinesOfOne(lines[0]);
    } else {
      var tail := lines[1..];
      JoinedLinesReadTheSame(tail);
      LinesSplitAtFeed(lines[0], Join(tail));
      CarriageIsTrimmed(lines[0]);
      var split := Lines(Join(lines));
      assert split == [WithoutCarriage(lines[0])] + Lines(Join(tail));
      forall i | 0 <= i < |lines| ensures Assignment(split[i]) == Assignment(lines[i]) {
        if i > 0 {
          assert split[i] == Lines(Join(tail))[i - 1] && lines[i] == tail[i - 1];
        }
      }
    }
  }

  lemma {:induction false} SameAssignmentsParseTheSame(a: seq<string>, b: seq<string>)
    requires |a| == |b| && forall i | 0 <= i < |a| :: Assignment(a[i]) == Assignment(b[i])
    ensures ParseLines(a) == ParseLines(b)
  {
    hide Assignment;
    if a != [] {
      SameAssignmentsParseTheSame(a[..|a| - 1], b[..|b| - 1]);
    }
  }

  lemma JoinParses(lines: seq<string>)
    requires lines != [] && forall line | line in lines :: '\n' !in line
    ensures Parse(Join(lines)) == ParseLines(lines)
  {
    hide Assignment;
    JoinedLinesReadTheSame(lines);
    SameAssignmentsParseTheSame(Lines(Join(lines)), lines);
  }

  // ---------------------------------------------------------------- the written line

  lemma TrimKeeps(s: string)
    requires s != "" ==> !IsSpace(s[0]) && !IsSpace(s[|s| - 1])
    ensures Trim(s) == s
  {
  }

  lemma NotAnExport(key: string, rest: string)
    requires ValidKey(key) && |rest| >= 2
    ensures !StartsWith(key + "=" + rest, "export ")
  {
    var next := key + "=" + rest;
    if |key| <= 6 {
      assert next[|key|] != "export "[|key|];
    } else {
      assert key[6] in key;
      assert next[6] == key[6] != "export "[6];
    }
  }

  lemma {:induction false} FirstIndex(before: string, c: char, after: string)
    requires c !in before
    ensures IndexOf(before + [c] + after, c) == |before|
  {
    if before != "" {
      FirstIndex(before[1..], c, after);
      assert (before + [c] + after)[1..] == before[1..] + [c] + after;
    }
  }

  lemma WrittenLineIsRead(key: string, value: string)
    requires ValidKey(key)
    ensures var next := key + "=" + Serialize(value);
            Assignment(next) == Some((key, Serialize(value)))
  {
    hide Escape;
    var written := Serialize(value);
    var next := key + "=" + written;
    assert next[|next| - 1] == '"' && next[0] == key[0];
    assert !KeyChar('=');
    assert key[|key| - 1] in key && KeyChar(key[|key| - 1]);
    TrimKeeps(next);
    TrimKeeps(key);
    TrimKeeps(written);
    NotAnExport(key, written);
    FirstIndex(key, '=', written);
    var split := IndexOf(next, '=');
    assert next[..split] == key && next[split + 1..] == written;
  }

  lemma WrittenValueIsDecoded(key: string, value: string)
    requires ValidKey(key)
    ensures ParseLine(key + "=" + Serialize(value)) == Some((key, Unescape(Escape(value))))
  {
    hide Assignment, Escape, Unescape;
    WrittenLineIsRead(key, value);
    var written := Serialize(value);
    assert written[1..|written| - 1] == Escape(value);
  }

  lemma {:induction false} EscapedHasNoFeeds(v: string)
    ensures '\n' !in Escaped(v, 0)
  {
    if v != "" {
      EscapedHasNoFeeds(v[1..]);
    }
  }

  lemma WrittenLineHasNoFeed(key: string, value: string)
    requires ValidKey(key)
    ensures '\n' !in key + "=" + Serialize(value)
  {
    EscapeIsCharByChar(value);
    EscapedHasNoFeeds(value);
    hide Escape;
    assert !KeyChar('\n');
  }

  // ---------------------------------------------------------------- replacing and removing lines

  lemma AssigningApart(a: map<string, string>, b: map<string, string>, key: string, other: string, value: string)
    requires a - {key} == b - {key}
    ensures Assign(a, other, value) - {key} == Assign(b, other, value) - {key}
    ensures other == key ==> Assign(a, other, value) - {key} == a - {key}
  {
    assert forall k | k != key :: (k in a <==> k in a - {key}) && (k in b <==> k in b - {key});
    assert forall k | k != key && k in a :: a[k] == (a - {key})[k] == (b - {key})[k] == b[k];
  }

  lemma {:induction false} ReplacingParses(lines: seq<string>, key: string, next: string, read: string)
    requires ValidKey(key) && ParseLine(next) == Some((key, read))
    ensures var before, after := ParseLines(lines), ParseLines(Replaced(lines, key, next));
            && after - {key} == before - {key}
            && (key in after ==> after[key] == read)
            && (key in after <==> key != "__proto__" && exists line :: line in lines && Assigns(line, key))
    ensures |Replaced(lines, key, next)| == |lines|
    ensures forall line | line in Replaced(lines, key, next) :: line in lines || line == next
  {
    hide Assignment, Decode, ValidKey;
    if lines != [] {
      var front, last := lines[..|lines| - 1], lines[|lines| - 1];
      ReplacingParses(front, key, next, read);
      var updated := Replaced(lines, key, next);
      assert updated[..|updated| - 1] == Replaced(front, key, next);
      assert forall line :: line in lines <==> line in front || line == last;
      AssigningParses(last, key);
      var before, after := ParseLines(front), ParseLines(Replaced(front, key, next));
      match ParseLine(last) {
        case None =>
        case Some((k, v)) =>
          AssigningApart(before, after, key, k, v);
          AssigningApart(before, before, key, k, v);
          AssigningApart(after, after, key, key, read);
      }
    }
  }

  lemma {:induction false} RemovingParses(lines: seq<string>, key: string)
    requires ValidKey(key)
    ensures ParseLines(Removed(lines, key)) == ParseLines(lines) - {key}
    ensures forall line | line in Removed(lines, key) :: line in lines
  {
    hide Assignment, Decode, ValidKey;
    if lines != [] {
      var front, last := lines[..|lines| - 1], lines[|lines| - 1];
      RemovingParses(front, key);
      var updated := Removed(lines, key);
      AssigningParses(last, key);
      if Assigns(last, key) {
        assert updated == Removed(front, key);
      } else {
        assert updated[..|updated| - 1] == Removed(front, key);
      }
    }
  }

  // A line assigns the key exactly when it is read as an assignment to it.
  lemma AssigningParses(line: string, key: string)
    requires ValidKey(key)
    ensures Assigns(line, key) <==> ParseLine(line).Some? && ParseLine(line).value.0 == key
  {
    hide Assignment, Decode;
  }

  lemma BlankDoesNotParse(lines: seq<string>)
    ensures ParseLines(lines + [""]) == ParseLines(lines) == ParseLines(WithoutFinalBlank(lines))
  {
    assert (lines + [""])[..|lines|] == lines;
    assert ParseLine("") == None by { assert Trim("") == ""; }
  }

  // ---------------------------------------------------------------- the two edits

  predicate Has(text: string, key: string) {
    exists line :: line in Lines(text) && Assigns(line, key)
  }

  lemma AbsentKeyIsNotParsed(lines: seq<string>, key: string)
    requires ValidKey(key) && !exists line :: line in lines && Assigns(line, key)
    ensures key !in ParseLines(lines)
  {
    hide Assignment, Decode, ValidKey;
    if lines != [] {
      var front, last := lines[..|lines| - 1], lines[|lines| - 1];
      AbsentKeyIsNotParsed(front, key);
      assert last in lines;
      AssigningParses(last, key);
    }
  }

  // Main result: an upsert leaves every other key as it was, and gives the key the value that the
  // passes make of it; the one name that plain objects do not store stays unset.
  lemma UpsertThenParse(text: string, key: string, value: string)
    requires ValidKey(key)
    ensures var before, after := Parse(text), Parse(Upsert(text, key, value));
            && after - {key} == before - {key}
            && (key in after <==> key != "__proto__")
            && (key in after ==> after[key] == Unescape(Escape(value)))
  {
    hide Assignment, Decode, Escape, Unescape, ValidKey, Lines, Join, Trim, Replaced, Assigns;
    var next := key + "=" + Serialize(value);
    var lines := Lines(text);
    WrittenValueIsDecoded(key, value);
    WrittenLineHasNoFeed(key, value);
    LinesHaveNoFeeds(text);
    if exists line :: line in lines && Assigns(line, key) {
      ReplacingParses(lines, key, next, Unescape(Escape(value)));
      JoinParses(Replaced(lines, key, next));
    } else {
      var kept := WithoutFinalBlank(lines);
      assert kept + [next, ""] == (kept + [next]) + [""];
      assert (kept + [next])[..|kept|] == kept;
      JoinParses(kept + [next, ""]);
      BlankDoesNotParse(kept + [next]);
      BlankDoesNotParse(lines);
      AbsentKeyIsNotParsed(lines, key);
    }
  }

  // Main result: the value read back is the value written exactly when no backslash stands directly
  // before n, r or t, and the key is one that is stored at all.
  lemma UpsertReadsBackExactly(text: string, key: string, value: string)
    requires ValidKey(key)
    ensures var after := Parse(Upsert(text, key, value));
            (key in after && after[key] == value) <==> key != "__proto__" && !Ambiguous(value)
  {
    hide Upsert, Parse, Escape, Unescape, ValidKey;
    UpsertThenParse(text, key, value);
    UnescapeRestoresExactly(value);
  }

  // Main result: a deletion removes exactly the key.
  lemma DeleteThenParse(text: string, key: string)
    requires ValidKey(key)
    ensures Parse(Delete(text, key)) == Parse(text) - {key}
  {
    hide Assignment, Decode, ValidKey;
    var lines := Lines(text);
    LinesHaveNoFeeds(text);
    if exists line :: line in lines && Assigns(line, key) {
      RemovingParses(lines, key);
      var kept := WithoutFinalBlank(Removed(lines, key));
      JoinParses(kept + [""]);
      BlankDoesNotParse(kept);
      BlankDoesNotParse(Removed(lines, key));
    } else {
      AbsentKeyIsNotParsed(lines, key);
    }
  }
}
