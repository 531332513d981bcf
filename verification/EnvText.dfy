/**
 The text of a local environment file: how it is split into lines, read, and edited.
*/
module EnvText {
  import opened Options

  // The characters that trimming removes.
  predicate IsSpace(c: char) {
    || c in {'\t', '\n', '\U{000B}', '\U{000C}', '\r', ' ', '\U{00A0}', '\U{1680}', '\U{2028}', '\U{2029}',
             '\U{202F}', '\U{205F}', '\U{3000}', '\U{FEFF}'}
    || '\U{2000}' <= c <= '\U{200A}'
  }

  function TrimStart(s: string): string {
    if s != "" && IsSpace(s[0]) then TrimStart(s[1..]) else s
  }

  function TrimEnd(s: string): string {
    if s != "" && IsSpace(s[|s| - 1]) then TrimEnd(s[..|s| - 1]) else s
  }

  function Trim(s: string): string {
    TrimStart(TrimEnd(s))
  }

  // The text split at every line feed, together with one carriage return before it.
  function Lines(text: string): (lines: seq<string>)
    ensures lines != []
  {
    if text == "" then [""]
    else if text[0] == '\n' then [""] + Lines(text[1..])
    else if text[0] == '\r' && |text| > 1 && text[1] == '\n' then [""] + Lines(text[2..])
    else
      var rest := Lines(text[1..]);
      [[text[0]] + rest[0]] + rest[1..]
  }

  function Join(lines: seq<string>): string
    requires lines != []
  {
    if |lines| == 1 then lines[0] else lines[0] + "\n" + Join(lines[1..])
  }

  function IndexOf(s: string, c: char): (i: int)
    ensures -1 <= i < |s|
    ensures i >= 0 ==> s[i] == c && c !in s[..i]
    ensures i < 0 ==> c !in s
  {
    if s == "" then -1
    else if s[0] == c then 0
    else
      var i := IndexOf(s[1..], c);
      if i < 0 then -1 else i + 1
  }

  predicate StartsWith(s: string, prefix: string) {
    prefix <= s
  }

  predicate KeyStart(c: char) {
    'A' <= c <= 'Z' || 'a' <= c <= 'z' || c == '_'
  }

  predicate KeyChar(c: char) {
    KeyStart(c) || '0' <= c <= '9'
  }

  predicate ValidKey(k: string) {
    k != "" && KeyStart(k[0]) && forall c | c in k :: KeyChar(c)
  }

  // The key and the raw value of an assignment line.
  function Assignment(line: string): Option<(string, string)> {
    var trimmed := Trim(line);
    if trimmed == "" || trimmed[0] == '#' then None
    else
      var candidate := if StartsWith(trimmed, "export ") then TrimStart(trimmed[7..]) else trimmed;
      var split := IndexOf(candidate, '=');
      if split <= 0 then None
      else Some((Trim(candidate[..split]), Trim(candidate[split + 1..])))
  }

  // Every backslash followed by `x` becomes `r`, from left to right.
  function ReplacePair(s: string, x: char, r: char): string {
    if |s| < 2 then s
    else if s[0] == '\\' && s[1] == x then [r] + ReplacePair(s[2..], x, r)
    else [s[0]] + ReplacePair(s[1..], x, r)
  }

  function ReplaceChar(s: string, c: char, rep: string): string {
    if s == "" then "" else (if s[0] == c then rep else [s[0]]) + ReplaceChar(s[1..], c, rep)
  }

  // The first index of a space followed by '#', or the length.
  function CommentStart(s: string): (i: nat)
    ensures i <= |s|
  {
    if |s| < 2 then |s| else if s[0] == ' ' && s[1] == '#' then 0 else 1 + CommentStart(s[1..])
  }

  function Unescape(s: string): string {
    var breaks := ReplacePair(ReplacePair(ReplacePair(s, 'n', '\n'), 'r', '\r'), 't', '\t');
    ReplacePair(ReplacePair(breaks, '"', '"'), '\\', '\\')
  }

  function Decode(raw: string): string {
    if |raw| >= 2 && raw[0] == '"' && raw[|raw| - 1] == '"' then Unescape(raw[1..|raw| - 1])
    else if |raw| >= 2 && raw[0] == '\'' && raw[|raw| - 1] == '\'' then raw[1..|raw| - 1]
    else if CommentStart(raw) < |raw| then TrimEnd(raw[..CommentStart(raw)])
    else raw
  }

  function Escape(value: string): string {
    var quoted := ReplaceChar(ReplaceChar(value, '\\', "\\\\"), '"', "\\\"");
    ReplaceChar(ReplaceChar(ReplaceChar(quoted, '\n', "\\n"), '\r', "\\r"), '\t', "\\t")
  }

  function Serialize(value: string): string {
    "\"" + Escape(value) + "\""
  }

  // Assigning to a plain object: a string put under this one name is dropped.
  function Assign(out: map<string, string>, key: string, value: string): map<string, string> {
    if key == "__proto__" then out else out[key := value]
  }

  function ParseLine(line: string): Option<(string, string)> {
    match Assignment(line)
    case None => None
    case Some((key, raw)) => if ValidKey(key) then Some((key, Decode(raw))) else None
  }

  function ParseLines(lines: seq<string>): map<string, string> {
    if lines == [] then map[]
    else
      var before := ParseLines(lines[..|lines| - 1]);
      match ParseLine(lines[|lines| - 1])
      case None => before
      case Some((key, value)) => Assign(before, key, value)
  }

  function Parse(text: string): map<string, string> {
    ParseLines(Lines(text))
  }

  predicate Assigns(line: string, key: string) {
    var a := Assignment(line);
    a.Some? && a.value.0 == key
  }

  function Replaced(lines: seq<string>, key: string, next: string): seq<string> {
    if lines == [] then []
    else Replaced(lines[..|lines| - 1], key, next)
         + [if Assigns(lines[|lines| - 1], key) then next else lines[|lines| - 1]]
  }

  function Removed(lines: seq<string>, key: string): seq<string> {
    if lines == [] then []
    else Removed(lines[..|lines| - 1], key)
         + if Assigns(lines[|lines| - 1], key) then [] else [lines[|lines| - 1]]
  }

  // A final empty line is dropped; it will be put back.
  function WithoutFinalBlank(lines: seq<string>): seq<string> {
    if lines != [] && lines[|lines| - 1] == "" then lines[..|lines| - 1] else lines
  }

  function Upsert(text: string, key: string, value: string): string {
    var next := key + "=" + Serialize(value);
    var lines := Lines(text);
    if exists line :: line in lines && Assigns(line, key) then
      var updated := Replaced(lines, key, next);
      if updated == [] then "" else Join(updated)
    else Join(WithoutFinalBlank(lines) + [next, ""])
  }

  function Delete(text: string, key: string): string {
    var lines := Lines(text);
    if exists line :: line in lines && Assigns(line, key) then Join(WithoutFinalBlank(Removed(lines, key)) + [""])
    else text
  }
}
