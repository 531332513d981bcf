/** Which keys of log metadata are sensitive: a key is cut into words, and the words decide. */
module KeyRule {
  import opened EnvText

  predicate Upper(c: char) { 'A' <= c <= 'Z' }
  predicate Letter(c: char) { 'a' <= c <= 'z' }
  predicate Digit(c: char) { '0' <= c <= '9' }
  predicate Separator(c: char) { IsSpace(c) || c == '_' || c == '-' }

  function ToLower(c: char): char {
    if Upper(c) then (c as int + 32) as char else c
  }

  function ToUpper(c: char): char {
    if Letter(c) then (c as int - 32) as char else c
  }

  function Lowered(s: string): string {
    seq(|s|, i requires 0 <= i < |s| => ToLower(s[i]))
  }

  function Word(word: string): seq<string> {
    if word == "" then [] else [word]
  }

  // The words of what is left of a key, when `prev` came before it and `word` has been begun. A capital
  // begins a word behind a small letter or a digit, and behind a capital if a small letter follows.
  function WordsFrom(prev: char, key: string, word: string): seq<string>
    decreases |key|
  {
    if key == "" then Word(word)
    else
      var c := key[0];
      if Separator(c) then Word(word) + WordsFrom(c, key[1..], "")
      else if Upper(c) && (Letter(prev) || Digit(prev) || (Upper(prev) && |key| > 1 && Letter(key[1])))
      then Word(word) + WordsFrom(c, key[1..], [ToLower(c)])
      else WordsFrom(c, key[1..], word + [ToLower(c)])
  }

  function Words(key: string): seq<string> {
    WordsFrom(' ', key, "")
  }

  const SessionControlHeader := "x-goatcitadel-session-control-token"

  const SecretWords :=
    {"authorization", "bearer", "cookie", "credential", "credentials", "passwd", "password", "secret"}

  const SecretPairs := {("api", "key"), ("private", "key"), ("idempotency", "key"), ("client", "secret")}

  const UsageWords := {"budget", "count", "limit", "max", "per", "remaining", "total", "usage", "used"}

  predicate NamesAToken(words: seq<string>) {
    && words != [] && "token" in words
    && !(exists w | w in words :: w in UsageWords)
    && (words[0] == "token" || words[|words| - 1] == "token")
  }

  predicate IsSensitive(key: string) {
    var words := Words(key);
    || Lowered(key) == SessionControlHeader
    || (exists w | w in words :: w in SecretWords)
    || (exists i | 0 <= i < |words| - 1 :: (words[i], words[i + 1]) in SecretPairs)
    || NamesAToken(words)
  }

  // ---------------------------------------------------------------- keys written in camel case

  predicate Plain(word: string) {
    |word| >= 2 && forall i | 0 <= i < |word| :: Letter(word[i])
  }

  function Capitals(words: seq<string>): string
    requires forall i | 0 <= i < |words| :: Plain(words[i])
  {
    if words == [] then ""
    else
      assert Plain(words[0]);
      [ToUpper(words[0][0])] + words[0][1..] + Capitals(words[1..])
  }

  function Camel(words: seq<string>): string
    requires words != [] && forall i | 0 <= i < |words| :: Plain(words[i])
  {
    words[0] + Capitals(words[1..])
  }

  lemma {:induction false} LettersRunOn(prev: char, letters: string, rest: string, word: string)
    requires letters != "" && forall i | 0 <= i < |letters| :: Letter(letters[i])
    ensures WordsFrom(prev, letters + rest, word) == WordsFrom(letters[|letters| - 1], rest, word + letters)
    decreases |letters|
  {
    assert (letters + rest)[1..] == letters[1..] + rest;
    if |letters| > 1 {
      LettersRunOn(letters[0], letters[1..], rest, word + [letters[0]]);
      assert word + [letters[0]] + letters[1..] == word + letters;
    } else {
      assert letters[1..] + rest == rest && word + [letters[0]] == word + letters;
    }
  }

  lemma {:induction false} CapitalsAreWords(prev: char, words: seq<string>, word: string)
    requires Letter(prev) && word != "" && forall i | 0 <= i < |words| :: Plain(words[i])
    ensures WordsFrom(prev, Capitals(words), word) == [word] + words
    decreases |words|
  {
    if words != [] {
      var w, rest := words[0], Capitals(words[1..]);
      var c := ToUpper(w[0]);
      var key := [c] + w[1..] + rest;
      assert key[1..] == w[1..] + rest && ToLower(c) == w[0];
      assert WordsFrom(prev, key, word) == [word] + WordsFrom(c, w[1..] + rest, [w[0]]);
      LettersRunOn(c, w[1..], rest, [w[0]]);
      assert [w[0]] + w[1..] == w;
      CapitalsAreWords(w[|w| - 1], words[1..], w);
    }
  }

  // A key in camel case has the words it was made of.
  lemma CamelIsItsWords(words: seq<string>)
    requires words != [] && forall i | 0 <= i < |words| :: Plain(words[i])
    ensures Words(Camel(words)) == words
  {
    var w := words[0];
    LettersRunOn(' ', w, Capitals(words[1..]), "");
    assert "" + w == w;
    CapitalsAreWords(w[|w| - 1], words[1..], w);
  }

  lemma {:induction false} CapitalsHaveNoDash(words: seq<string>)
    requires forall i | 0 <= i < |words| :: Plain(words[i])
    ensures '-' !in Lowered(Capitals(words))
    decreases |words|
  {
    if words != [] {
      CapitalsHaveNoDash(words[1..]);
      var head := [ToUpper(words[0][0])] + words[0][1..];
      assert Lowered(Capitals(words)) == Lowered(head) + Lowered(Capitals(words[1..]));
      forall i | 0 <= i < |head| ensures Lowered(head)[i] != '-' {
        assert Letter(words[0][i]);
      }
    }
  }

  // A key in camel case is sensitive only through its words.
  lemma HarmlessWords(words: seq<string>)
    requires words != [] && forall i | 0 <= i < |words| :: Plain(words[i])
    requires forall i | 0 <= i < |words| :: words[i] !in SecretWords && words[i] !in {"key", "token"}
    ensures !IsSensitive(Camel(words))
  {
    CamelIsItsWords(words);
    CapitalsHaveNoDash(words[1..]);
    var key := Camel(words);
    assert Lowered(key) == Lowered(words[0]) + Lowered(Capitals(words[1..]));
    assert Lowered(key)[1] == words[0][1] && Letter(words[0][1]) && SessionControlHeader[1] == '-';
  }
}
