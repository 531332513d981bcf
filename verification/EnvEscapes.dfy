/**
 Which values survive being escaped and unescaped: the escapes are undone by five passes, one after the
 other, and the first three can mistake an escaped backslash for the start of an escape.
*/
module EnvEscapes {
  import opened EnvText

  // A backslash stands directly before a letter that the passes read as an escape.
  predicate Ambiguous(v: string) {
    exists i :: 0 <= i && i + 1 < |v| && v[i] == '\\' && v[i + 1] in {'n', 'r', 't'}
  }

  // One character after the escapes were applied and the first `passes` passes undone.
  function EscapedChar(c: char, passes: nat): string {
    if c == '\\' then (if passes <= 4 then "\\\\" else "\\")
    else if c == '"' then (if passes <= 3 then "\\\"" else "\"")
    else if c == '\n' then (if passes < 1 then "\\n" else "\n")
    else if c == '\r' then (if passes < 2 then "\\r" else "\r")
    else if c == '\t' then (if passes < 3 then "\\t" else "\t")
    else [c]
  }

  function Escaped(v: string, passes: nat): string {
    if v == "" then "" else EscapedChar(v[0], passes) + Escaped(v[1..], passes)
  }

  lemma {:induction false} ReplaceCharAppends(a: string, b: string, c: char, rep: string)
    ensures ReplaceChar(a + b, c, rep) == ReplaceChar(a, c, rep) + ReplaceChar(b, c, rep)
  {
    if a == "" {
      assert a + b == b;
    } else {
      ReplaceCharAppends(a[1..], b, c, rep);
      assert (a + b)[1..] == a[1..] + b;
    }
  }

  lemma {:induction false} EscapeIsCharByChar(v: string)
    ensures Escape(v) == Escaped(v, 0)
  {
    if v != "" {
      EscapeIsCharByChar(v[1..]);
      EscapeAppends([v[0]], v[1..]);
      EscapeOne(v[0]);
      assert v == [v[0]] + v[1..];
    }
  }

  lemma {:induction false} ReplaceCharAbsent(s: string, c: char, rep: string)
    requires c !in s
    ensures ReplaceChar(s, c, rep) == s
  {
    if s != "" {
      ReplaceCharAbsent(s[1..], c, rep);
    }
  }

  // One pass over the escape of a single character: it applies to the bare character only.
  lemma EscapePass(c: char, s: string, x: char, rep: string)
    requires s == [c] || x !in s
    ensures ReplaceChar(s, x, rep) == if s == [x] then rep else s
  {
    if x !in s {
      ReplaceCharAbsent(s, x, rep);
    } else {
      assert s[1..] == "";
      assert ReplaceChar(s, x, rep) == rep + "";
    }
  }

  lemma EscapeOne(c: char)
    ensures Escape([c]) == EscapedChar(c, 0)
  {
    EscapePass(c, [c], '\\', "\\\\");
    var s1 := if c == '\\' then "\\\\" else [c];
    EscapePass(c, s1, '"', "\\\"");
    var s2 := if s1 == ['"'] then "\\\"" else s1;
    EscapePass(c, s2, '\n', "\\n");
    var s3 := if s2 == ['\n'] then "\\n" else s2;
    EscapePass(c, s3, '\r', "\\r");
    var s4 := if s3 == ['\r'] then "\\r" else s3;
    EscapePass(c, s4, '\t', "\\t");
  }

  lemma EscapeAppends(a: string, b: string)
    ensures Escape(a + b) == Escape(a) + Escape(b)
  {
    ReplaceCharAppends(a, b, '\\', "\\\\");
    var a1, b1 := ReplaceChar(a, '\\', "\\\\"), ReplaceChar(b, '\\', "\\\\");
    ReplaceCharAppends(a1, b1, '"', "\\\"");
    var a2, b2 := ReplaceChar(a1, '"', "\\\""), ReplaceChar(b1, '"', "\\\"");
    ReplaceCharAppends(a2, b2, '\n', "\\n");
    var a3, b3 := ReplaceChar(a2, '\n', "\\n"), ReplaceChar(b2, '\n', "\\n");
    ReplaceCharAppends(a3, b3, '\r', "\\r");
    ReplaceCharAppends(ReplaceChar(a3, '\r', "\\r"), ReplaceChar(b3, '\r', "\\r"), '\t', "\\t");
  }

  // ---------------------------------------------------------------- the passes undo the escapes ...

  // The letter that pass number `pass` looks for after a backslash, and what it puts there.
  function PassLetter(pass: nat): char {
    if pass == 0 then 'n' else if pass == 1 then 'r' else if pass == 2 then 't' else if pass == 3 then '"' else '\\'
  }

  function PassResult(pass: nat): char {
    if pass == 0 then '\n' else if pass == 1 then '\r' else if pass == 2 then '\t' else if pass == 3 then '"' else '\\'
  }

  lemma {:induction false} PassUndoesItsEscape(v: string, pass: nat)
    requires !Ambiguous(v) && pass <= 4
    ensures ReplacePair(Escaped(v, pass), PassLetter(pass), PassResult(pass)) == Escaped(v, pass + 1)
  {
    if v != "" {
      var c, tail := v[0], v[1..];
      assert !Ambiguous(tail) by {
        forall i | 0 <= i && i + 1 < |tail| ensures !(tail[i] == '\\' && tail[i + 1] in {'n', 'r', 't'}) {
          assert tail[i] == v[i + 1] && tail[i + 1] == v[i + 2];
        }
      }
      PassUndoesItsEscape(tail, pass);
      var rest := Escaped(tail, pass);
      if c == '\\' && pass <= 3 && rest != "" {
        FirstEscaped(tail, pass);
        assert !(v[0] == '\\' && v[0 + 1] in {'n', 'r', 't'});
      }
      PassOverOne(c, rest, pass);
    }
  }

  lemma PassOverOne(c: char, rest: string, pass: nat)
    requires pass <= 4
    requires c == '\\' && pass <= 3 && rest != "" ==> rest[0] != PassLetter(pass)
    ensures ReplacePair(EscapedChar(c, pass) + rest, PassLetter(pass), PassResult(pass)) ==
            EscapedChar(c, pass + 1) + ReplacePair(rest, PassLetter(pass), PassResult(pass))
  {
    hide ReplacePair;
    HeadPass(EscapedChar(c, pass), rest, PassLetter(pass), PassResult(pass));
  }

  lemma FirstEscaped(v: string, pass: nat)
    requires v != "" && pass <= 3
    ensures Escaped(v, pass) != "" && Escaped(v, pass)[0] == EscapedChar(v[0], pass)[0]
  {
  }

  // How a pass treats the escape of one character, given what follows it.
  lemma HeadPass(head: string, rest: string, x: char, r: char)
    requires 1 <= |head| <= 2
    requires |head| == 1 ==> head[0] != '\\'
    requires |head| == 2 ==> head[0] == '\\' && (head[1] == '\\' && x != '\\' && rest != "" ==> rest[0] != x)
    ensures ReplacePair(head + rest, x, r) ==
            (if |head| == 2 && head[1] == x then [r] else head) + ReplacePair(rest, x, r)
  {
    var s := head + rest;
    if |head| == 1 {
      if rest != "" {
        assert s[1..] == rest;
      } else {
        assert s == head && ReplacePair(rest, x, r) == "";
      }
    } else if head[1] == x {
      assert s[2..] == rest;
    } else {
      assert s[1..] == [head[1]] + rest;
      assert s[1..][1..] == rest;
      assert ReplacePair(s, x, r) == [head[0]] + ReplacePair(s[1..], x, r);
      if rest != "" {
        assert ReplacePair(s[1..], x, r) == [head[1]] + ReplacePair(rest, x, r);
      } else {
        assert ReplacePair(s[1..], x, r) == s[1..];
      }
    }
  }

  lemma {:induction false} FullyUndone(v: string)
    ensures Escaped(v, 5) == v
  {
    if v != "" {
      FullyUndone(v[1..]);
      assert v == [v[0]] + v[1..];
    }
  }

  lemma UnescapeRestores(v: string)
    requires !Ambiguous(v)
    ensures Unescape(Escape(v)) == v
  {
    EscapeIsCharByChar(v);
    PassUndoesItsEscape(v, 0);
    PassUndoesItsEscape(v, 1);
    PassUndoesItsEscape(v, 2);
    PassUndoesItsEscape(v, 3);
    PassUndoesItsEscape(v, 4);
    FullyUndone(v);
  }

  // ---------------------------------------------------------------- ... and nothing else comes back

  function Count(s: string, c: char): nat {
    if s == "" then 0 else (if s[0] == c then 1 else 0) + Count(s[1..], c)
  }

  function Pairs(s: string, x: char): nat {
    if |s| < 2 then 0 else (if s[0] == '\\' && s[1] == x then 1 else 0) + Pairs(s[1..], x)
  }

  // A pass turns each of its pairs into one more result character, and keeps every other character.
  lemma {:induction false} PassCounts(s: string, x: char, r: char, c: char)
    requires x != '\\' && r != '\\' && r != x && c !in {'\\', x}
    ensures Count(ReplacePair(s, x, r), c) == Count(s, c) + if c == r then Pairs(s, x) else 0
  {
    if |s| >= 2 {
      if s[0] == '\\' && s[1] == x {
        PassCounts(s[2..], x, r, c);
        assert s[1..][1..] == s[2..];
        assert Pairs(s[1..], x) == Pairs(s[2..], x);
        assert ReplacePair(s, x, r)[1..] == ReplacePair(s[2..], x, r);
        assert Count(s, c) == Count(s[2..], c);
      } else {
        PassCounts(s[1..], x, r, c);
        assert ReplacePair(s, x, r)[1..] == ReplacePair(s[1..], x, r);
      }
    }
  }

  // Undoing the quotes and the backslashes keeps every other character.
  lemma {:induction false} LastPassesCount(s: string, x: char, c: char)
    requires x in {'\\', '"'} && c !in {'\\', '"'}
    ensures Count(ReplacePair(s, x, x), c) == Count(s, c)
  {
    if |s| >= 2 {
      if s[0] == '\\' && s[1] == x {
        LastPassesCount(s[2..], x, c);
        assert s[1..][1..] == s[2..];
        assert ReplacePair(s, x, x)[1..] == ReplacePair(s[2..], x, x);
      } else {
        LastPassesCount(s[1..], x, c);
        assert ReplacePair(s, x, x)[1..] == ReplacePair(s[1..], x, x);
      }
    }
  }

  // A pass for one letter neither makes nor breaks a pair of another.
  lemma {:induction false} PassKeepsPairs(s: string, x: char, r: char, y: char)
    requires x != '\\' && r != '\\' && y !in {x, r, '\\'}
    ensures Pairs(ReplacePair(s, x, r), y) == Pairs(s, y)
    ensures s != "" ==> ReplacePair(s, x, r) != "" && (ReplacePair(s, x, r)[0] == y <==> s[0] == y)
    ensures s == "" ==> ReplacePair(s, x, r) == ""
  {
    if |s| >= 2 {
      if s[0] == '\\' && s[1] == x {
        PassKeepsPairs(s[2..], x, r, y);
        var t := ReplacePair(s[2..], x, r);
        assert s[1..][1..] == s[2..];
        assert ([r] + t)[1..] == t;
        assert Pairs(s, y) == Pairs(s[1..], y) == Pairs(s[2..], y);
        assert Pairs([r] + t, y) == Pairs(t, y);
      } else {
        PassKeepsPairs(s[1..], x, r, y);
        var t := ReplacePair(s[1..], x, r);
        assert ([s[0]] + t)[1..] == t;
      }
    }
  }

  lemma HeadPairs(head: string, rest: string, x: char)
    requires x != '\\' && 1 <= |head| <= 2
    requires |head| == 1 ==> head[0] != '\\'
    requires |head| == 2 ==> head[0] == '\\'
    ensures Pairs(head + rest, x) ==
            (if |head| == 2 && head[1] == x then 1 else 0)
            + (if |head| == 2 && head[1] == '\\' && rest != "" && rest[0] == x then 1 else 0) + Pairs(rest, x)
  {
    var s := head + rest;
    if |head| == 1 {
      assert s[1..] == rest;
    } else {
      assert s[1..] == [head[1]] + rest && s[1..][1..] == rest;
    }
  }

  lemma {:induction false} CountAppends(a: string, b: string, c: char)
    ensures Count(a + b, c) == Count(a, c) + Count(b, c)
  {
    if a == "" {
      assert a + b == b;
    } else {
      CountAppends(a[1..], b, c);
      assert (a + b)[1..] == a[1..] + b;
    }
  }

  // The escapes hold one pair for each real control character, and one for each ambiguous backslash.
  lemma {:induction false} EscapedPairs(v: string, pass: nat)
    requires pass <= 2
    ensures Pairs(Escaped(v, 0), PassLetter(pass)) == Count(v, PassResult(pass)) + Pairs(v, PassLetter(pass))
    ensures Count(Escaped(v, 0), PassResult(pass)) == 0
  {
    if v != "" {
      EscapedPairs(v[1..], pass);
      var head, rest := EscapedChar(v[0], 0), Escaped(v[1..], 0);
      if v[1..] != "" {
        FirstEscaped(v[1..], 0);
      }
      HeadPairs(head, rest, PassLetter(pass));
      CountAppends(head, rest, PassResult(pass));
    }
  }

  lemma {:induction false} NoPairsUnlessAmbiguous(v: string)
    ensures Ambiguous(v) <==> Pairs(v, 'n') > 0 || Pairs(v, 'r') > 0 || Pairs(v, 't') > 0
  {
    if |v| >= 2 {
      var tail := v[1..];
      NoPairsUnlessAmbiguous(tail);
      if Ambiguous(tail) {
        var i :| 0 <= i && i + 1 < |tail| && tail[i] == '\\' && tail[i + 1] in {'n', 'r', 't'};
        assert v[i + 1] == '\\' && v[i + 1 + 1] in {'n', 'r', 't'};
      }
      if Ambiguous(v) && !Ambiguous(tail) {
        var i :| 0 <= i && i + 1 < |v| && v[i] == '\\' && v[i + 1] in {'n', 'r', 't'};
        if i > 0 {
          assert tail[i - 1] == '\\' && tail[i - 1 + 1] in {'n', 'r', 't'};
        }
      }
    }
  }

  lemma UnescapeCounts(v: string, pass: nat)
    requires pass <= 2
    ensures Count(Unescape(Escape(v)), PassResult(pass)) == Count(v, PassResult(pass)) + Pairs(v, PassLetter(pass))
  {
    EscapeIsCharByChar(v);
    EscapedPairs(v, pass);
    var s0 := Escape(v);
    var s1 := ReplacePair(s0, 'n', '\n');
    var s2 := ReplacePair(s1, 'r', '\r');
    var s3 := ReplacePair(s2, 't', '\t');
    var s4 := ReplacePair(s3, '"', '"');
    var c := PassResult(pass);
    PassCounts(s0, 'n', '\n', c);
    PassCounts(s1, 'r', '\r', c);
    PassCounts(s2, 't', '\t', c);
    LastPassesCount(s3, '"', c);
    LastPassesCount(s4, '\\', c);
    if pass >= 1 { PassKeepsPairs(s0, 'n', '\n', PassLetter(pass)); }
    if pass == 2 { PassKeepsPairs(s1, 'r', '\r', 't'); }
  }

  // Main result: the passes give the value back exactly when no backslash stands before n, r or t.
  lemma UnescapeRestoresExactly(v: string)
    ensures Unescape(Escape(v)) == v <==> !Ambiguous(v)
  {
    hide Unescape, Escape;
    if Ambiguous(v) {
      NoPairsUnlessAmbiguous(v);
      UnescapeCounts(v, 0);
      UnescapeCounts(v, 1);
      UnescapeCounts(v, 2);
    } else {
      UnescapeRestores(v);
    }
  }
}
