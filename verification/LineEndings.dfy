/** Line endings of configuration files: normalized for comparing, preserved when writing. */
module LineEndings {
  import opened EnvText

  // Every carriage return directly before a line feed goes, from left to right.
  function Normalize(s: string): (r: string)
    ensures |r| <= |s|
    decreases |s|
  {
    if s == "" then ""
    else if s[0] == '\r' && |s| > 1 && s[1] == '\n' then "\n" + Normalize(s[2..])
    else [s[0]] + Normalize(s[1..])
  }

  // Every line feed gets a carriage return.
  function WithReturns(s: string): string {
    if s == "" then ""
    else (if s[0] == '\n' then "\r\n" else [s[0]]) + WithReturns(s[1..])
  }

  predicate PairAt(s: string, i: nat) {
    i + 1 < |s| && s[i] == '\r' && s[i + 1] == '\n'
  }

  datatype Ending = Lf | CrLf

  predicate HasPair(s: string) {
    exists i | 0 <= i < |s| :: PairAt(s, i)
  }

  function DetectLineEnding(s: string): Ending {
    if HasPair(s) then CrLf else Lf
  }

  function ApplyPreferred(s: string, ending: Ending): string {
    if ending == Lf then Normalize(s) else WithReturns(Normalize(s))
  }

  function Comparable(s: string): string {
    TrimEnd(Normalize(s))
  }

  // A line feed after two carriage returns.
  predicate DoubleReturn(s: string) {
    exists i | 0 <= i < |s| :: s[i] == '\r' && PairAt(s, i + 1)
  }

  lemma {:induction false} ReturnsAreUndone(s: string)
    ensures Normalize(WithReturns(s)) == s
  {
    if s != "" {
      ReturnsAreUndone(s[1..]);
      var rest := WithReturns(s[1..]);
      assert |s| > 1 ==> rest[0] == if s[1] == '\n' then '\r' else s[1];
      if s[0] == '\n' {
        assert WithReturns(s) == "\r\n" + rest && ("\r\n" + rest)[2..] == rest;
      } else {
        assert WithReturns(s) == [s[0]] + rest && ([s[0]] + rest)[1..] == rest;
      }
    }
  }

  lemma {:induction false} NoPairIsNormal(s: string)
    requires !HasPair(s)
    ensures Normalize(s) == s
  {
    if s != "" {
      assert !PairAt(s, 0);
      forall i | 0 <= i < |s[1..]| ensures !PairAt(s[1..], i) { assert !PairAt(s, i + 1); }
      NoPairIsNormal(s[1..]);
    }
  }

  lemma {:induction false} NormalMeansNoPair(s: string)
    requires Normalize(s) == s
    ensures !HasPair(s)
    decreases |s|
  {
    if s != "" {
      assert !PairAt(s, 0);
      assert Normalize(s)[1..] == s[1..];
      NormalMeansNoPair(s[1..]);
      forall i | 0 <= i < |s| ensures !PairAt(s, i) {
        if i > 0 { assert !PairAt(s[1..], i - 1); }
      }
    }
  }

  // Normalizing leaves a pair behind exactly where there were two carriage returns.
  lemma {:induction false} PairsAfterNormalizing(s: string)
    ensures HasPair(Normalize(s)) <==> DoubleReturn(s)
    decreases |s|
  {
    if s != "" {
      var r := Normalize(s);
      var taken := if PairAt(s, 0) then 2 else 1;
      var rest := s[taken..];
      PairsAfterNormalizing(rest);
      var q := Normalize(rest);
      assert r == (if taken == 2 then "\n" else [s[0]]) + q && r[1..] == q;
      HasPairCons(r[0], q);
      DoubleReturnCons(s, taken);
      FirstOfNormal(rest);
    }
  }

  lemma FirstOfNormal(s: string)
    ensures s == "" <==> Normalize(s) == ""
    ensures s != "" ==> Normalize(s)[0] == if PairAt(s, 0) then '\n' else s[0]
  {
  }

  lemma HasPairCons(c: char, q: string)
    ensures HasPair([c] + q) <==> (c == '\r' && q != "" && q[0] == '\n') || HasPair(q)
  {
    var r := [c] + q;
    if HasPair(r) {
      var i :| 0 <= i < |r| && PairAt(r, i);
      assert i > 0 ==> PairAt(q, i - 1);
    }
    if HasPair(q) {
      var i :| 0 <= i < |q| && PairAt(q, i);
      assert PairAt(r, i + 1);
    }
    assert c == '\r' && q != "" && q[0] == '\n' ==> PairAt(r, 0);
  }

  lemma DoubleReturnCons(s: string, taken: nat)
    requires s != "" && taken == if PairAt(s, 0) then 2 else 1
    ensures DoubleReturn(s) <==> (s[0] == '\r' && PairAt(s, 1)) || DoubleReturn(s[taken..])
  {
    var rest := s[taken..];
    if DoubleReturn(s) {
      var i :| 0 <= i < |s| && s[i] == '\r' && PairAt(s, i + 1);
      if i > 0 {
        assert rest[i - taken] == '\r' && PairAt(rest, i - taken + 1);
      }
    }
    if DoubleReturn(rest) {
      var i :| 0 <= i < |rest| && rest[i] == '\r' && PairAt(rest, i + 1);
      assert s[i + taken] == '\r' && PairAt(s, i + taken + 1);
    }
  }

  // Main result: writing with the preferred ending changes nothing a comparison can see, except that the
  // plain ending turns a line feed after two carriage returns into a new pair.
  lemma {:induction false} PreferredEndingComparesEqual(s: string, ending: Ending)
    ensures Normalize(ApplyPreferred(s, ending)) == Normalize(s) <==> ending == CrLf || !DoubleReturn(s)
  {
    ReturnsAreUndone(Normalize(s));
    PairsAfterNormalizing(s);
    if !HasPair(Normalize(s)) {
      NoPairIsNormal(Normalize(s));
    } else if Normalize(Normalize(s)) == Normalize(s) {
      NormalMeansNoPair(Normalize(s));
    }
  }

  // Text without carriage returns keeps the ending it is written with.
  lemma {:induction false} EndingIsPreserved(s: string, ending: Ending)
    requires '\r' !in s && '\n' in s
    ensures DetectLineEnding(ApplyPreferred(s, ending)) == ending
  {
    NoPairIsNormal(s);
    if ending == CrLf {
      var i :| 0 <= i < |s| && s[i] == '\n';
      ReturnsShow(s, i);
    }
  }

  lemma {:induction false} ReturnsShow(s: string, i: nat)
    requires i < |s| && s[i] == '\n'
    ensures HasPair(WithReturns(s))
  {
    var head := if s[0] == '\n' then "\r\n" else [s[0]];
    var rest := WithReturns(s[1..]);
    if i == 0 {
      assert PairAt(WithReturns(s), 0);
    } else {
      ReturnsShow(s[1..], i - 1);
      var j :| 0 <= j < |rest| && PairAt(rest, j);
      assert PairAt(head + rest, j + |head|);
    }
  }
}
