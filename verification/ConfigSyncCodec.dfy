/** A codec that satisfies every law asked of JSON. */
module ConfigSyncCodec {
  import opened Options
  import EnvText
  import opened LineEndings
  import opened ConfigSync

  function Escaped(c: char): string {
    if c == '\r' then "\\r" else if c == '\\' then "\\\\" else if c == '"' then "\\\"" else [c]
  }

  // A string with a quote at its end.
  function Quoted(s: string): string {
    if s == "" then "\"" else Escaped(s[0]) + Quoted(s[1..])
  }

  lemma QuotedStart(s: string, rest: string)
    ensures (Quoted(s) + rest)[0] == '"' <==> s == ""
    ensures s == "" ==> (Quoted(s) + rest)[1..] == rest
    ensures s != "" ==> Quoted(s) + rest == Escaped(s[0]) + (Quoted(s[1..]) + rest)
  {
    hide Escaped;
    if s != "" {
      EscapedStart(s[0]);
      var head, tail := Escaped(s[0]), Quoted(s[1..]);
      assert Quoted(s) == head + tail;
      hide Quoted;
      assert (head + tail) + rest == head + (tail + rest);
      assert (head + (tail + rest))[0] == head[0];
    } else {
      assert Quoted(s) == "\"";
    }
  }

  lemma EscapedStart(c: char)
    ensures Escaped(c) != "" && Escaped(c)[0] != '"'
  {
  }

  lemma {:induction false} QuotedEndsItself(a: string, x: string, b: string, y: string)
    requires Quoted(a) + x == Quoted(b) + y
    ensures a == b && x == y
    decreases |a|
  {
    hide Quoted, Escaped;
    QuotedStart(a, x);
    QuotedStart(b, y);
    if a != "" {
      var ra, rb := Quoted(a[1..]) + x, Quoted(b[1..]) + y;
      SameEscape(a[0], ra, b[0], rb);
      QuotedEndsItself(a[1..], x, b[1..], y);
      assert a == [a[0]] + a[1..] && b == [b[0]] + b[1..];
    }
  }

  lemma SameEscape(a: char, x: string, b: char, y: string)
    requires Escaped(a) + x == Escaped(b) + y
    ensures a == b && x == y
  {
    var s := Escaped(a) + x;
    assert s[0] == Escaped(a)[0] == Escaped(b)[0];
    if |Escaped(a)| == 2 && |Escaped(b)| == 2 {
      assert s[1] == Escaped(a)[1] == Escaped(b)[1];
    }
    assert s[|Escaped(a)|..] == x && s[|Escaped(b)|..] == y;
  }

  ghost function Encode(v: Json): string
    decreases v, 1, 0
  {
    match v
    case Scalar(text) => "s" + Quoted(text)
    case Arr(items) => "[" + EncodeItems(v, 0)
    case Obj(fields) => "{" + EncodeFields(v, fields.Keys)
  }

  ghost function EncodeItems(v: Json, n: nat): string
    requires v.Arr? && n <= |v.items|
    decreases v, 0, |v.items| - n
  {
    if n == |v.items| then "]" else "," + Encode(v.items[n]) + EncodeItems(v, n + 1)
  }

  // The entries under these keys, in some order.
  ghost function EncodeFields(v: Json, keys: set<string>): string
    requires v.Obj? && keys <= v.fields.Keys
    decreases v, 0, |keys|
  {
    if keys == {} then "}"
    else
      var k :| k in keys;
      "," + Quoted(k) + Encode(v.fields[k]) + EncodeFields(v, keys - {k})
  }

  // No text stands for two values, nor for one value with different text behind it.
  lemma {:induction false} EncodeEndsItself(v: Json, x: string, w: Json, y: string)
    requires Encode(v) + x == Encode(w) + y
    ensures v == w && x == y
    decreases v, 1, 0
  {
    hide EncodeItems, EncodeFields, Quoted;
    var s := Encode(v) + x;
    assert s[0] == Encode(v)[0] == Encode(w)[0];
    match v
    case Scalar(text) =>
      assert s[1..] == Quoted(text) + x && s[1..] == Quoted(w.text) + y;
      QuotedEndsItself(text, x, w.text, y);
    case Arr(items) =>
      assert s[1..] == EncodeItems(v, 0) + x && s[1..] == EncodeItems(w, 0) + y;
      ItemsEndThemselves(v, x, w, y, 0);
      assert items == items[0..] && w.items == w.items[0..];
    case Obj(fields) =>
      assert s[1..] == EncodeFields(v, fields.Keys) + x && s[1..] == EncodeFields(w, w.fields.Keys) + y;
      FieldsEndThemselves(v, fields.Keys, x, w, w.fields.Keys, y);
      assert fields == w.fields;
  }

  lemma {:induction false} ItemsEndThemselves(v: Json, x: string, w: Json, y: string, n: nat)
    requires v.Arr? && w.Arr? && n <= |v.items| && n <= |w.items|
    requires EncodeItems(v, n) + x == EncodeItems(w, n) + y
    ensures v.items[n..] == w.items[n..] && x == y
    decreases v, 0, |v.items| - n
  {
    hide Encode, EncodeItems;
    var s := EncodeItems(v, n) + x;
    ItemsStart(v, n, x);
    ItemsStart(w, n, y);
    if n < |v.items| {
      var rv, rw := EncodeItems(v, n + 1) + x, EncodeItems(w, n + 1) + y;
      EncodeEndsItself(v.items[n], rv, w.items[n], rw);
      ItemsEndThemselves(v, x, w, y, n + 1);
      assert v.items[n..] == [v.items[n]] + v.items[n + 1..] && w.items[n..] == [w.items[n]] + w.items[n + 1..];
    }
  }

  lemma ItemsStart(v: Json, n: nat, x: string)
    requires v.Arr? && n <= |v.items|
    ensures (EncodeItems(v, n) + x)[0] == ']' <==> n == |v.items|
    ensures (EncodeItems(v, n) + x)[1..] ==
      if n == |v.items| then x else Encode(v.items[n]) + (EncodeItems(v, n + 1) + x)
  {
    hide Encode;
  }

  lemma {:induction false} FieldsEndThemselves(v: Json, ks: set<string>, x: string, w: Json, ls: set<string>, y: string)
    requires v.Obj? && w.Obj? && ks <= v.fields.Keys && ls <= w.fields.Keys
    requires EncodeFields(v, ks) + x == EncodeFields(w, ls) + y
    ensures ks == ls && (forall k | k in ks :: v.fields[k] == w.fields[k]) && x == y
    decreases v, 0, |ks|
  {
    hide Encode, EncodeFields, Quoted;
    FieldsStart(v, ks, x);
    FieldsStart(w, ls, y);
    if ks != {} {
      var k, a := OneField(v, ks);
      var l, b := OneField(w, ls);
      Peel(Quoted(k), Encode(v.fields[k]), a, x);
      Peel(Quoted(l), Encode(w.fields[l]), b, y);
      QuotedEndsItself(k, Encode(v.fields[k]) + (a + x), l, Encode(w.fields[l]) + (b + y));
      EncodeEndsItself(v.fields[k], a + x, w.fields[l], b + y);
      FieldsEndThemselves(v, ks - {k}, x, w, ls - {l}, y);
      assert ks == (ks - {k}) + {k} && ls == (ls - {l}) + {l};
    }
  }

  lemma FieldsStart(v: Json, ks: set<string>, x: string)
    requires v.Obj? && ks <= v.fields.Keys
    ensures (EncodeFields(v, ks) + x)[0] == '}' <==> ks == {}
    ensures ks == {} ==> (EncodeFields(v, ks) + x)[1..] == x
  {
    hide Encode, Quoted;
  }

  lemma Peel(q: string, e: string, r: string, x: string)
    ensures ("," + q + e + r + x)[1..] == q + (e + (r + x))
  {
  }

  lemma OneField(v: Json, keys: set<string>) returns (k: string, rest: string)
    requires v.Obj? && keys <= v.fields.Keys && keys != {}
    ensures k in keys && rest == EncodeFields(v, keys - {k})
    ensures EncodeFields(v, keys) == "," + Quoted(k) + Encode(v.fields[k]) + rest
  {
    k :| k in keys && EncodeFields(v, keys) == "," + Quoted(k) + Encode(v.fields[k]) + EncodeFields(v, keys - {k});
    rest := EncodeFields(v, keys - {k});
  }

  // ---------------------------------------------------------------- no carriage return, and something to see

  lemma {:induction false} QuotedHasNoReturn(s: string)
    ensures '\r' !in Quoted(s)
  {
    if s != "" {
      QuotedHasNoReturn(s[1..]);
    }
  }

  lemma {:induction false} EncodeHasNoReturn(v: Json)
    ensures '\r' !in Encode(v)
    decreases v, 1, 0
  {
    match v
    case Scalar(text) => QuotedHasNoReturn(text);
    case Arr(items) => ItemsHaveNoReturn(v, 0);
    case Obj(fields) => FieldsHaveNoReturn(v, fields.Keys);
  }

  lemma {:induction false} ItemsHaveNoReturn(v: Json, n: nat)
    requires v.Arr? && n <= |v.items|
    ensures '\r' !in EncodeItems(v, n)
    decreases v, 0, |v.items| - n
  {
    if n < |v.items| {
      EncodeHasNoReturn(v.items[n]);
      ItemsHaveNoReturn(v, n + 1);
    }
  }

  lemma {:induction false} FieldsHaveNoReturn(v: Json, keys: set<string>)
    requires v.Obj? && keys <= v.fields.Keys
    ensures '\r' !in EncodeFields(v, keys)
    decreases v, 0, |keys|
  {
    if keys != {} {
      forall k | k in keys ensures '\r' !in Quoted(k) && '\r' !in Encode(v.fields[k]) &&
        '\r' !in EncodeFields(v, keys - {k}) {
        QuotedHasNoReturn(k);
        EncodeHasNoReturn(v.fields[k]);
        FieldsHaveNoReturn(v, keys - {k});
      }
    }
  }

  lemma {:induction false} SomethingIsLeft(s: string)
    requires s != "" && !EnvText.IsSpace(s[0])
    ensures EnvText.TrimEnd(s) != ""
  {
    if EnvText.IsSpace(s[|s| - 1]) {
      SomethingIsLeft(s[..|s| - 1]);
    }
  }

  ghost function Decode(s: string): Option<Json> {
    if exists v :: Encode(v) + "\n" == s then var v :| Encode(v) + "\n" == s; Some(v) else None
  }

  lemma DecodeUndoes(v: Json)
    ensures Decode(Encode(v) + "\n") == Some(v)
  {
    var w := Decode(Encode(v) + "\n").value;
    EncodeEndsItself(v, "\n", w, "\n");
  }

  lemma ReadsBack(codec: Codec, v: Json)
    requires codec == TheCodec()
    ensures Readable(codec, v) && WritesWell(codec, v) && Reread(codec, v) == v
  {
    DecodeUndoes(v);
    EncodeHasNoReturn(v);
    var s := Encode(v) + "\n";
    assert codec.parse(s) == Some(v) && Serialize(codec, v) == s == codec.compact(v);
    NoPairWithoutReturns(s);
    assert s[0] == Encode(v)[0];
    SomethingIsLeft(s);
    hide Normalize;
  }

  ghost function TheCodec(): Codec {
    Codec(s => Decode(s), v => Encode(v), v => Encode(v) + "\n")
  }

  // The laws can be met: there is a codec for all values.
  lemma SomeCodecIsLawful() returns (codec: Codec)
    ensures Lawful(codec) && forall v :: Readable(codec, v)
  {
    codec := TheCodec();
    forall v ensures Readable(codec, v) && WritesWell(codec, v) && Reread(codec, v) == v {
      ReadsBack(codec, v);
    }
    EverythingReadsBack(codec);
  }

  lemma EverythingReadsBack(codec: Codec)
    requires forall v :: Readable(codec, v) && WritesWell(codec, v) && Reread(codec, v) == v
    ensures Lawful(codec)
  {
    hide Readable, WritesWell, Reread;
  }
}
