/**
 * The five replace passes that decode a quoted .env value, against the escaping they are meant to
 * undo.
 */
module EnvEscapes {

  // .replace(/\\c/g, r): a backslash and c, left to right.
  function ReplaceAll(s: string, c: char, r: char): string
    decreases |s|
  {
    if s == [] then []
    else if s[0] == '\\' && |s| > 1 && s[1] == c then [r] + ReplaceAll(s[2..], c, r)
    else [s[0]] + ReplaceAll(s[1..], c, r)
  }

  // parseDotenv's chain, in its order.
  function Decode(s: string): string {
    var s1 := ReplaceAll(s, 'n', '\n');
    var s2 := ReplaceAll(s1, 'r', '\r');
    var s3 := ReplaceAll(s2, 't', '\t');
    var s4 := ReplaceAll(s3, '"', '"');
    ReplaceAll(s4, '\\', '\\')
  }

  // The letter that stands for c after a backslash.
  function Letter(c: char): char {
    match c
    case '\n' => 'n'
    case '\r' => 'r'
    case '\t' => 't'
    case _ => c
  }

  predicate Special(c: char) {
    c == '\n' || c == '\r' || c == '\t' || c == '"'
  }

  predicate IsLetter(c: char) {
    c == 'n' || c == 'r' || c == 't'
  }

  function Control(c: char): char {
    match c
    case 'n' => '\n'
    case 'r' => '\r'
    case 't' => '\t'
    case _ => c
  }

  // Every special character and every backslash escaped.
  function Encode(v: string): string {
    if v == [] then []
    else (if Special(v[0]) || v[0] == '\\' then ['\\', Letter(v[0])] else [v[0]]) + Encode(v[1..])
  }

  // What comes back: an n, r or t right after a backslash has become a control character.
  function Garble(v: string, after: bool): string {
    if v == [] then []
    else [if after && IsLetter(v[0]) then Control(v[0]) else v[0]] + Garble(v[1..], v[0] == '\\')
  }

  // The text once the letters in `ds` have had their pass.  `after` says that a backslash of the
  // value comes just before.
  function Partly(v: string, after: bool, ds: set<char>): string {
    if v == [] then []
    else
      var c, rest := v[0], Partly(v[1..], v[0] == '\\', ds);
      if c == '\\' then (if |v| > 1 && IsLetter(v[1]) && v[1] in ds then "\\" else "\\\\") + rest
      else if Special(c) then (if Letter(c) in ds then [c] else ['\\', Letter(c)]) + rest
      else if after && IsLetter(c) && c in ds then [Control(c)] + rest
      else [c] + rest
  }

  lemma {:induction false} PartlyNone(v: string, after: bool)
    ensures Partly(v, after, {}) == Encode(v)
  {
    if v != [] {
      PartlyNone(v[1..], v[0] == '\\');
    }
  }

  lemma ReplaceTwo(a: char, b: char, rest: string, c: char, r: char)
    requires a == '\\'
    ensures b == c ==> ReplaceAll([a, b] + rest, c, r) == [r] + ReplaceAll(rest, c, r)
    ensures b != c ==> ReplaceAll([a, b] + rest, c, r) == [a] + ReplaceAll([b] + rest, c, r)
  {
    var s := [a, b] + rest;
    assert s[2..] == rest && s[1..] == [b] + rest;
  }

  lemma ReplaceOne(a: char, rest: string, c: char, r: char)
    requires a != '\\' || rest == [] || rest[0] != c
    ensures ReplaceAll([a] + rest, c, r) == [a] + ReplaceAll(rest, c, r)
  {
    assert ([a] + rest)[1..] == rest;
  }

  // The first character of the text that follows a backslash of the value.
  lemma PartlyHead(v: string, ds: set<char>, p: char)
    requires v != [] && (IsLetter(p) || p == '"') && p !in ds
    ensures Partly(v, true, ds) != []
    ensures Partly(v, true, ds)[0] == p <==> v[0] == p && p != '"'
  {}

  /** One pass over a partly decoded text decodes one more letter. */
  lemma {:induction false} PassDecodes(v: string, after: bool, ds: set<char>, p: char)
    requires (IsLetter(p) || p == '"') && p !in ds && '\\' !in ds
    requires '"' in ds ==> p != '"'
    requires !(after && v != [] && v[0] == p && IsLetter(p))
    ensures ReplaceAll(Partly(v, after, ds), p, Control(p)) == Partly(v, after, ds + {p})
    decreases |v|
  {
    if v != [] {
      var c := v[0];
      var rest := Partly(v[1..], c == '\\', ds);
      if c == '\\' {
        BackslashPass(v, after, ds, p);
      } else {
        PassDecodes(v[1..], false, ds, p);
        if Special(c) && Letter(c) !in ds {
          ReplaceTwo('\\', Letter(c), rest, p, Control(p));
          if Letter(c) != p {
            ReplaceOne(Letter(c), rest, p, Control(p));
          }
        } else {
          ReplaceOne(if after && IsLetter(c) && c in ds then Control(c) else c, rest, p, Control(p));
        }
      }
    }
  }

  // A backslash of the value: its second half may meet a bare letter p.
  lemma {:induction false} BackslashPass(v: string, after: bool, ds: set<char>, p: char)
    requires v != [] && v[0] == '\\'
    requires (IsLetter(p) || p == '"') && p !in ds && '\\' !in ds
    ensures ReplaceAll(Partly(v, after, ds), p, Control(p)) == Partly(v, after, ds + {p})
    decreases |v|, 0
  {
    var w := v[1..];
    if w == [] {
      PairThenEnd(p);
      assert Partly(w, true, ds) == "" && Partly(w, true, ds + {p}) == "";
    } else if w[0] == p && IsLetter(p) {
      PassDecodes(w[1..], false, ds, p);
      var x := Partly(w[1..], false, ds);
      assert Partly(w, true, ds) == [p] + x;
      PairMeetsLetter(x, p);
      assert Partly(w, true, ds + {p}) == [Control(p)] + Partly(w[1..], false, ds + {p});
    } else {
      PassDecodes(w, true, ds, p);
      PartlyHead(w, ds, p);
      PairStays(Partly(w, true, ds), p);
    }
  }

  lemma PairThenEnd(p: char)
    requires p != '\\'
    ensures ReplaceAll("\\\\" + "", p, Control(p)) == "\\\\"
  {
    ReplaceTwo('\\', '\\', [], p, Control(p));
    ReplaceOne('\\', [], p, Control(p));
  }

  lemma PairMeetsLetter(x: string, p: char)
    requires p != '\\'
    ensures ReplaceAll("\\\\" + ([p] + x), p, Control(p)) == "\\" + ([Control(p)] + ReplaceAll(x, p, Control(p)))
  {
    ReplaceTwo('\\', '\\', [p] + x, p, Control(p));
    ReplaceTwo('\\', p, x, p, Control(p));
    assert ['\\'] + ([p] + x) == ['\\', p] + x;
  }

  lemma PairStays(x: string, p: char)
    requires p != '\\' && x != [] && x[0] != p
    ensures ReplaceAll("\\\\" + x, p, Control(p)) == "\\\\" + ReplaceAll(x, p, Control(p))
    ensures ReplaceAll("\\" + x, p, Control(p)) == "\\" + ReplaceAll(x, p, Control(p))
  {
    ReplaceTwo('\\', '\\', x, p, Control(p));
    ReplaceOne('\\', x, p, Control(p));
  }

  const ALL_LETTERS: set<char> := {'n', 'r', 't', '"'}

  // The last pass takes one backslash of each remaining pair.
  lemma {:induction false} LastPass(v: string, after: bool)
    ensures ReplaceAll(Partly(v, after, ALL_LETTERS), '\\', '\\') == Garble(v, after)
  {
    if v != [] {
      var c := v[0];
      var rest := Partly(v[1..], c == '\\', ALL_LETTERS);
      LastPass(v[1..], c == '\\');
      if c == '\\' {
        if |v| > 1 && IsLetter(v[1]) {
          assert v[1..][0] == v[1] && rest[0] == Control(v[1]);
          ReplaceOne('\\', rest, '\\', '\\');
        } else {
          ReplaceTwo('\\', '\\', rest, '\\', '\\');
        }
      } else {
        ReplaceOne(if after && IsLetter(c) then Control(c) else c, rest, '\\', '\\');
      }
    }
  }

  /** Escaping, then the five passes. */
  lemma DecodeEncoded(v: string)
    ensures Decode(Encode(v)) == Garble(v, false)
  {
    PartlyNone(v, false);
    PassDecodes(v, false, {}, 'n');
    PassDecodes(v, false, {} + {'n'}, 'r');
    PassDecodes(v, false, {} + {'n'} + {'r'}, 't');
    PassDecodes(v, false, {} + {'n'} + {'r'} + {'t'}, '"');
    assert {} + {'n'} + {'r'} + {'t'} + {'"'} == ALL_LETTERS;
    LastPass(v, false);
  }

  // A backslash right before an n, r or t.
  predicate LooksEscaped(v: string) {
    exists i | 0 <= i < |v| - 1 :: v[i] == '\\' && IsLetter(v[i + 1])
  }

  lemma LooksStep(v: string)
    requires v != []
    ensures LooksEscaped(v) <==> (|v| > 1 && v[0] == '\\' && IsLetter(v[1])) || LooksEscaped(v[1..])
  {
    var w := v[1..];
    if LooksEscaped(w) {
      var i :| 0 <= i < |w| - 1 && w[i] == '\\' && IsLetter(w[i + 1]);
      assert v[i + 1] == '\\' && IsLetter(v[i + 1 + 1]);
    }
    if LooksEscaped(v) && !(|v| > 1 && v[0] == '\\' && IsLetter(v[1])) {
      var i :| 0 <= i < |v| - 1 && v[i] == '\\' && IsLetter(v[i + 1]);
      assert w[i - 1] == '\\' && IsLetter(w[i - 1 + 1]);
    }
  }

  lemma {:induction false} GarbleKeepsExactlyWhen(v: string, after: bool)
    ensures Garble(v, after) == v <==> !(after && v != [] && IsLetter(v[0])) && !LooksEscaped(v)
  {
    if v != [] {
      var w := v[1..];
      GarbleKeepsExactlyWhen(w, v[0] == '\\');
      LooksStep(v);
      assert Garble(v, after)[1..] == Garble(w, v[0] == '\\');
      assert v == [v[0]] + w;
    }
  }

  /** The passes give the value back exactly when no backslash of it stands right before an n, r or
      t: they run one after another, so the second half of an escaped backslash is taken for the
      start of an escape. */
  lemma RoundTripExactlyWhen(v: string)
    ensures Decode(Encode(v)) == v <==> !LooksEscaped(v)
  {
    DecodeEncoded(v);
    GarbleKeepsExactlyWhen(v, false);
  }

  lemma BackslashFreeComesBack(v: string)
    requires '\\' !in v
    ensures Decode(Encode(v)) == v
  {
    RoundTripExactlyWhen(v);
  }

  // A Windows path is read with a line break in it.
  lemma PathIsGarbled()
    ensures Decode(Encode("C:\\new")) == "C:\\\new"
  {
    var v := "C:\\new";
    DecodeEncoded(v);
    assert v[1..] == ":\\new" && v[2..] == "\\new" && v[3..] == "new" && v[4..] == "ew" && v[5..] == "w";
    calc {
      Garble(v, false);
      "C" + Garble(v[1..], false);
      "C" + (":" + Garble(v[1..][1..], false));
      { assert v[1..][1..] == v[2..]; }
      "C" + (":" + ("\\" + Garble(v[2..][1..], true)));
      { assert v[2..][1..] == v[3..]; }
      "C" + (":" + ("\\" + ("\n" + Garble(v[3..][1..], false))));
      { assert v[3..][1..] == v[4..]; NoBackslash("ew"); GarbleKeepsExactlyWhen("ew", false); }
      "C:\\\new";
    }
  }

  lemma NoBackslash(v: string)
    requires '\\' !in v
    ensures !LooksEscaped(v)
  {}

  // Without a backslash the passes do nothing.
  lemma {:induction false} ReplaceNothing(s: string, c: char, r: char)
    requires '\\' !in s
    ensures ReplaceAll(s, c, r) == s
  {
    if s != [] {
      ReplaceNothing(s[1..], c, r);
    }
  }

  // One escape of the letter d in text without backslashes.
  lemma ReplaceOneEscape(a: string, d: char, b: string, c: char, r: char)
    requires '\\' !in a && '\\' !in b && d != '\\'
    ensures ReplaceAll(a + ['\\', d] + b, c, r) == a + (if d == c then [r] else ['\\', d]) + b
  {
    var e, e' := ['\\', d], if d == c then [r] else ['\\', d];
    EscapeReplaced(d, b, c, r);
    ReplaceAfter(a, e + b, c, r);
    Regroup(a, e, b);
    Regroup(a, e', b);
  }

  lemma Regroup(a: string, b: string, c: string)
    ensures a + (b + c) == a + b + c
  {}

  lemma EscapeReplaced(d: char, b: string, c: char, r: char)
    requires '\\' !in b && d != '\\'
    ensures ReplaceAll(['\\', d] + b, c, r) == (if d == c then [r] else ['\\', d]) + b
  {
    ReplaceTwo('\\', d, b, c, r);
    ReplaceOne(d, b, c, r);
    ReplaceNothing(b, c, r);
    assert ['\\'] + ([d] + b) == ['\\', d] + b;
  }

  lemma {:induction false} ReplaceAfter(a: string, t: string, c: char, r: char)
    requires '\\' !in a
    ensures ReplaceAll(a + t, c, r) == a + ReplaceAll(t, c, r)
  {
    if a == [] {
      assert a + t == t;
    } else {
      assert a + t == [a[0]] + (a[1..] + t);
      ReplaceOne(a[0], a[1..] + t, c, r);
      ReplaceAfter(a[1..], t, c, r);
      assert a == [a[0]] + a[1..];
    }
  }

  /** What the passes make of one escape: a line feed, a carriage return, a tab or a quote; any other
      letter keeps its backslash. */
  lemma EscapeIsDecoded(a: string, d: char, b: string)
    requires '\\' !in a && '\\' !in b && d != '\\'
    ensures d == 'n' ==> Decode(a + ['\\', d] + b) == a + "\n" + b
    ensures d == 'r' ==> Decode(a + ['\\', d] + b) == a + "\r" + b
    ensures d == 't' ==> Decode(a + ['\\', d] + b) == a + "\t" + b
    ensures d == '"' ==> Decode(a + ['\\', d] + b) == a + "\"" + b
    ensures d != 'n' && d != 'r' && d != 't' && d != '"' ==> Decode(a + ['\\', d] + b) == a + ['\\', d] + b
  {
    ReplaceOneEscape(a, d, b, 'n', '\n');
    ReplaceOneEscape(a, d, b, 'r', '\r');
    ReplaceOneEscape(a, d, b, 't', '\t');
    ReplaceOneEscape(a, d, b, '"', '"');
    ReplaceOneEscape(a, d, b, '\\', '\\');
    if d == 'n' {
      DecodeRest(a + "\n" + b);
    } else if d == 'r' {
      DecodeRest(a + "\r" + b);
    } else if d == 't' {
      DecodeRest(a + "\t" + b);
    } else if d == '"' {
      DecodeRest(a + "\"" + b);
    }
  }

  // Once the escape is gone the passes that are left change nothing.
  lemma DecodeRest(s: string)
    requires '\\' !in s
    ensures ReplaceAll(s, 'r', '\r') == s && ReplaceAll(s, 't', '\t') == s
    ensures ReplaceAll(s, '"', '"') == s && ReplaceAll(s, '\\', '\\') == s
  {
    ReplaceNothing(s, 'r', '\r');
    ReplaceNothing(s, 't', '\t');
    ReplaceNothing(s, '"', '"');
    ReplaceNothing(s, '\\', '\\');
  }

  lemma DecodeNothing(s: string)
    requires '\\' !in s
    ensures Decode(s) == s
  {
    ReplaceNothing(s, 'n', '\n');
    ReplaceNothing(s, 'r', '\r');
    ReplaceNothing(s, 't', '\t');
    ReplaceNothing(s, '"', '"');
    ReplaceNothing(s, '\\', '\\');
  }
}
