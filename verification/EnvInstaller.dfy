/**
 * install-kafka-pems: replaceBlock rewrites one quoted entry of a .env file in place, and the script
 * applies it once per key.
 */
module EnvInstaller {
  import opened Prelude
  import opened Regex
  import S = EnvScanner
  import D = EnvDotenv
  import opened Text

  // (?<!\\)"\s*$
  const CLOSE := Cat(NotAfter('\\'), Cat(Lit("\""), Cat(D.BLANKS, Eol)))

  // ^KEY="[\s\S]*?(?<!\\)"\s*$ with flag m, for a key of plain letters.
  function Block(key: string): Re {
    Cat(Bol, Cat(Lit(key + "=\""), Cat(Lazy(Chr(Any)), CLOSE)))
  }

  // What `$` patterns of a replacement string stand for when there are no groups.
  function Expand(t: string, before: string, matched: string, after: string): string {
    if |t| < 2 || t[0] != '$' then (if t == [] then "" else [t[0]] + Expand(t[1..], before, matched, after))
    else
      match t[1]
      case '$' => "$" + Expand(t[2..], before, matched, after)
      case '&' => matched + Expand(t[2..], before, matched, after)
      case '`' => before + Expand(t[2..], before, matched, after)
      case '\'' => after + Expand(t[2..], before, matched, after)
      case _ => "$" + Expand(t[1..], before, matched, after)
  }

  datatype InstallError = NoBlock(key: string)

  function ReplaceBlock(src: string, key: string, value: string): Result<string, InstallError>
    requires S.IsKey(key)
  {
    match Search(Block(key), src, 0)
    case None => Err(NoBlock(key))
    case Some(f) =>
      var before, after := src[..f.start], src[f.end..];
      var replacement := S.PrintEntry(S.Entry(key, value));
      Ok(before + Expand(replacement, before, src[f.start..f.end], after) + after)
  }

  function InstallAll(src: string, wanted: seq<S.Entry>): Result<string, InstallError>
    requires forall e | e in wanted :: S.IsKey(e.key)
    decreases |wanted|
  {
    if wanted == [] then Ok(src)
    else
      match ReplaceBlock(src, wanted[0].key, wanted[0].value)
      case Err(e) => Err(e)
      case Ok(next) => InstallAll(next, wanted[1..])
  }

  /** The loop over the expected keys; a missing block stops it with nothing written. */
  method Install(env: string, wanted: seq<S.Entry>) returns (r: Result<string, InstallError>)
    requires forall e | e in wanted :: S.IsKey(e.key)
    ensures r == InstallAll(env, wanted)
  {
    var next := env;
    var i := 0;
    assert wanted[0..] == wanted;
    while i < |wanted|
      invariant 0 <= i <= |wanted|
      invariant InstallAll(next, wanted[i..]) == InstallAll(env, wanted)
    {
      assert wanted[i..][0] == wanted[i] && wanted[i..][1..] == wanted[i + 1..];
      var replaced := ReplaceBlock(next, wanted[i].key, wanted[i].value);
      if replaced.Err? {
        return Err(replaced.error);
      }
      next := replaced.value;
      i := i + 1;
    }
    return Ok(next);
  }

  /* ---------- replacement strings ---------- */

  predicate DollarPair(a: char, b: char) {
    a == '$' && (b == '$' || b == '&' || b == '`' || b == '\'')
  }

  predicate NoDollarPair(t: string) {
    forall i | 0 < i < |t| :: !DollarPair(t[i - 1], t[i])
  }

  lemma {:induction false} ExpandNothing(t: string, before: string, matched: string, after: string)
    requires NoDollarPair(t)
    ensures Expand(t, before, matched, after) == t
  {
    if t != [] {
      forall i | 0 < i < |t[1..]| ensures !DollarPair(t[1..][i - 1], t[1..][i]) {
        assert t[1..][i] == t[i + 1];
      }
      ExpandNothing(t[1..], before, matched, after);
      assert |t| > 1 ==> !DollarPair(t[1 - 1], t[1]);
    }
  }

  lemma {:induction false} PlainStartStays(a: string, b: string, before: string, matched: string, after: string)
    requires '$' !in a
    ensures Expand(a + b, before, matched, after) == a + Expand(b, before, matched, after)
  {
    if a == [] {
      assert a + b == b;
    } else {
      var t := a + b;
      assert t[0] == a[0] && t[1..] == a[1..] + b;
      PlainStartStays(a[1..], b, before, matched, after);
      assert a == [a[0]] + a[1..];
    }
  }

  lemma PatternIsExpanded(c: char, b: string, before: string, matched: string, after: string)
    ensures var r := Expand(b, before, matched, after); var t := Expand(['$', c] + b, before, matched, after);
      && (c == '$' ==> t == "$" + r) && (c == '&' ==> t == matched + r)
      && (c == '`' ==> t == before + r) && (c == '\'' ==> t == after + r)
  {
    var t := ['$', c] + b;
    assert t[0] == '$' && t[1] == c && t[2..] == b;
  }

  /** What each pattern puts in, wherever it stands in a text without others before it: a dollar sign,
      the match, what stands before the match, what stands after it. */
  lemma PatternsStandFor(a: string, c: char, b: string, before: string, matched: string, after: string)
    requires '$' !in a
    ensures var r := Expand(b, before, matched, after); var t := Expand(a + (['$', c] + b), before, matched, after);
      && (c == '$' ==> t == a + ("$" + r)) && (c == '&' ==> t == a + (matched + r))
      && (c == '`' ==> t == a + (before + r)) && (c == '\'' ==> t == a + (after + r))
  {
    PlainStartStays(a, ['$', c] + b, before, matched, after);
    PatternIsExpanded(c, b, before, matched, after);
  }

  lemma {:induction false} ExpandShrinks(t: string)
    ensures |Expand(t, "", "", "")| <= |t|
    ensures |Expand(t, "", "", "")| == |t| ==> NoDollarPair(t)
  {
    if |t| > 1 && DollarPair(t[0], t[1]) {
      ExpandShrinks(t[2..]);
    } else if t != [] {
      ExpandShrinks(t[1..]);
      if |Expand(t, "", "", "")| == |t| {
        forall i | 0 < i < |t| ensures !DollarPair(t[i - 1], t[i]) {
          assert i > 1 ==> t[1..][i - 1] == t[i] && t[1..][i - 1 - 1] == t[i - 1];
        }
      }
    }
  }

  /** A replacement is put in as it stands, wherever the match is, exactly when no `$` of it is
      followed by `$`, `&`, a backquote or an apostrophe. */
  lemma LiteralExactlyWhen(t: string)
    ensures (forall before, matched, after :: Expand(t, before, matched, after) == t) <==> NoDollarPair(t)
  {
    if NoDollarPair(t) {
      forall before, matched, after ensures Expand(t, before, matched, after) == t {
        ExpandNothing(t, before, matched, after);
      }
    } else {
      ExpandShrinks(t);
      assert Expand(t, "", "", "") != t;
    }
  }

  lemma EntryHasNoPair(e: S.Entry)
    requires S.IsKey(e.key) && NoDollarPair(e.value)
    ensures NoDollarPair(S.PrintEntry(e))
  {
    var t, k := S.PrintEntry(e), |e.key|;
    forall i | 0 < i < |t| ensures !DollarPair(t[i - 1], t[i]) {
      if i <= k {
        assert t[i - 1] == e.key[i - 1] && e.key[i - 1] in e.key;
      } else if k + 2 < i < |t| - 1 {
        assert t[i - 1] == e.value[i - k - 3] && t[i] == e.value[i - k - 2];
      }
    }
  }

  /* ---------- the block of an entry ---------- */

  lemma BlanksThenEol(s: string, m: M)
    requires D.TailAt(s, m.pos)
    ensures First(Cat(D.BLANKS, Eol), s, m, m.(pos := D.TailEnd(s, m.pos)))
  {
    if m.pos == |s| {
      StarFirst(Space, s, m, 0);
      CatFirst(D.BLANKS, Eol, s, m, m, m);
    } else {
      var x := m.(pos := m.pos + 1);
      if m.pos + 1 == |s| {
        StarFirst(Space, s, m, 1);
        CatFirst(D.BLANKS, Eol, s, m, x, x);
      } else {
        BlanksBacktrack(s, m, x);
      }
    }
  }

  lemma BlanksBacktrack(s: string, m: M, x: M)
    requires D.TailAt(s, m.pos) && m.pos + 1 < |s| && x == m.(pos := m.pos + 1)
    ensures First(Cat(D.BLANKS, Eol), s, m, m)
  {
    StarRun(Space, s, m, 1);
    assert Down(x, 0) == [x] && Down(m, 1) == [x, m];
    EachTwo(Eol, s, x, m, m.pos, [m]);
    CatIs(Cat(D.BLANKS, Eol), s, m, [x, m], m.pos, [m]);
  }

  lemma CloseFirst(s: string, m: M)
    requires 0 < m.pos < |s| && s[m.pos] == '"' && s[m.pos - 1] != '\\' && D.TailAt(s, m.pos + 1)
    ensures First(CLOSE, s, m, m.(pos := D.TailEnd(s, m.pos + 1)))
  {
    var x := m.(pos := m.pos + 1);
    var y := m.(pos := D.TailEnd(s, m.pos + 1));
    BlanksThenEol(s, x);
    LitMatches("\"", s, m);
    CatFirst(Lit("\""), Cat(D.BLANKS, Eol), s, m, x, y);
    CatFirst(NotAfter('\\'), Cat(Lit("\""), Cat(D.BLANKS, Eol)), s, m, m, y);
  }

  // No closing quote here.
  lemma CloseFails(s: string, m: M)
    requires m.pos <= |s| && (m.pos < |s| ==> s[m.pos] != '"')
    ensures Fails(CLOSE, s, m)
  {
    LitMatches("\"", s, m);
    CatFails(Lit("\""), Cat(D.BLANKS, Eol), s, m);
    if m.pos > 0 && s[m.pos - 1] == '\\' {
      CatFails(NotAfter('\\'), Cat(Lit("\""), Cat(D.BLANKS, Eol)), s, m);
    } else {
      SkipFails(NotAfter('\\'), Cat(Lit("\""), Cat(D.BLANKS, Eol)), s, m);
    }
  }

  // From a line start where KEY=" stands to the first place that closes.
  lemma BlockFirst(key: string, s: string, i: nat, n: nat, end: nat)
    requires var b := i + |key| + 2; b + n <= |s| && AtBol(s, i) && Occurs(key + "=\"", s, i)
    requires forall j | i + |key| + 2 <= j < i + |key| + 2 + n :: Fails(CLOSE, s, M(j, map[]))
    requires First(CLOSE, s, M(i + |key| + 2 + n, map[]), M(end, map[]))
    ensures First(Block(key), s, M(i, map[]), M(end, map[]))
  {
    var x, y := M(i + |key| + 2, map[]), M(end, map[]);
    forall j | x.pos <= j < x.pos + n ensures Fails(CLOSE, s, x.(pos := j)) {
      assert x.(pos := j) == M(j, map[]);
    }
    LazyFirst(Any, CLOSE, s, x, n, y);
    BlockVia(key, s, M(i, map[]), x, y);
  }

  lemma BlockVia(key: string, s: string, m: M, x: M, y: M)
    requires m.pos <= |s| && AtBol(s, m.pos) && Occurs(key + "=\"", s, m.pos) && x == M(m.pos + |key| + 2, m.caps)
    requires First(Cat(Lazy(Chr(Any)), CLOSE), s, x, y)
    ensures First(Block(key), s, m, y)
  {
    var t := key + "=\"";
    LitMatches(t, s, m);
    CatFirst(Lit(t), Cat(Lazy(Chr(Any)), CLOSE), s, m, x, y);
    CatFirst(Bol, Cat(Lit(t), Cat(Lazy(Chr(Any)), CLOSE)), s, m, m, y);
  }

  // A block can only start at a line start where KEY=" stands.
  predicate Opens(key: string, s: string, i: nat)
    requires i <= |s|
  {
    AtBol(s, i) && Occurs(key + "=\"", s, i)
  }

  lemma BlockFails(key: string, s: string, i: nat)
    requires i <= |s| && !Opens(key, s, i)
    ensures Fails(Block(key), s, M(i, map[]))
  {
    var t, m := key + "=\"", M(i, map[]);
    var rest := Cat(Lit(t), Cat(Lazy(Chr(Any)), CLOSE));
    if AtBol(s, i) {
      LitMatches(t, s, m);
      CatFails(Lit(t), Cat(Lazy(Chr(Any)), CLOSE), s, m);
      SkipFails(Bol, rest, s, m);
    } else {
      CatFails(Bol, rest, s, m);
    }
  }

  /* ---------- where a key opens ---------- */

  // The last line of a multi-line value reads KEY=, so that its closing quote looks like the
  // opening quote of KEY's own entry.
  predicate Decoy(v: string, key: string) {
    |v| >= |key| + 2 && S.LineTerminator(v[|v| - |key| - 2]) && v[|v| - |key| - 1..] == key + "="
  }

  // The first quote after a position where KEY=" stands is its own.
  lemma QuoteOf(key: string, s: string, j: nat, q: nat)
    requires S.IsKey(key) && Occurs(key + "=\"", s, j)
    requires j <= q < |s| && s[q] == '"' && forall p | j <= p < q :: s[p] != '"'
    ensures q == j + |key| + 1
    ensures s[j..j + |key|] == key && s[j + |key|] == '='
    ensures forall p | j <= p < j + |key| :: S.KeyChar(s[p])
  {
    var t := key + "=\"";
    assert s[j..j + |t|] == t;
    assert s[j..j + |t|][|key| + 1] == '"' && s[j..j + |t|][|key|] == '=';
    assert s[j..j + |key|] == t[..|key|] == key;
    forall p | j <= p < j + |key| ensures S.KeyChar(s[p]) && s[p] != '"' {
      assert s[j..j + |key|][p - j] == s[p] && key[p - j] in key;
    }
  }

  // An entry of another key, at i, with its closing quote at c.
  ghost predicate Fields(s: string, i: nat, e: S.Entry) {
    var k, n := |e.key|, |e.value|;
    && i + k + n + 3 <= |s| && s[i..i + k] == e.key && s[i + k] == '=' && s[i + k + 1] == '"'
    && s[i + k + 2..i + k + 2 + n] == e.value && s[i + k + 2 + n] == '"'
  }

  lemma NotFromKey(key: string, s: string, i: nat, e: S.Entry, j: nat)
    requires S.IsKey(key) && S.IsKey(e.key) && e.key != key && Fields(s, i, e)
    requires i <= j <= i + |e.key| + 1
    ensures !Opens(key, s, j)
  {
    if Opens(key, s, j) {
      var q := i + |e.key| + 1;
      forall p | i <= p < i + |e.key| ensures S.KeyChar(s[p]) {
        assert s[p] == s[i..i + |e.key|][p - i] && e.key[p - i] in e.key;
      }
      QuoteOf(key, s, j, q);
    }
  }

  lemma OpensInValue(key: string, s: string, i: nat, e: S.Entry, j: nat)
    requires S.IsKey(key) && Fields(s, i, e) && D.Plain(e.value)
    requires i + |e.key| + 2 <= j <= i + |e.key| + |e.value| + 2 && Opens(key, s, j)
    ensures Decoy(e.value, key)
  {
    var b := i + |e.key| + 2;
    QuoteInValue(key, s, b, b + |e.value|, e.value, j);
    DecoyAt(key, s, b, b + |e.value|, e.value, j);
  }

  // The closing quote of the value at b is the one that opens the block.
  lemma QuoteInValue(key: string, s: string, b: nat, c: nat, v: string, j: nat)
    requires S.IsKey(key) && Occurs(key + "=\"", s, j) && D.Plain(v)
    requires c == b + |v| < |s| && s[b..c] == v && s[c] == '"' && b <= j <= c
    ensures c == j + |key| + 1 && s[j..j + |key|] == key && s[j + |key|] == '='
  {
    forall p | b <= p < c ensures s[p] != '"' {
      assert s[p] == s[b..c][p - b] && v[p - b] in v;
    }
    QuoteOf(key, s, j, c);
  }

  lemma DecoyAt(key: string, s: string, b: nat, c: nat, v: string, j: nat)
    requires 0 < b <= j && c == b + |v| < |s| && s[b..c] == v && s[b - 1] == '"'
    requires c == j + |key| + 1 && s[j..j + |key|] == key && s[j + |key|] == '=' && AtBol(s, j)
    ensures Decoy(v, key)
  {
    assert j > b;
    assert v[j - 1 - b] == s[j - 1];
    assert v[j - b..] == s[j..c] == s[j..j + |key|] + [s[j + |key|]];
  }

  lemma OpensWithKey(key: string, s: string, j: nat)
    requires S.IsKey(key) && j <= |s| && Opens(key, s, j)
    ensures j < |s| && S.KeyChar(s[j])
  {
    assert s[j..j + |key + "=\""|][0] == key[0] && key[0] in key;
  }

  // Nowhere in another entry, nor at the newline after it.
  lemma NotInEntry(key: string, s: string, i: nat, e: S.Entry)
    requires S.IsKey(key) && S.IsKey(e.key) && e.key != key && Fields(s, i, e)
    requires D.Plain(e.value) && !Decoy(e.value, key)
    requires var end := i + |e.key| + |e.value| + 3; end < |s| ==> s[end] == '\n'
    ensures forall j | i <= j <= i + |e.key| + |e.value| + 3 :: !Opens(key, s, j)
  {
    var end := i + |e.key| + |e.value| + 3;
    forall j | i <= j <= end ensures !Opens(key, s, j) {
      if j < i + |e.key| + 2 {
        NotFromKey(key, s, i, e, j);
      } else if j < end {
        if Opens(key, s, j) {
          OpensInValue(key, s, i, e, j);
        }
      } else if Opens(key, s, j) {
        OpensWithKey(key, s, j);
      }
    }
  }

  /* ---------- one replacement in a printed file ---------- */

  // The entries before another one, each on its own lines.
  function Before(es: seq<S.Entry>): string {
    if es == [] then "" else S.PrintEntry(es[0]) + "\n" + Before(es[1..])
  }

  lemma {:induction false} RenderSplits(es: seq<S.Entry>, k: nat, tail: string)
    requires k < |es|
    ensures S.Render(es, tail) == Before(es[..k]) + (S.PrintEntry(es[k]) + D.After(es[k..], tail))
    decreases k
  {
    if k == 0 {
      assert es[..0] == [] && es[0..] == es;
      D.RenderHead(es, tail);
    } else {
      RenderSplits(es[1..], k - 1, tail);
      assert es[1..][..k - 1] == es[..k][1..] && es[1..][k - 1..] == es[k..];
      var e, rest := S.PrintEntry(es[0]) + "\n", S.PrintEntry(es[k]) + D.After(es[k..], tail);
      assert e + (Before(es[..k][1..]) + rest) == (e + Before(es[..k][1..])) + rest;
    }
  }

  lemma AfterOfUpdated(es: seq<S.Entry>, k: nat, e: S.Entry, tail: string)
    requires k < |es|
    ensures D.After(es[k := e][k..], tail) == D.After(es[k..], tail) && es[k := e][..k] == es[..k]
  {
    assert es[k := e][k..][1..] == es[k..][1..];
  }

  // None of these entries can be taken for the block of key.
  ghost predicate Foreign(es: seq<S.Entry>, key: string) {
    forall e | e in es :: S.IsKey(e.key) && e.key != key && D.Plain(e.value) && !Decoy(e.value, key)
  }

  lemma FieldsOf(s: string, i: nat, e: S.Entry, rest: string)
    requires i <= |s| && s[i..] == S.PrintEntry(e) + rest
    ensures Fields(s, i, e) && s[i + |e.key| + |e.value| + 3..] == rest
  {
    D.EntryText(s[i..], e, rest);
    D.SliceOf(s, i, s[i..], |e.key|, |e.value|);
  }

  // Nothing before the entry opens the block.
  lemma {:induction false} NothingOpensBefore(key: string, s: string, i: nat, es: seq<S.Entry>, rest: string)
    requires S.IsKey(key) && Foreign(es, key) && i <= |s| && s[i..] == Before(es) + rest
    ensures i + |Before(es)| <= |s| && s[i + |Before(es)|..] == rest
    ensures forall j | i <= j < i + |Before(es)| :: !Opens(key, s, j)
    decreases |es|
  {
    if es == [] {
      assert Before(es) + rest == rest;
    } else {
      var e, more := es[0], Before(es[1..]) + rest;
      var end := i + |e.key| + |e.value| + 3;
      assert s[i..] == S.PrintEntry(e) + ("\n" + more);
      LineAhead(s, i, e, more, end);
      NotInEntry(key, s, i, e);
      NothingOpensBefore(key, s, end + 1, es[1..], rest);
      assert |Before(es)| == (end + 1 - i) + |Before(es[1..])|;
    }
  }

  lemma LineAhead(s: string, i: nat, e: S.Entry, more: string, end: nat)
    requires i <= |s| && s[i..] == S.PrintEntry(e) + ("\n" + more) && end == i + |e.key| + |e.value| + 3
    ensures Fields(s, i, e) && end < |s| && s[end] == '\n' && s[end + 1..] == more
  {
    FieldsOf(s, i, e, "\n" + more);
    assert s[end..][0] == '\n' && s[end + 1..] == s[end..][1..] == more;
  }

  lemma KeyOccurs(s: string, i: nat, e: S.Entry)
    requires Fields(s, i, e)
    ensures Occurs(e.key + "=\"", s, i)
  {
    var k := |e.key|;
    assert s[i..i + k + 2] == s[i..i + k] + [s[i + k]] + [s[i + k + 1]];
  }

  // Every quote of the value has a backslash before it, and the quote after the value has none.
  predicate Unbroken(v: string) {
    && (v != "" ==> v[0] != '"' && v[|v| - 1] != '\\')
    && forall j | 0 < j < |v| && v[j] == '"' :: v[j - 1] == '\\'
  }

  lemma PlainIsUnbroken(v: string)
    requires D.Plain(v)
    ensures Unbroken(v)
  {
    assert forall j | 0 <= j < |v| :: v[j] in v;
  }

  lemma BlockMatches(s: string, i: nat, e: S.Entry, end: nat)
    requires Unbroken(e.value) && Fields(s, i, e) && AtBol(s, i)
    requires D.TailAt(s, i + |e.key| + |e.value| + 3) && end == D.TailEnd(s, i + |e.key| + |e.value| + 3)
    ensures First(Block(e.key), s, M(i, map[]), M(end, map[]))
  {
    var b, n := i + |e.key| + 2, |e.value|;
    ValueNeverCloses(s, b, e.value);
    CloseFirst(s, M(b + n, map[]));
    KeyOccurs(s, i, e);
    BlockFirst(e.key, s, i, n, end);
  }

  // The search finds the entry of the key, from its line start to the end of its last line.
  lemma BlockFound(s: string, i: nat, e: S.Entry)
    requires S.IsKey(e.key) && Unbroken(e.value) && Fields(s, i, e) && AtBol(s, i)
    requires D.TailAt(s, i + |e.key| + |e.value| + 3)
    requires forall j | 0 <= j < i :: !Opens(e.key, s, j)
    ensures Search(Block(e.key), s, 0) == Some(Found(i, D.TailEnd(s, i + |e.key| + |e.value| + 3), map[]))
  {
    var end := D.TailEnd(s, i + |e.key| + |e.value| + 3);
    BlockMatches(s, i, e, end);
    forall j | 0 <= j < i ensures Fails(Block(e.key), s, M(j, map[])) {
      BlockFails(e.key, s, j);
    }
    SearchFinds(Block(e.key), s, 0, i, M(end, map[]));
  }

  lemma ValueNeverCloses(s: string, b: nat, v: string)
    requires 0 < b && b + |v| < |s| && s[b - 1] == '"' && s[b..b + |v|] == v && Unbroken(v)
    ensures forall j | b <= j < b + |v| :: Fails(CLOSE, s, M(j, map[]))
    ensures s[b + |v| - 1] != '\\'
  {
    forall j | b <= j < b + |v| ensures Fails(CLOSE, s, M(j, map[])) {
      assert s[j] == s[b..b + |v|][j - b];
      if s[j] == '"' {
        assert s[j - 1] == s[b..b + |v|][j - 1 - b];
        EscapedNeverCloses(s, M(j, map[]));
      } else {
        CloseFails(s, M(j, map[]));
      }
    }
    assert v != "" ==> s[b + |v| - 1] == s[b..b + |v|][|v| - 1];
  }

  // A quote after a backslash does not close.
  lemma EscapedNeverCloses(s: string, m: M)
    requires 0 < m.pos <= |s| && s[m.pos - 1] == '\\'
    ensures Fails(CLOSE, s, m)
  {
    CatFails(NotAfter('\\'), Cat(Lit("\""), Cat(D.BLANKS, Eol)), s, m);
  }

  ghost predicate PlainFile(es: seq<S.Entry>) {
    forall e | e in es :: S.IsKey(e.key) && D.Plain(e.value)
  }

  // The entry with `rest` after it stands at i, at a line start that nothing before it opens.
  ghost predicate Stands(s: string, i: nat, e: S.Entry, rest: string) {
    && i <= |s| && s[i..] == S.PrintEntry(e) + rest && AtBol(s, i)
    && (forall j | 0 <= j < i :: !Opens(e.key, s, j))
  }

  lemma EntryStands(es: seq<S.Entry>, k: nat, tail: string, s: string, i: nat)
    requires k < |es| && S.IsKey(es[k].key) && Foreign(es[..k], es[k].key)
    requires s == S.Render(es, tail) && i == |Before(es[..k])|
    ensures Stands(s, i, es[k], D.After(es[k..], tail)) && s[..i] == Before(es[..k])
  {
    var e, rest := es[k], D.After(es[k..], tail);
    RenderSplits(es, k, tail);
    assert s[0..] == s;
    NothingOpensBefore(e.key, s, 0, es[..k], S.PrintEntry(e) + rest);
    BeforeEndsLine(es[..k]);
  }

  // How the text after entry k begins, and where a search that took the entry stops.
  lemma RestOf(es: seq<S.Entry>, k: nat, tail: string, s: string, end: nat)
    requires PlainFile(es) && k < |es| && (tail == "" || tail == "\n")
    requires end <= |s| && s[end..] == D.After(es[k..], tail)
    ensures D.TailAt(s, end) && D.TailEnd(s, end) == if k + 1 == |es| then |s| else end
  {
    var t := es[k..];
    forall x | x in t ensures S.IsKey(x.key) && D.Body(x.value) {
      D.PlainIsBody(x.value);
    }
    D.FirstEntry(t, tail);
    D.FollowsIsTail(s, end, D.After(t, tail), S.Render(t[1..], tail));
  }

  lemma {:induction false} BeforeEndsLine(es: seq<S.Entry>)
    ensures es == [] ==> Before(es) == ""
    ensures es != [] ==> Before(es) != "" && Before(es)[|Before(es)| - 1] == '\n'
  {
    if es != [] {
      BeforeEndsLine(es[1..]);
    }
  }

  lemma ReplacedAt(s: string, key: string, value: string, start: nat, stop: nat)
    requires S.IsKey(key) && NoDollarPair(value) && start <= stop <= |s|
    requires Search(Block(key), s, 0) == Some(Found(start, stop, map[]))
    ensures ReplaceBlock(s, key, value) == Ok(s[..start] + S.PrintEntry(S.Entry(key, value)) + s[stop..])
  {
    EntryHasNoPair(S.Entry(key, value));
    ExpandNothing(S.PrintEntry(S.Entry(key, value)), s[..start], s[start..stop], s[stop..]);
  }

  lemma BlockAt(s: string, i: nat, e: S.Entry, rest: string, end: nat, stop: nat)
    requires S.IsKey(e.key) && D.Plain(e.value) && Stands(s, i, e, rest) && end == i + |e.key| + |e.value| + 3
    requires D.TailAt(s, end) && stop == D.TailEnd(s, end)
    ensures Search(Block(e.key), s, 0) == Some(Found(i, stop, map[]))
  {
    FieldsOf(s, i, e, rest);
    PlainIsUnbroken(e.value);
    BlockFound(s, i, e);
  }

  // The search takes the whole entry, and the file's last newline with it if nothing else follows.
  lemma BlockOfEntry(es: seq<S.Entry>, k: nat, tail: string, s: string, i: nat)
    requires PlainFile(es) && k < |es| && Foreign(es[..k], es[k].key) && (tail == "" || tail == "\n")
    requires s == S.Render(es, tail) && i == |Before(es[..k])|
    ensures var end := i + |es[k].key| + |es[k].value| + 3;
      && end <= |s| && s[..i] == Before(es[..k]) && s[end..] == D.After(es[k..], tail)
      && Search(Block(es[k].key), s, 0) == Some(Found(i, if k + 1 == |es| then |s| else end, map[]))
  {
    var e, rest := es[k], D.After(es[k..], tail);
    var end := i + |e.key| + |e.value| + 3;
    EntryStands(es, k, tail, s, i);
    StandingEnds(s, i, e, rest, end);
    RestOf(es, k, tail, s, end);
    BlockAt(s, i, e, rest, end, if k + 1 == |es| then |s| else end);
  }

  lemma StandingEnds(s: string, i: nat, e: S.Entry, rest: string, end: nat)
    requires Stands(s, i, e, rest) && end == i + |e.key| + |e.value| + 3
    ensures end <= |s| && s[end..] == rest
  {
    D.EntryEnds(s, i, e, rest);
  }

  /** replaceBlock on a printed file rewrites the entry of its key and no other; the newline that
      ends the file is lost when that entry is the last. */
  lemma ReplacesOnlyItsEntry(es: seq<S.Entry>, k: nat, value: string, tail: string)
    requires PlainFile(es) && k < |es| && Foreign(es[..k], es[k].key) && (tail == "" || tail == "\n")
    requires NoDollarPair(value)
    ensures ReplaceBlock(S.Render(es, tail), es[k].key, value)
            == Ok(S.Render(es[k := S.Entry(es[k].key, value)], if k + 1 == |es| then "" else tail))
  {
    var s, i, e' := S.Render(es, tail), |Before(es[..k])|, S.Entry(es[k].key, value);
    BlockOfEntry(es, k, tail, s, i);
    var stop := if k + 1 == |es| then |s| else i + |es[k].key| + |es[k].value| + 3;
    ReplacedAt(s, es[k].key, value, i, stop);
    UpdatedText(es, k, e', tail, s[..i], s[stop..]);
  }

  lemma UpdatedText(es: seq<S.Entry>, k: nat, e: S.Entry, tail: string, before: string, after: string)
    requires k < |es| && before == Before(es[..k])
    requires after == if k + 1 == |es| then "" else D.After(es[k..], tail)
    ensures before + S.PrintEntry(e) + after == S.Render(es[k := e], if k + 1 == |es| then "" else tail)
  {
    var tail' := if k + 1 == |es| then "" else tail;
    RenderSplits(es[k := e], k, tail');
    AfterOfUpdated(es, k, e, tail');
    assert after == D.After(es[k..], tail');
    assert before + S.PrintEntry(e) + after == before + (S.PrintEntry(e) + after);
  }

  /** A file without the key stops the script. */
  lemma MissingBlockStops(es: seq<S.Entry>, key: string, value: string, tail: string)
    requires S.IsKey(key) && Foreign(es, key) && (tail == "" || tail == "\n")
    ensures ReplaceBlock(S.Render(es, tail), key, value) == Err(NoBlock(key))
  {
    var s := S.Render(es, tail);
    if es != [] {
      NothingOpens(es, key, tail, s, |es| - 1);
    }
    forall j | 0 <= j <= |s| ensures Fails(Block(key), s, M(j, map[])) {
      BlockFails(key, s, j);
    }
    SearchMisses(Block(key), s, 0);
  }

  // Neither the entries before the last one nor the last one open the block.
  lemma NothingOpens(es: seq<S.Entry>, key: string, tail: string, s: string, k: nat)
    requires S.IsKey(key) && Foreign(es, key) && (tail == "" || tail == "\n")
    requires k + 1 == |es| && s == S.Render(es, tail)
    ensures forall j | 0 <= j <= |s| :: !Opens(key, s, j)
  {
    var i, e, rest := |Before(es[..k])|, es[k], D.After(es[k..], tail);
    assert rest == tail && s[0..] == s;
    RenderSplits(es, k, tail);
    NothingOpensBefore(key, s, 0, es[..k], S.PrintEntry(e) + rest);
    NothingOpensInLast(s, i, e, tail, key);
  }

  lemma NothingOpensInLast(s: string, i: nat, e: S.Entry, tail: string, key: string)
    requires i <= |s| && s[i..] == S.PrintEntry(e) + tail && (tail == "" || tail == "\n")
    requires S.IsKey(key) && S.IsKey(e.key) && e.key != key && D.Plain(e.value) && !Decoy(e.value, key)
    ensures forall j | i <= j <= |s| :: !Opens(key, s, j)
  {
    var end := i + |e.key| + |e.value| + 3;
    FieldsOf(s, i, e, tail);
    assert end < |s| ==> s[end..][0] == '\n' && end + 1 == |s|;
    NotInEntry(key, s, i, e);
  }

  /* ---------- what the scanner then reads ---------- */

  // No quote, no backslash, and a first line that `.` can match.
  predicate Clean(v: string) {
    D.Plain(v) && S.NoTerminator(Text.Split(v)[0])
  }

  ghost predicate CleanFile(es: seq<S.Entry>) {
    && (forall e | e in es :: S.IsKey(e.key) && Clean(e.value))
    && (forall i, j | 0 <= i < j < |es| :: es[i].key != es[j].key)
  }

  lemma CleanIsPrintable(es: seq<S.Entry>)
    requires CleanFile(es)
    ensures PlainFile(es) && S.AllPrintable(es)
  {
    forall e | e in es ensures S.Printable(e.value) {
      D.PlainPrintable(e.value);
    }
  }

  lemma {:induction false} LastWinsOther(es: seq<S.Entry>, out: map<string, string>, key: string, v: string)
    requires forall e | e in es :: e.key != key
    ensures S.LastWins(es, out[key := v]) == S.LastWins(es, out)[key := v]
  {
    if es != [] {
      var e := es[0];
      LastWinsOther(es[1..], out[e.key := e.value], key, v);
      assert out[key := v][e.key := e.value] == out[e.key := e.value][key := v];
    }
  }

  lemma {:induction false} LastWinsUpdated(es: seq<S.Entry>, k: nat, v: string, out: map<string, string>)
    requires CleanFile(es) && k < |es|
    ensures S.LastWins(es[k := S.Entry(es[k].key, v)], out) == S.LastWins(es, out)[es[k].key := v]
    decreases k
  {
    var key := es[k].key;
    var es' := es[k := S.Entry(key, v)];
    var out' := out[es[0].key := es[0].value];
    assert forall i, j | 0 <= i < j < |es[1..]| :: es[1..][i].key == es[i + 1].key && es[1..][j].key == es[j + 1].key;
    if k == 0 {
      assert es'[1..] == es[1..];
      LastWinsOther(es[1..], out, key, v);
      LastWinsOther(es[1..], out, key, es[0].value);
    } else {
      LastWinsUpdated(es[1..], k - 1, v, out');
      assert es'[1..] == es[1..][k - 1 := S.Entry(key, v)];
    }
  }

  // What a replacement must be for the scanner to read it back.
  predicate Fit(w: S.Entry) {
    S.IsKey(w.key) && Clean(w.value) && NoDollarPair(w.value)
  }

  /** One replacement: the scanner reads the old map with that key updated. */
  lemma OneKeyUpdated(es: seq<S.Entry>, k: nat, value: string, tail: string)
    requires CleanFile(es) && k < |es| && Fit(S.Entry(es[k].key, value)) && (tail == "" || tail == "\n")
    requires forall e | e in es[..k] :: !Decoy(e.value, es[k].key)
    ensures var es' := es[k := S.Entry(es[k].key, value)]; var tail' := if k + 1 == |es| then "" else tail;
      && ReplaceBlock(S.Render(es, tail), es[k].key, value) == Ok(S.Render(es', tail'))
      && CleanFile(es')
      && S.Parse(S.Render(es', tail')) == S.Parse(S.Render(es, tail))[es[k].key := value]
  {
    var es' := es[k := S.Entry(es[k].key, value)];
    CleanIsPrintable(es);
    assert CleanFile(es') by {
      assert forall i | 0 <= i < |es| :: es'[i].key == es[i].key;
    }
    CleanIsPrintable(es');
    ReplacesOnlyItsEntry(es, k, value, tail);
    S.RoundTrip(es, tail);
    S.RoundTrip(es', if k + 1 == |es| then "" else tail);
    LastWinsUpdated(es, k, value, map[]);
  }

  // Where the key's entry is, or the number of entries if it has none.
  function EntryOf(es: seq<S.Entry>, key: string): (k: nat)
    ensures k <= |es| && (k < |es| ==> es[k].key == key) && forall e | e in es[..k] :: e.key != key
  {
    if es == [] || es[0].key == key then 0
    else
      var k := EntryOf(es[1..], key);
      assert es[..k + 1] == [es[0]] + es[1..][..k];
      k + 1
  }

  // Each key in its turn has an entry, and no value before that entry, as the file then is, ends in
  // a line that opens a block of the key.
  predicate ClearOfDecoys(es: seq<S.Entry>, wanted: seq<S.Entry>)
    decreases |wanted|
  {
    wanted == []
    || var k := EntryOf(es, wanted[0].key);
       k < |es| && (forall e | e in es[..k] :: !Decoy(e.value, wanted[0].key)) && ClearOfDecoys(es[k := wanted[0]], wanted[1..])
  }

  /** The loop over the keys: the script writes a file that the scanner reads as the old map with
      exactly those keys updated. */
  lemma {:induction false} InstallUpdatesExactly(es: seq<S.Entry>, wanted: seq<S.Entry>, tail: string)
    requires CleanFile(es) && (tail == "" || tail == "\n")
    requires forall w | w in wanted :: S.IsKey(w.key) && Fit(w)
    requires ClearOfDecoys(es, wanted)
    ensures var r := InstallAll(S.Render(es, tail), wanted);
      r.Ok? && S.Parse(r.value) == S.LastWins(wanted, S.Parse(S.Render(es, tail)))
    decreases |wanted|
  {
    if wanted != [] {
      var w := wanted[0];
      var k := EntryOf(es, w.key);
      OneKeyUpdated(es, k, w.value, tail);
      assert S.Entry(es[k].key, w.value) == w;
      InstallUpdatesExactly(es[k := w], wanted[1..], if k + 1 == |es| then "" else tail);
    }
  }

  /* ---------- why a decoy matters ---------- */

  lemma {:induction false} BeforeGrows(es: seq<S.Entry>, j: nat, k: nat)
    requires j < k <= |es|
    ensures |Before(es[..k])| >= |Before(es[..j])| + |es[j].key| + |es[j].value| + 4
    decreases j
  {
    assert es[..k][1..] == es[1..][..k - 1];
    if j > 0 {
      assert es[..j][1..] == es[1..][..j - 1];
      BeforeGrows(es[1..], j - 1, k - 1);
    } else {
      assert es[..0] == [] && |S.PrintEntry(es[0])| == |es[0].key| + |es[0].value| + 3;
    }
  }

  lemma EntryIsThere(es: seq<S.Entry>, j: nat, tail: string, s: string)
    requires j < |es| && s == S.Render(es, tail)
    ensures var i := |Before(es[..j])|;
      Fields(s, i, es[j]) && s[i + |es[j].key| + |es[j].value| + 3..] == D.After(es[j..], tail)
  {
    var i, rest := |Before(es[..j])|, D.After(es[j..], tail);
    RenderSplits(es, j, tail);
    assert s[i..] == S.PrintEntry(es[j]) + rest;
    FieldsOf(s, i, es[j], rest);
  }

  // The line KEY= that ends the value of a decoy opens KEY's block.
  lemma DecoyOpens(key: string, s: string, i: nat, e: S.Entry, p: nat)
    requires S.IsKey(key) && Fields(s, i, e) && Decoy(e.value, key)
    requires p == i + |e.key| + |e.value| + 1 - |key|
    ensures p + |key| + 2 <= |s| && Opens(key, s, p)
  {
    var b, v := i + |e.key| + 2, e.value;
    var d := |v| - |key| - 1;
    assert s[p - 1] == s[b..b + |v|][d - 1] == v[d - 1];
    assert s[p..b + |v|] == s[b..b + |v|][d..] == key + "=";
    assert s[p..p + |key| + 2] == s[p..b + |v|] + [s[b + |v|]];
    assert s[p..p + |key| + 2] == key + "=\"";
  }

  // A block that opens and has a closing quote ahead matches.
  lemma OpensThenCloses(key: string, s: string, p: nat, c: nat)
    requires p <= |s| && Opens(key, s, p) && p + |key| + 2 <= c <= |s| && !Fails(CLOSE, s, M(c, map[]))
    ensures !Fails(Block(key), s, M(p, map[]))
  {
    var x := M(p + |key| + 2, map[]);
    LazySucceeds(Any, CLOSE, s, x, c - x.pos, M(c, map[]));
    OpenedBlock(key, s, M(p, map[]), x, Cat(Lazy(Chr(Any)), CLOSE));
  }

  lemma OpenedBlock(key: string, s: string, m: M, x: M, body: Re)
    requires m.pos <= |s| && Opens(key, s, m.pos) && x == M(m.pos + |key| + 2, m.caps) && body == Cat(Lazy(Chr(Any)), CLOSE)
    requires !Fails(body, s, x)
    ensures !Fails(Block(key), s, m)
  {
    var t := key + "=\"";
    var ys := All(body, s, x);
    LitMatches(t, s, m);
    CatOnly(Lit(t), body, s, m, x, ys);
    CatOnly(Bol, Cat(Lit(t), body), s, m, m, ys);
  }

  lemma EntryCloses(s: string, i: nat, e: S.Entry, c: nat)
    requires Fields(s, i, e) && D.Plain(e.value) && c == i + |e.key| + |e.value| + 2 && D.TailAt(s, c + 1)
    ensures !Fails(CLOSE, s, M(c, map[]))
  {
    PlainIsUnbroken(e.value);
    ValueNeverCloses(s, i + |e.key| + 2, e.value);
    CloseFirst(s, M(c, map[]));
  }

  lemma OwnEntryCloses(es: seq<S.Entry>, k: nat, tail: string, s: string, c: nat)
    requires PlainFile(es) && k < |es| && (tail == "" || tail == "\n") && s == S.Render(es, tail)
    requires c == |Before(es[..k])| + |es[k].key| + |es[k].value| + 2
    ensures c <= |s| && !Fails(CLOSE, s, M(c, map[]))
  {
    EntryIsThere(es, k, tail, s);
    RestOf(es, k, tail, s, c + 1);
    EntryCloses(s, |Before(es[..k])|, es[k], c);
  }

  lemma DecoyWins(key: string, s: string, i: nat, e: S.Entry, c: nat)
    requires S.IsKey(key) && Fields(s, i, e) && Decoy(e.value, key)
    requires i + |e.key| + |e.value| + 3 <= c <= |s| && !Fails(CLOSE, s, M(c, map[]))
    ensures var f := Search(Block(key), s, 0); f.Some? && f.value.start < i + |e.key| + |e.value| + 3
  {
    var p := i + |e.key| + |e.value| + 1 - |key|;
    DecoyOpens(key, s, i, e, p);
    OpensThenCloses(key, s, p, c);
    SearchAtMost(Block(key), s, 0, p);
  }

  lemma DecoyIsFoundFirst(es: seq<S.Entry>, j: nat, k: nat, tail: string, s: string)
    requires PlainFile(es) && j < k < |es| && (tail == "" || tail == "\n") && s == S.Render(es, tail)
    requires Decoy(es[j].value, es[k].key)
    ensures var f := Search(Block(es[k].key), s, 0); f.Some? && f.value.start < |Before(es[..k])|
  {
    var c := |Before(es[..k])| + |es[k].key| + |es[k].value| + 2;
    EntryIsThere(es, j, tail, s);
    BeforeGrows(es, j, k);
    OwnEntryCloses(es, k, tail, s, c);
    DecoyWins(es[k].key, s, |Before(es[..j])|, es[j], c);
  }

  /** The block that replaceBlock finds is the key's own entry exactly when no earlier value ends in
      a line that reads KEY=. */
  lemma FindsOwnEntryExactlyWhen(es: seq<S.Entry>, k: nat, tail: string)
    requires PlainFile(es) && k < |es| && (tail == "" || tail == "\n")
    requires forall j | 0 <= j < k :: es[j].key != es[k].key
    ensures var f := Search(Block(es[k].key), S.Render(es, tail), 0);
      && f.Some?
      && (f.value.start == |Before(es[..k])| <==> forall j | 0 <= j < k :: !Decoy(es[j].value, es[k].key))
  {
    var s := S.Render(es, tail);
    if j :| 0 <= j < k && Decoy(es[j].value, es[k].key) {
      DecoyIsFoundFirst(es, j, k, tail, s);
    } else {
      BlockOfEntry(es, k, tail, s, |Before(es[..k])|);
    }
  }

  lemma NotClosing(s: string, m: M)
    requires m.pos + 1 < |s| && s[m.pos] == '"' && !IsSpace(s[m.pos + 1])
    ensures Fails(CLOSE, s, m)
  {
    var b := Cat(Lit("\""), Cat(D.BLANKS, Eol));
    NoEndOfLine(s, m.(pos := m.pos + 1));
    LitMatches("\"", s, m);
    CatOnly(Lit("\""), Cat(D.BLANKS, Eol), s, m, m.(pos := m.pos + 1), []);
    if m.pos > 0 && s[m.pos - 1] == '\\' {
      CatFails(NotAfter('\\'), b, s, m);
    } else {
      SkipFails(NotAfter('\\'), b, s, m);
    }
  }

  lemma NoEndOfLine(s: string, m: M)
    requires m.pos < |s| && !IsSpace(s[m.pos])
    ensures Fails(Cat(D.BLANKS, Eol), s, m)
  {
    StarRun(Space, s, m, 0);
    assert Fails(Eol, s, m);
    SkipFails(D.BLANKS, Eol, s, m);
  }

  const DECOY_FILE := "X=\"a\nK=\"\nK=\"b\"\n"

  predicate DecoyText(s: string) {
    && |s| == 15 && s[0] == 'X' && s[1] == '=' && s[2] == '"' && s[3] == 'a' && s[4] == '\n'
    && s[5] == 'K' && s[6] == '=' && s[7] == '"' && s[8] == '\n'
    && s[9] == 'K' && s[10] == '=' && s[11] == '"' && s[12] == 'b' && s[13] == '"' && s[14] == '\n'
  }

  lemma DecoyCloses(s: string)
    requires DecoyText(s)
    ensures forall j | 8 <= j < 13 :: Fails(CLOSE, s, M(j, map[]))
    ensures First(CLOSE, s, M(13, map[]), M(15, map[]))
  {
    forall j | 8 <= j < 13 ensures Fails(CLOSE, s, M(j, map[])) {
      if j == 11 {
        NotClosing(s, M(j, map[]));
      } else {
        CloseFails(s, M(j, map[]));
      }
    }
    CloseFirst(s, M(13, map[]));
  }

  lemma DecoyTextOpens(s: string, key: string)
    requires DecoyText(s) && key == "K"
    ensures Opens(key, s, 5) && forall j | 0 <= j < 5 :: !Opens(key, s, j)
  {
    assert s[5..8] == key + "=\"";
    forall j | 0 <= j < 5 ensures !Opens(key, s, j) {
      if j == 0 && Opens(key, s, j) {
        OpensHere(key, s, j);
      }
    }
  }

  lemma OpensHere(key: string, s: string, j: nat)
    requires S.IsKey(key) && j <= |s| && Opens(key, s, j)
    ensures j < |s| && s[j] == key[0]
  {
    assert s[j..j + |key + "=\""|][0] == key[0];
  }

  lemma DecoyMatch(s: string, key: string)
    requires DecoyText(s) && key == "K"
    ensures Search(Block(key), s, 0) == Some(Found(5, 15, map[]))
  {
    DecoyCloses(s);
    DecoyTextOpens(s, key);
    BlockFirst(key, s, 5, 5, 15);
    forall j | 0 <= j < 5 ensures Fails(Block(key), s, M(j, map[])) {
      BlockFails(key, s, j);
    }
    SearchFinds(Block(key), s, 0, 5, M(15, map[]));
  }

  lemma DecoyRendered()
    ensures DECOY_FILE == S.Render([S.Entry("X", "a\nK="), S.Entry("K", "b")], "\n")
  {
    var es := [S.Entry("X", "a\nK="), S.Entry("K", "b")];
    assert es[1..] == [es[1]];
    assert S.PrintEntry(es[0]) == "X=\"a\nK=\"" && S.PrintEntry(es[1]) == "K=\"b\"";
  }

  lemma DecoyPrintable(v: string)
    requires v == "a\nK=\"c"
    ensures S.Printable(v)
  {
    Text.SplitAfterLine("a", "K=\"c");
    Text.SplitLine("K=\"c");
    assert "a" + "\n" + "K=\"c" == v;
  }

  lemma DecoyReplaced(s: string, key: string, value: string, after: string)
    requires DecoyText(s) && key == "K" && value == "c" && after == s[..5] + "K=\"c\""
    ensures ReplaceBlock(s, key, value) == Ok(after)
  {
    DecoyMatch(s, key);
    ReplacedAt(s, key, value, 5, 15);
    var entry := S.PrintEntry(S.Entry(key, value));
    assert entry == "K=\"c\"";
    assert s[15..] == "" && s[..5] + entry + "" == s[..5] + entry;
  }

  /** Plain values and distinct keys are not enough: with entries X="a, newline, K=" and K="b", the
      closing quote of X's value is taken for the opening quote of K. */
  lemma DecoyIsReplaced(file: string, key: string, value: string, after: string)
    requires file == DECOY_FILE && key == "K" && value == "c" && after == "X=\"a\nK=\"c\""
    ensures file == S.Render([S.Entry("X", "a\nK="), S.Entry(key, "b")], "\n")
    ensures ReplaceBlock(file, key, value) == Ok(after)
  {
    DecoyRendered();
    assert after == file[..5] + "K=\"c\"";
    DecoyReplaced(file, key, value, after);
  }

  /** In the file that leaves, X has another value and K is gone. */
  lemma DecoyLosesTheKey(after: string)
    requires after == "X=\"a\nK=\"c\""
    ensures S.Parse(after) == map["X" := "a\nK=\"c"]
  {
    var now := S.Entry("X", "a\nK=\"c");
    DecoyPrintable(now.value);
    S.RoundTripExactlyWhen(now, "");
    assert S.PrintEntry(now) + "" == after;
  }
}
