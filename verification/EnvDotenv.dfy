/**
 * parseDotenv: the regular-expression reader for .env files, and its agreement with the line
 * scanner.
 */
module EnvDotenv {
  import opened Prelude
  import opened Regex
  import S = EnvScanner
  import V = EnvEscapes
  import opened Text

  /* ---------- the pattern ---------- */

  // [^"\\]|\\[\s\S], and the same for an apostrophe
  function Unit(q: char): Re {
    Alt(Chr(NoneOf({q, '\\'})), Cat(Lit("\\"), Chr(Any)))
  }

  function QuotedBy(q: char): Re {
    Cat(Lit([q]), Cat(Star(Unit(q)), Lit([q])))
  }

  const DOUBLE_QUOTED := QuotedBy('"')
  const SINGLE_QUOTED := QuotedBy('\'')
  const BARE := Star(Chr(NoneOf({'\r', '\n', '#'})))
  const VALUE := Opt(Group(2, Alt(DOUBLE_QUOTED, Alt(SINGLE_QUOTED, BARE))))
  const BLANKS := Star(Chr(Space))
  const COMMENT := Opt(Cat(Lit("#"), Star(Chr(Dot))))
  const TAIL := Cat(BLANKS, Cat(COMMENT, Eol))
  const AFTER_KEY := Cat(BLANKS, Cat(Lit("="), Cat(BLANKS, Cat(VALUE, TAIL))))
  const KEY := Group(1, Plus(NameChar))
  const EXPORT := Opt(Cat(Lit("export"), Plus(Space)))
  const LINE := Cat(Bol, Cat(BLANKS, Cat(EXPORT, Cat(KEY, AFTER_KEY))))

  // Even an empty match of the rest takes a name character and an equals sign.
  lemma LineTakesTwo()
    ensures MinLen(LINE) >= 2
  {
    assert MinLen(Lit("=")) == 1;
    assert MinLen(KEY) == 1;
    assert MinLen(AFTER_KEY) >= 1;
  }

  /* ---------- the reader ---------- */

  predicate Wrapped(s: string, q: char) {
    |s| >= 2 && s[0] == q && s[|s| - 1] == q
  }

  function ValueOf(m2: string): string {
    var val := Trim(m2, IsSpace);
    if Wrapped(val, '"') then V.Decode(val[1..|val| - 1])
    else if Wrapped(val, '\'') then val[1..|val| - 1]
    else val
  }

  // A group that took no part reads as the empty string.
  function Cap(f: Found, n: nat): string {
    if n in f.caps then f.caps[n] else ""
  }

  // Assigning a string to the property __proto__ of a plain object has no effect.
  function Store(out: map<string, string>, key: string, val: string): map<string, string> {
    if key == "__proto__" then out else out[key := val]
  }

  function ReadFrom(src: string, from: nat, out: map<string, string>): map<string, string>
    requires from <= |src|
    decreases |src| - from
  {
    match Search(LINE, src, from)
    case None => out
    case Some(f) =>
      LineTakesTwo();
      ReadFrom(src, f.end, Store(out, Cap(f, 1), ValueOf(Cap(f, 2))))
  }

  lemma ReadStep(s: string, from: nat, f: Found, out: map<string, string>, stop: nat, out': map<string, string>)
    requires from <= |s| && Search(LINE, s, from) == Some(f) && stop == f.end
    requires out' == Store(out, Cap(f, 1), ValueOf(Cap(f, 2)))
    ensures from < stop <= |s| && ReadFrom(s, from, out) == ReadFrom(s, stop, out')
  {
    LineTakesTwo();
  }

  // The value a match stands for, trimmed, unwrapped and decoded pass by pass.
  method ReadValue(m2: string) returns (val: string)
    ensures val == ValueOf(m2)
  {
    val := Trim(m2, IsSpace);
    if Wrapped(val, '"') {
      val := val[1..|val| - 1];
      val := V.ReplaceAll(val, 'n', '\n');
      val := V.ReplaceAll(val, 'r', '\r');
      val := V.ReplaceAll(val, 't', '\t');
      val := V.ReplaceAll(val, '"', '"');
      val := V.ReplaceAll(val, '\\', '\\');
    } else if Wrapped(val, '\'') {
      val := val[1..|val| - 1];
    }
  }

  /** parseDotenv: exec moves lastIndex along until it finds no more. */
  method ParseDotenv(src: string) returns (out: map<string, string>)
    ensures out == ReadFrom(src, 0, map[])
  {
    out := map[];
    ghost var goal := ReadFrom(src, 0, out);
    var lastIndex := 0;
    var m := Search(LINE, src, lastIndex);
    while m.Some?
      invariant lastIndex <= |src| && m == Search(LINE, src, lastIndex)
      invariant ReadFrom(src, lastIndex, out) == goal
      decreases |src| - lastIndex
    {
      var key := Cap(m.value, 1);
      var val := ReadValue(Cap(m.value, 2));
      ReadStep(src, lastIndex, m.value, out, m.value.end, Store(out, key, val));
      lastIndex := m.value.end;
      out := Store(out, key, val);
      m := Search(LINE, src, lastIndex);
    }
  }

  /* ---------- one printed entry ---------- */

  // Text between quotes that the pattern takes to its end: no such quote, no half escape.
  predicate BodyOf(t: string, q: char)
    decreases |t|
  {
    t == [] || (t[0] != q && t[0] != '\\' && BodyOf(t[1..], q)) || (|t| > 1 && t[0] == '\\' && BodyOf(t[2..], q))
  }

  predicate Body(t: string) {
    BodyOf(t, '"')
  }

  predicate BodyAt(s: string, i: nat, n: nat) {
    QuotedBodyAt(s, i, n, '"')
  }

  predicate QuotedBodyAt(s: string, i: nat, n: nat, q: char) {
    i + n < |s| && s[i + n] == q && BodyOf(s[i..i + n], q)
  }

  lemma UnitPlain(q: char, s: string, m: M)
    requires m.pos < |s| && s[m.pos] != q && s[m.pos] != '\\'
    ensures First(Unit(q), s, m, m.(pos := m.pos + 1))
  {
    AltFirst(Chr(NoneOf({q, '\\'})), Cat(Lit("\\"), Chr(Any)), s, m, m.(pos := m.pos + 1));
  }

  lemma UnitEscape(q: char, s: string, m: M)
    requires m.pos + 1 < |s| && s[m.pos] == '\\'
    ensures First(Unit(q), s, m, m.(pos := m.pos + 2))
  {
    var x, y := m.(pos := m.pos + 1), m.(pos := m.pos + 2);
    LitMatches("\\", s, m);
    assert First(Lit("\\"), s, m, x) && First(Chr(Any), s, x, y);
    CatFirst(Lit("\\"), Chr(Any), s, m, x, y);
    assert Fails(Chr(NoneOf({q, '\\'})), s, m);
    AltFirst(Chr(NoneOf({q, '\\'})), Cat(Lit("\\"), Chr(Any)), s, m, y);
  }

  lemma UnitQuote(q: char, s: string, m: M)
    requires m.pos < |s| && s[m.pos] == q && q != '\\'
    ensures Fails(Unit(q), s, m)
  {
    LitMatches("\\", s, m);
    assert Fails(Lit("\\"), s, m);
    CatFails(Lit("\\"), Chr(Any), s, m);
    AltFails(Chr(NoneOf({q, '\\'})), Cat(Lit("\\"), Chr(Any)), s, m);
  }

  // The greedy loop goes to the closing quote.
  lemma {:induction false} BodyFirst(q: char, s: string, m: M, n: nat)
    requires QuotedBodyAt(s, m.pos, n, q) && q != '\\'
    ensures First(Star(Unit(q)), s, m, m.(pos := m.pos + n))
    decreases n
  {
    var i := m.pos;
    var t := s[i..i + n];
    var y := m.(pos := i + n);
    if n == 0 {
      UnitQuote(q, s, m);
      StarStop(Unit(q), s, m);
    } else if t[0] != '\\' {
      assert t[1..] == s[i + 1..i + n];
      var x := m.(pos := i + 1);
      UnitPlain(q, s, m);
      BodyFirst(q, s, x, n - 1);
      StarStep(Unit(q), s, m, x, y);
    } else {
      assert t[2..] == s[i + 2..i + n];
      var x := m.(pos := i + 2);
      UnitEscape(q, s, m);
      BodyFirst(q, s, x, n - 2);
      StarStep(Unit(q), s, m, x, y);
    }
  }

  lemma QuotedFirst(q: char, s: string, m: M, n: nat)
    requires m.pos < |s| && s[m.pos] == q && q != '\\' && QuotedBodyAt(s, m.pos + 1, n, q)
    ensures First(QuotedBy(q), s, m, m.(pos := m.pos + n + 2))
  {
    var x, y, z := m.(pos := m.pos + 1), m.(pos := m.pos + 1 + n), m.(pos := m.pos + n + 2);
    QuoteMarkFirst(q, s, m, x);
    BodyFirst(q, s, x, n);
    QuoteMarkFirst(q, s, y, z);
    Cat3First(Lit([q]), Star(Unit(q)), Lit([q]), s, m, x, y, z);
  }

  lemma QuoteMarkFirst(q: char, s: string, m: M, x: M)
    requires m.pos < |s| && s[m.pos] == q && x == m.(pos := m.pos + 1)
    ensures First(Lit([q]), s, m, x)
  {
    LitMatches([q], s, m);
  }

  lemma NotQuoted(q: char, s: string, m: M)
    requires m.pos < |s| && s[m.pos] != q
    ensures Fails(QuotedBy(q), s, m)
  {
    LitMatches([q], s, m);
    CatFails(Lit([q]), Cat(Star(Unit(q)), Lit([q])), s, m);
  }

  lemma ValueFirst(s: string, m: M, n: nat)
    requires m.pos < |s| && s[m.pos] == '"' && BodyAt(s, m.pos + 1, n)
    ensures var e := m.pos + n + 2; First(VALUE, s, m, M(e, m.caps[2 := s[m.pos..e]]))
  {
    var z := m.(pos := m.pos + n + 2);
    QuotedFirst('"', s, m, n);
    var others := Alt(SINGLE_QUOTED, BARE);
    AltFirst(DOUBLE_QUOTED, others, s, m, z);
    GroupFirst(2, Alt(DOUBLE_QUOTED, others), s, m, z);
    OptFirst(Group(2, Alt(DOUBLE_QUOTED, others)), s, m, M(z.pos, z.caps[2 := s[m.pos..z.pos]]));
  }

  lemma NoComment(s: string, m: M)
    requires m.pos <= |s| && (m.pos < |s| ==> s[m.pos] != '#')
    ensures All(COMMENT, s, m) == [m]
  {
    LitMatches("#", s, m);
    assert Fails(Lit("#"), s, m);
    CatFails(Lit("#"), Star(Chr(Dot)), s, m);
    OptFails(Cat(Lit("#"), Star(Chr(Dot))), s, m);
  }

  // What may follow the closing quote: the end, a last newline, or a newline and another entry.
  predicate TailAt(s: string, i: nat) {
    i == |s| || (i < |s| && s[i] == '\n' && (i + 1 < |s| ==> !IsSpace(s[i + 1]) && s[i + 1] != '#'))
  }

  function TailEnd(s: string, i: nat): nat {
    if i + 1 == |s| then i + 1 else i
  }

  lemma RestAtEnd(s: string, m: M)
    requires m.pos <= |s| && (m.pos < |s| ==> s[m.pos] != '#')
    ensures All(Cat(COMMENT, Eol), s, m) == if AtEol(s, m.pos) then [m] else []
  {
    NoComment(s, m);
    CatOnly(COMMENT, Eol, s, m, m, All(Eol, s, m));
  }

  lemma TailFirst(s: string, m: M)
    requires TailAt(s, m.pos)
    ensures First(TAIL, s, m, m.(pos := TailEnd(s, m.pos)))
  {
    var b := Cat(COMMENT, Eol);
    RestAtEnd(s, m);
    if m.pos == |s| {
      StarFirst(Space, s, m, 0);
      CatFirst(BLANKS, b, s, m, m, m);
    } else {
      var x := m.(pos := m.pos + 1);
      RestAtEnd(s, x);
      if m.pos + 1 == |s| {
        StarFirst(Space, s, m, 1);
        CatFirst(BLANKS, b, s, m, x, x);
      } else {
        TailBacktracks(s, m, x);
      }
    }
  }

  // The newline taken by \s* is given back.
  lemma TailBacktracks(s: string, m: M, x: M)
    requires TailAt(s, m.pos) && m.pos + 1 < |s| && x == m.(pos := m.pos + 1)
    requires Fails(Cat(COMMENT, Eol), s, x) && First(Cat(COMMENT, Eol), s, m, m)
    ensures First(TAIL, s, m, m)
  {
    StarRun(Space, s, m, 1);
    assert Down(x, 0) == [x] && Down(m, 1) == [x, m];
    var b, ys := Cat(COMMENT, Eol), All(Cat(COMMENT, Eol), s, m);
    EachTwo(b, s, x, m, m.pos, ys);
    CatIs(TAIL, s, m, [x, m], m.pos, ys);
  }

  lemma EqualsFirst(s: string, m: M)
    requires m.pos < |s| && s[m.pos] == '='
    ensures First(BLANKS, s, m, m) && First(Lit("="), s, m, m.(pos := m.pos + 1))
  {
    StarFirst(Space, s, m, 0);
    LitMatches("=", s, m);
  }

  lemma AfterKeyOf(s: string, m: M, x: M, y: M, z: M)
    requires First(BLANKS, s, m, m) && First(Lit("="), s, m, x) && First(BLANKS, s, x, x)
    requires First(VALUE, s, x, y) && First(TAIL, s, y, z)
    ensures First(AFTER_KEY, s, m, z)
  {
    Cat5First(BLANKS, Lit("="), BLANKS, VALUE, TAIL, s, m, m, x, x, y, z);
  }

  lemma QuoteFirst(s: string, x: M)
    requires x.pos < |s| && s[x.pos] == '"'
    ensures First(BLANKS, s, x, x)
  {
    StarFirst(Space, s, x, 0);
  }

  lemma AfterKeyFirst(s: string, m: M, n: nat, e: nat, z: M)
    requires m.pos + 1 < |s| && s[m.pos] == '=' && s[m.pos + 1] == '"' && BodyAt(s, m.pos + 2, n)
    requires e == m.pos + n + 3 && TailAt(s, e) && z == M(TailEnd(s, e), m.caps[2 := s[m.pos + 1..e]])
    ensures First(AFTER_KEY, s, m, z)
  {
    var x := m.(pos := m.pos + 1);
    var y := z.(pos := e);
    ValueThenTail(s, x, n, e, y, z);
    AfterKeyVia(s, m, x, y, z);
  }

  lemma AfterKeyVia(s: string, m: M, x: M, y: M, z: M)
    requires m.pos + 1 < |s| && s[m.pos] == '=' && s[m.pos + 1] == '"' && x == m.(pos := m.pos + 1)
    requires First(VALUE, s, x, y) && First(TAIL, s, y, z)
    ensures First(AFTER_KEY, s, m, z)
  {
    EqualsFirst(s, m);
    QuoteFirst(s, x);
    AfterKeyOf(s, m, x, y, z);
  }

  lemma ValueThenTail(s: string, x: M, n: nat, e: nat, y: M, z: M)
    requires x.pos < |s| && s[x.pos] == '"' && BodyAt(s, x.pos + 1, n) && e == x.pos + n + 2 && TailAt(s, e)
    requires y == M(e, x.caps[2 := s[x.pos..e]]) && z == y.(pos := TailEnd(s, e))
    ensures First(VALUE, s, x, y) && First(TAIL, s, y, z)
  {
    ValueFirst(s, x, n);
    TailFirst(s, y);
  }

  // An entry KEY="text" at i, its key k characters and its text n.
  ghost predicate EntryAt(s: string, i: nat, k: nat, n: nat) {
    && k > 0 && i + k + 1 < |s| && S.KeyStart(s[i])
    && (forall j | i <= j < i + k :: S.KeyChar(s[j]))
    && s[i + k] == '=' && s[i + k + 1] == '"' && BodyAt(s, i + k + 2, n)
    && TailAt(s, i + k + n + 3)
  }

  lemma NoExport(s: string, m: M)
    requires m.pos < |s| && S.KeyStart(s[m.pos])
    ensures First(EXPORT, s, m, m)
  {
    LitMatches("export", s, m);
    assert Fails(Lit("export"), s, m);
    CatFails(Lit("export"), Plus(Space), s, m);
    OptFirst(Cat(Lit("export"), Plus(Space)), s, m, m);
  }

  // The groups an entry leaves.
  function Caps(s: string, i: nat, k: nat, n: nat): map<nat, string>
    requires i + k + n + 3 <= |s|
  {
    map[1 := s[i..i + k]][2 := s[i + k + 1..i + k + n + 3]]
  }

  lemma KeyRuns(s: string, i: nat, k: nat)
    requires k > 0 && i + k < |s| && s[i + k] == '=' && forall j | i <= j < i + k :: S.KeyChar(s[j])
    ensures Run(NameChar, s, i, k) && !IsSpace(s[i])
  {}

  lemma BlanksBeforeKey(s: string, m: M)
    requires m.pos < |s| && S.KeyStart(s[m.pos])
    ensures First(BLANKS, s, m, m)
  {
    StarFirst(Space, s, m, 0);
  }

  lemma HeadFirst(s: string, m: M, k: nat)
    requires k > 0 && m.pos + k < |s| && S.KeyStart(s[m.pos]) && Run(NameChar, s, m.pos, k)
    ensures First(BLANKS, s, m, m) && First(EXPORT, s, m, m)
    ensures First(KEY, s, m, M(m.pos + k, m.caps[1 := s[m.pos..m.pos + k]]))
  {
    BlanksBeforeKey(s, m);
    NoExport(s, m);
    KeyFirst(s, m, k);
  }

  lemma LineWithHead(s: string, m: M, k: nat, x: M, z: M)
    requires k > 0 && m.pos + k < |s| && S.KeyStart(s[m.pos]) && Run(NameChar, s, m.pos, k) && AtBol(s, m.pos)
    requires x == M(m.pos + k, m.caps[1 := s[m.pos..m.pos + k]]) && First(AFTER_KEY, s, x, z)
    ensures First(LINE, s, m, z)
  {
    HeadFirst(s, m, k);
    LineOf(s, m, x, z);
  }

  lemma LineFirst(s: string, i: nat, k: nat, n: nat)
    requires EntryAt(s, i, k, n) && AtBol(s, i)
    ensures First(LINE, s, M(i, map[]), M(TailEnd(s, i + k + n + 3), Caps(s, i, k, n)))
  {
    var m := M(i, map[]);
    var x := M(i + k, m.caps[1 := s[i..i + k]]);
    var z := M(TailEnd(s, i + k + n + 3), Caps(s, i, k, n));
    KeyRuns(s, i, k);
    AfterKeyFirst(s, x, n, i + k + n + 3, z);
    LineWithHead(s, m, k, x, z);
  }

  lemma LineOf(s: string, m: M, x: M, z: M)
    requires m.pos <= |s| && AtBol(s, m.pos) && First(BLANKS, s, m, m) && First(EXPORT, s, m, m)
    requires First(KEY, s, m, x) && First(AFTER_KEY, s, x, z)
    ensures First(LINE, s, m, z)
  {
    LineWide(s, m, m, m, x, z);
  }

  lemma KeyFirst(s: string, m: M, k: nat)
    requires k > 0 && Run(NameChar, s, m.pos, k)
    ensures First(KEY, s, m, M(m.pos + k, m.caps[1 := s[m.pos..m.pos + k]]))
  {
    PlusFirst(NameChar, s, m, k);
    GroupFirst(1, Plus(NameChar), s, m, m.(pos := m.pos + k));
  }

  lemma NotAtBol(s: string, i: nat)
    requires i <= |s| && !AtBol(s, i)
    ensures Fails(LINE, s, M(i, map[]))
  {
    CatFails(Bol, Cat(BLANKS, Cat(EXPORT, Cat(KEY, AFTER_KEY))), s, M(i, map[]));
  }

  lemma NoKeyAtEnd(s: string, m: M)
    requires m.pos == |s|
    ensures Fails(KEY, s, m)
  {
    CatFails(Chr(NameChar), Star(Chr(NameChar)), s, m);
  }

  lemma NoExportAtEnd(s: string, m: M)
    requires m.pos == |s|
    ensures All(EXPORT, s, m) == [m]
  {
    LitMatches("export", s, m);
    CatFails(Lit("export"), Plus(Space), s, m);
    OptFails(Cat(Lit("export"), Plus(Space)), s, m);
  }

  lemma NoEntryAtEnd(s: string, m: M)
    requires m.pos == |s|
    ensures Fails(Cat(EXPORT, Cat(KEY, AFTER_KEY)), s, m)
  {
    NoKeyAtEnd(s, m);
    CatFails(KEY, AFTER_KEY, s, m);
    NoExportAtEnd(s, m);
    SkipFails(EXPORT, Cat(KEY, AFTER_KEY), s, m);
  }

  lemma NoBlanksAtEnd(s: string, m: M)
    requires m.pos == |s|
    ensures All(BLANKS, s, m) == [m]
  {
    StarRun(Space, s, m, 0);
  }

  // Nothing is left.
  lemma NothingAtEnd(s: string)
    ensures Fails(LINE, s, M(|s|, map[]))
  {
    var m := M(|s|, map[]);
    var entry := Cat(EXPORT, Cat(KEY, AFTER_KEY));
    if AtBol(s, |s|) {
      NoEntryAtEnd(s, m);
      NoBlanksAtEnd(s, m);
      SkipFails(BLANKS, entry, s, m);
      SkipFails(Bol, Cat(BLANKS, entry), s, m);
    } else {
      NotAtBol(s, |s|);
    }
  }

  /* ---------- whole files ---------- */

  ghost predicate AllBodies(es: seq<S.Entry>) {
    forall e | e in es :: S.IsKey(e.key) && Body(e.value)
  }

  function Decoded(es: seq<S.Entry>): seq<S.Entry> {
    if es == [] then [] else [S.Entry(es[0].key, V.Decode(es[0].value))] + Decoded(es[1..])
  }

  // What is printed after the first entry.
  function After(es: seq<S.Entry>, tail: string): string
    requires es != []
  {
    if |es| == 1 then tail else "\n" + S.Render(es[1..], tail)
  }

  lemma RenderHead(es: seq<S.Entry>, tail: string)
    requires es != []
    ensures S.Render(es, tail) == S.PrintEntry(es[0]) + After(es, tail)
  {}

  // What may come after an entry: nothing, a last newline, or a newline and the next entry.
  predicate Follows(rest: string, next: string) {
    rest == "" || rest == "\n" || (rest == "\n" + next && next != "" && S.KeyStart(next[0]))
  }

  lemma AfterFollows(es: seq<S.Entry>, tail: string)
    requires es != [] && AllBodies(es) && (tail == "" || tail == "\n")
    ensures Follows(After(es, tail), S.Render(es[1..], tail))
  {
    if |es| > 1 {
      RenderHead(es[1..], tail);
      assert es[1..][0] in es;
    }
  }

  lemma FollowsIsTail(s: string, i: nat, rest: string, next: string)
    requires i <= |s| && s[i..] == rest && Follows(rest, next)
    ensures TailAt(s, i)
    ensures rest == "" || rest == "\n" ==> TailEnd(s, i) == |s|
    ensures |rest| > 1 ==> TailEnd(s, i) == i && i + 1 < |s| && s[i] == '\n' && s[i + 1..] == next
  {
    if rest != "" {
      assert s[i..][0] == '\n';
      if |rest| > 1 {
        assert s[i..][1..] == next && s[i..][1] == next[0];
      }
    }
  }

  lemma EntryText(t: string, e: S.Entry, rest: string)
    requires t == S.PrintEntry(e) + rest
    ensures var k, n := |e.key|, |e.value|;
      && |t| == k + n + 3 + |rest| && t[..k] == e.key && t[k] == '=' && t[k + 1] == '"'
      && t[k + 2..k + 2 + n] == e.value && t[k + 2 + n] == '"' && t[k + n + 3..] == rest
  {
    assert t == e.key + ("=\"" + (e.value + ("\"" + rest)));
  }

  lemma SliceOf(s: string, i: nat, t: string, k: nat, n: nat)
    requires i <= |s| && t == s[i..] && k + n + 3 <= |t|
    ensures i + k + n + 3 <= |s| && s[i..i + k] == t[..k] && s[i + k] == t[k] && s[i + k + 1] == t[k + 1]
    ensures s[i + k + 2..i + k + 2 + n] == t[k + 2..k + 2 + n] && s[i + k + 2 + n] == t[k + 2 + n]
    ensures s[i + k + n + 3..] == t[k + n + 3..]
  {}

  lemma EntryIsAt(s: string, i: nat, e: S.Entry, t: string, rest: string)
    requires S.IsKey(e.key) && Body(e.value) && i <= |s| && s[i..] == t && t == S.PrintEntry(e) + rest
    requires TailAt(s, i + |e.key| + |e.value| + 3)
    ensures EntryAt(s, i, |e.key|, |e.value|)
  {
    var k, n := |e.key|, |e.value|;
    EntryText(t, e, rest);
    SliceOf(s, i, t, k, n);
    FieldsMakeEntry(s, i, e.key, e.value, i + k, i + k + 2 + n);
  }

  lemma FieldsMakeEntry(s: string, i: nat, key: string, v: string, q: nat, end: nat)
    requires S.IsKey(key) && Body(v) && q == i + |key| && end == q + 2 + |v| < |s|
    requires s[i..q] == key && s[q] == '=' && s[q + 1] == '"' && s[q + 2..end] == v && s[end] == '"' && TailAt(s, end + 1)
    ensures EntryAt(s, i, |key|, |v|)
  {
    KeyIsAt(s, i, key, q);
    BodyIsAt(s, q + 2, v, end);
  }

  lemma BodyIsAt(s: string, b: nat, v: string, end: nat)
    requires Body(v) && end == b + |v| < |s| && s[b..end] == v && s[end] == '"'
    ensures BodyAt(s, b, |v|)
  {}

  lemma KeyIsAt(s: string, i: nat, key: string, end: nat)
    requires S.IsKey(key) && end == i + |key| <= |s| && s[i..end] == key
    ensures S.KeyStart(s[i]) && forall j | i <= j < end :: S.KeyChar(s[j])
  {
    forall j | i <= j < end ensures S.KeyChar(s[j]) {
      assert s[i..end][j - i] == s[j] && key[j - i] in key;
    }
    assert s[i..end][0] == s[i];
  }

  lemma QuotedIsAt(s: string, i: nat, v: string, end: nat)
    requires end == i + |v| + 2 <= |s| && s[i] == '"' && s[i + 1..end - 1] == v && s[end - 1] == '"'
    ensures s[i..end] == "\"" + v + "\""
  {}

  lemma QuotedValue(t: string)
    ensures ValueOf("\"" + t + "\"") == V.Decode(t)
  {
    var q := "\"" + t + "\"";
    assert q[0] == '"' && q[|q| - 1] == '"' && q[1..|q| - 1] == t;
  }

  lemma NotProto(key: string)
    requires S.IsKey(key)
    ensures key != "__proto__"
  {
    assert "__proto__"[2] in "__proto__" && !S.KeyChar("__proto__"[2]);
  }

  lemma SearchEntry(s: string, from: nat, i: nat, k: nat, n: nat)
    requires from <= i && EntryAt(s, i, k, n) && AtBol(s, i)
    requires forall j | from <= j < i :: !AtBol(s, j)
    ensures Search(LINE, s, from) == Some(Found(i, TailEnd(s, i + k + n + 3), Caps(s, i, k, n)))
  {
    LineFirst(s, i, k, n);
    forall j | from <= j < i ensures Fails(LINE, s, M(j, map[])) {
      NotAtBol(s, j);
    }
    SearchFinds(LINE, s, from, i, M(TailEnd(s, i + k + n + 3), Caps(s, i, k, n)));
  }

  // The search from `from` comes to the entry at i, and the reader goes on where it stops.
  lemma ReadEntry(s: string, from: nat, i: nat, e: S.Entry, rest: string, out: map<string, string>, stop: nat)
    requires from <= i <= |s| && S.IsKey(e.key) && Body(e.value) && AtBol(s, i)
    requires s[i..] == S.PrintEntry(e) + rest && TailAt(s, i + |e.key| + |e.value| + 3)
    requires stop == TailEnd(s, i + |e.key| + |e.value| + 3)
    requires forall j | from <= j < i :: !AtBol(s, j)
    ensures from < stop <= |s| && ReadFrom(s, from, out) == ReadFrom(s, stop, out[e.key := V.Decode(e.value)])
  {
    var f := Found(i, stop, Caps(s, i, |e.key|, |e.value|));
    EntryIsAt(s, i, e, s[i..], rest);
    FindsEntry(s, from, i, |e.key|, |e.value|, stop);
    EntryCaps(s, i, e, s[i..], rest, f, out);
    ReadStep(s, from, f, out, stop, out[e.key := V.Decode(e.value)]);
  }

  lemma FindsEntry(s: string, from: nat, i: nat, k: nat, n: nat, stop: nat)
    requires from <= i && EntryAt(s, i, k, n) && AtBol(s, i) && stop == TailEnd(s, i + k + n + 3)
    requires forall j | from <= j < i :: !AtBol(s, j)
    ensures from <= |s| && Search(LINE, s, from) == Some(Found(i, stop, Caps(s, i, k, n)))
  {
    SearchEntry(s, from, i, k, n);
  }

  lemma EntryCaps(s: string, i: nat, e: S.Entry, t: string, rest: string, f: Found, out: map<string, string>)
    requires S.IsKey(e.key) && i <= |s| && s[i..] == t && t == S.PrintEntry(e) + rest
    requires i + |e.key| + |e.value| + 3 <= |s| && f.caps == Caps(s, i, |e.key|, |e.value|)
    ensures Store(out, Cap(f, 1), ValueOf(Cap(f, 2))) == out[e.key := V.Decode(e.value)]
  {
    var k, n := |e.key|, |e.value|;
    EntryText(t, e, rest);
    SliceOf(s, i, t, k, n);
    QuotedIsAt(s, i + k + 1, e.value, i + k + n + 3);
    assert Cap(f, 1) == e.key && Cap(f, 2) == "\"" + e.value + "\"";
    QuotedValue(e.value);
    NotProto(e.key);
  }

  lemma NothingLeft(s: string, from: nat, out: map<string, string>)
    requires from <= |s| && forall j | from <= j < |s| :: !AtBol(s, j)
    ensures ReadFrom(s, from, out) == out
  {
    forall j | from <= j <= |s| ensures Fails(LINE, s, M(j, map[])) {
      if j < |s| {
        NotAtBol(s, j);
      } else {
        NothingAtEnd(s);
      }
    }
    SearchMisses(LINE, s, from);
  }

  lemma EntryEnds(s: string, i: nat, e: S.Entry, rest: string)
    requires i <= |s| && s[i..] == S.PrintEntry(e) + rest
    ensures var end := i + |e.key| + |e.value| + 3; end <= |s| && s[end..] == rest && s[end - 1] == '"'
  {
    EntryText(s[i..], e, rest);
    SliceOf(s, i, s[i..], |e.key|, |e.value|);
  }

  // The last entry is read.
  lemma ReadLast(s: string, from: nat, i: nat, e: S.Entry, rest: string, out: map<string, string>)
    requires S.IsKey(e.key) && Body(e.value) && (rest == "" || rest == "\n")
    requires from <= i <= |s| && s[i..] == S.PrintEntry(e) + rest && AtBol(s, i)
    requires forall j | from <= j < i :: !AtBol(s, j)
    ensures ReadFrom(s, from, out) == out[e.key := V.Decode(e.value)]
  {
    EntryEnds(s, i, e, rest);
    FollowsIsTail(s, i + |e.key| + |e.value| + 3, rest, "");
    ReadEntry(s, from, i, e, rest, out, |s|);
    NothingLeft(s, |s|, out[e.key := V.Decode(e.value)]);
  }

  lemma HeadEnds(s: string, i: nat, e: S.Entry, rest: string, next: string, end: nat)
    requires Follows(rest, next) && |rest| > 1 && i <= |s| && s[i..] == S.PrintEntry(e) + rest
    requires end == i + |e.key| + |e.value| + 3
    ensures end + 1 <= |s| && AtBol(s, end + 1) && !AtBol(s, end) && s[end + 1..] == next
    ensures TailAt(s, end) && TailEnd(s, end) == end
  {
    EntryEnds(s, i, e, rest);
    FollowsIsTail(s, end, rest, next);
  }

  lemma FirstEntry(es: seq<S.Entry>, tail: string)
    requires es != [] && AllBodies(es) && (tail == "" || tail == "\n")
    ensures S.Render(es, tail) == S.PrintEntry(es[0]) + After(es, tail)
    ensures Follows(After(es, tail), S.Render(es[1..], tail)) && (|es| > 1 <==> |After(es, tail)| > 1)
    ensures S.IsKey(es[0].key) && Body(es[0].value) && AllBodies(es[1..])
  {
    RenderHead(es, tail);
    AfterFollows(es, tail);
    if |es| > 1 {
      RenderHead(es[1..], tail);
    }
  }

  // The entries still to read start at i; no line starts between the search's start and i.
  ghost predicate Ahead(s: string, from: nat, i: nat, es: seq<S.Entry>, tail: string) {
    && AllBodies(es) && (tail == "" || tail == "\n")
    && from <= i <= |s| && s[i..] == S.Render(es, tail) && (es != [] ==> AtBol(s, i))
    && (forall j | from <= j < i :: !AtBol(s, j))
  }

  lemma NextAhead(s: string, end: nat, es: seq<S.Entry>, tail: string, next: string)
    requires AllBodies(es) && (tail == "" || tail == "\n") && |es| > 1
    requires end + 1 <= |s| && AtBol(s, end + 1) && !AtBol(s, end)
    requires s[end + 1..] == next && next == S.Render(es[1..], tail)
    ensures Ahead(s, end, end + 1, es[1..], tail)
  {}

  lemma ReadNothing(s: string, from: nat, i: nat, tail: string, out: map<string, string>)
    requires Ahead(s, from, i, [], tail)
    ensures ReadFrom(s, from, out) == out
  {
    assert s[i..] == "";
    NothingLeft(s, from, out);
  }

  lemma ReadOnly(s: string, from: nat, i: nat, es: seq<S.Entry>, tail: string, out: map<string, string>)
    requires |es| == 1 && Ahead(s, from, i, es, tail)
    ensures ReadFrom(s, from, out) == S.LastWins(Decoded(es), out)
  {
    DecodedHead(es, out);
    assert Decoded(es[1..]) == [];
    FirstEntry(es, tail);
    ReadLast(s, from, i, es[0], After(es, tail), out);
  }

  lemma ReadNext(s: string, from: nat, i: nat, es: seq<S.Entry>, tail: string, out: map<string, string>, end: nat)
    requires |es| > 1 && Ahead(s, from, i, es, tail) && end == i + |es[0].key| + |es[0].value| + 3
    ensures ReadFrom(s, from, out) == ReadFrom(s, end, out[es[0].key := V.Decode(es[0].value)])
    ensures Ahead(s, end, end + 1, es[1..], tail)
  {
    var e, rest, next := es[0], After(es, tail), S.Render(es[1..], tail);
    FirstEntry(es, tail);
    HeadEnds(s, i, e, rest, next, end);
    ReadEntry(s, from, i, e, rest, out, end);
    NextAhead(s, end, es, tail, next);
  }

  lemma {:induction false} ReadRendered(s: string, from: nat, i: nat, es: seq<S.Entry>, tail: string,
                                        out: map<string, string>)
    requires Ahead(s, from, i, es, tail)
    ensures ReadFrom(s, from, out) == S.LastWins(Decoded(es), out)
    decreases |es|
  {
    if es == [] {
      ReadNothing(s, from, i, tail, out);
    } else if |es| == 1 {
      ReadOnly(s, from, i, es, tail, out);
    } else {
      var end := i + |es[0].key| + |es[0].value| + 3;
      ReadNext(s, from, i, es, tail, out, end);
      ReadRendered(s, end, end + 1, es[1..], tail, out[es[0].key := V.Decode(es[0].value)]);
      DecodedHead(es, out);
    }
  }

  lemma DecodedHead(es: seq<S.Entry>, out: map<string, string>)
    requires es != []
    ensures S.LastWins(Decoded(es), out) == S.LastWins(Decoded(es[1..]), out[es[0].key := V.Decode(es[0].value)])
  {
    assert Decoded(es)[1..] == Decoded(es[1..]);
  }

  /** Any KEY="text" file whose texts hold no bare quote and no half escape: the reader takes each
      entry, decodes its text, and the last of equal keys wins. */
  lemma ReadsEveryEntry(es: seq<S.Entry>, tail: string)
    requires AllBodies(es) && (tail == "" || tail == "\n")
    ensures ReadFrom(S.Render(es, tail), 0, map[]) == S.LastWins(Decoded(es), map[])
  {
    var s := S.Render(es, tail);
    assert s[0..] == s;
    ReadRendered(s, 0, 0, es, tail, map[]);
  }

  /* ---------- escaped values ---------- */

  function Encoded(es: seq<S.Entry>): seq<S.Entry> {
    if es == [] then [] else [S.Entry(es[0].key, V.Encode(es[0].value))] + Encoded(es[1..])
  }

  lemma {:induction false} EncodeIsBody(v: string)
    ensures Body(V.Encode(v))
  {
    if v != [] {
      EncodeIsBody(v[1..]);
      var rest := V.Encode(v[1..]);
      if V.Special(v[0]) || v[0] == '\\' {
        assert (['\\', V.Letter(v[0])] + rest)[2..] == rest;
      } else {
        assert ([v[0]] + rest)[1..] == rest;
      }
    }
  }

  lemma {:induction false} EncodedIsDecoded(es: seq<S.Entry>)
    requires forall e | e in es :: S.IsKey(e.key) && !V.LooksEscaped(e.value)
    ensures AllBodies(Encoded(es)) && Decoded(Encoded(es)) == es
  {
    if es != [] {
      EncodedIsDecoded(es[1..]);
      EncodeIsBody(es[0].value);
      V.RoundTripExactlyWhen(es[0].value);
      assert Encoded(es)[1..] == Encoded(es[1..]);
      assert es == [es[0]] + es[1..];
    }
  }

  /** A file of escaped values reads back to the values, whatever they hold, unless a backslash in
      one of them stands right before an n, r or t. */
  lemma EscapedFileReadsBack(es: seq<S.Entry>, tail: string)
    requires forall e | e in es :: S.IsKey(e.key) && !V.LooksEscaped(e.value)
    requires tail == "" || tail == "\n"
    ensures ReadFrom(S.Render(Encoded(es), tail), 0, map[]) == S.LastWins(es, map[])
  {
    EncodedIsDecoded(es);
    ReadsEveryEntry(Encoded(es), tail);
  }

  /** One escaped entry reads back exactly when its value has no such backslash. */
  lemma EscapedEntryReadsBackExactlyWhen(e: S.Entry, tail: string)
    requires S.IsKey(e.key) && (tail == "" || tail == "\n")
    ensures ReadFrom(S.Render(Encoded([e]), tail), 0, map[]) == map[e.key := e.value] <==> !V.LooksEscaped(e.value)
  {
    var es := Encoded([e]);
    assert [e][1..] == [] && Encoded([]) == [];
    assert es == [S.Entry(e.key, V.Encode(e.value))];
    EncodeIsBody(e.value);
    ReadsEveryEntry(es, tail);
    assert Decoded(es) == [S.Entry(e.key, V.Decode(V.Encode(e.value)))] by {
      assert es[1..] == [];
    }
    assert S.LastWins(Decoded(es), map[]) == map[e.key := V.Decode(V.Encode(e.value))] by {
      assert Decoded(es)[1..] == [];
    }
    V.RoundTripExactlyWhen(e.value);
    assert map[e.key := V.Decode(V.Encode(e.value))][e.key] == V.Decode(V.Encode(e.value));
  }

  /* ---------- values in other forms ---------- */

  predicate AllSpace(t: string) {
    forall c | c in t :: IsSpace(c)
  }

  // Text without quotes around it that the pattern takes to the end of its line.
  predicate BareText(t: string) {
    t != "" && !IsSpace(t[0]) && t[0] != '"' && t[0] != '\'' && forall c | c in t :: c != '\r' && c != '\n' && c != '#'
  }

  // A file of one entry: the key up to k, blanks up to p, the value up to e, and a last newline.
  ghost predicate OneEntry(s: string, key: string, raw: string, k: nat, p: nat, e: nat) {
    && S.IsKey(key) && raw != "" && !IsSpace(raw[0])
    && k < p < e <= |s| && s[..k] == key && s[k] == '=' && s[p..e] == raw
    && (forall j | k < j < p :: IsSpace(s[j])) && (e < |s| ==> e + 1 == |s| && s[e] == '\n')
  }

  lemma EntryOfParts(key: string, gap: string, raw: string, tail: string, s: string)
    requires S.IsKey(key) && raw != "" && !IsSpace(raw[0]) && AllSpace(gap) && (tail == "" || tail == "\n")
    requires s == key + "=" + gap + raw + tail
    ensures var k := |key|; var p := k + 1 + |gap|; OneEntry(s, key, raw, k, p, p + |raw|)
  {
    var k := |key|;
    var p := k + 1 + |gap|;
    assert s[k + 1..p] == gap;
    forall j | k < j < p ensures IsSpace(s[j]) {
      assert s[j] == s[k + 1..p][j - k - 1] && gap[j - k - 1] in gap;
    }
  }

  lemma ValueThenEnd(s: string, key: string, raw: string, k: nat, p: nat, e: nat, x: M, y: M)
    requires OneEntry(s, key, raw, k, p, e) && x.pos == k && y.pos == e
    requires First(VALUE, s, x.(pos := p), y)
    ensures First(AFTER_KEY, s, x, y.(pos := |s|))
  {
    var b := x.(pos := k + 1);
    EqualsFirst(s, x);
    assert s[p] == s[p..e][0];
    StarFirst(Space, s, b, p - (k + 1));
    TailFirst(s, y);
    AfterKeyWide(s, x, x, b, x.(pos := p), y, y.(pos := |s|));
  }

  lemma KeyOfEntry(s: string, key: string, raw: string, k: nat, p: nat, e: nat)
    requires OneEntry(s, key, raw, k, p, e)
    ensures k > 0 && S.KeyStart(s[0]) && Run(NameChar, s, 0, k)
  {
    assert s[0..k] == s[..k];
    KeyIsAt(s, 0, key, k);
    KeyRuns(s, 0, k);
  }

  lemma OneEntryIsRead(s: string, key: string, raw: string, k: nat, p: nat, e: nat)
    requires OneEntry(s, key, raw, k, p, e)
    requires First(VALUE, s, M(p, map[1 := key]), M(e, map[1 := key, 2 := raw]))
    ensures ReadFrom(s, 0, map[]) == map[key := ValueOf(raw)]
  {
    var m, x, z := M(0, map[]), M(k, map[1 := key]), M(|s|, map[1 := key, 2 := raw]);
    KeyOfEntry(s, key, raw, k, p, e);
    ValueThenEnd(s, key, raw, k, p, e, x, M(e, map[1 := key, 2 := raw]));
    assert x == M(m.pos + k, m.caps[1 := s[m.pos..m.pos + k]]);
    LineWithHead(s, m, k, x, z);
    FirstIsFound(s, key, raw, z);
  }

  lemma OneFound(s: string, key: string, raw: string, f: Found)
    requires S.IsKey(key) && f == Found(0, |s|, map[1 := key, 2 := raw]) && Search(LINE, s, 0) == Some(f)
    ensures ReadFrom(s, 0, map[]) == map[key := ValueOf(raw)]
  {
    NotProto(key);
    ReadStep(s, 0, f, map[], |s|, map[key := ValueOf(raw)]);
    NothingLeft(s, |s|, map[key := ValueOf(raw)]);
  }

  lemma LineVia(s: string, key: string, raw: string, a: M, b: M, x: M, z: M)
    requires S.IsKey(key) && First(BLANKS, s, M(0, map[]), a) && First(EXPORT, s, a, b)
    requires First(KEY, s, b, x) && First(AFTER_KEY, s, x, z) && z == M(|s|, map[1 := key, 2 := raw])
    ensures ReadFrom(s, 0, map[]) == map[key := ValueOf(raw)]
  {
    LineWide(s, M(0, map[]), a, b, x, z);
    FirstIsFound(s, key, raw, z);
  }

  lemma LineWide(s: string, m: M, a: M, b: M, x: M, z: M)
    requires m.pos <= |s| && AtBol(s, m.pos) && First(BLANKS, s, m, a) && First(EXPORT, s, a, b)
    requires First(KEY, s, b, x) && First(AFTER_KEY, s, x, z)
    ensures First(LINE, s, m, z)
  {
    Cat5First(Bol, BLANKS, EXPORT, KEY, AFTER_KEY, s, m, m, a, b, x, z);
  }

  lemma FirstIsFound(s: string, key: string, raw: string, z: M)
    requires S.IsKey(key) && First(LINE, s, M(0, map[]), z) && z == M(|s|, map[1 := key, 2 := raw])
    ensures ReadFrom(s, 0, map[]) == map[key := ValueOf(raw)]
  {
    SearchFinds(LINE, s, 0, 0, z);
    OneFound(s, key, raw, Found(0, |s|, map[1 := key, 2 := raw]));
  }

  lemma ExportFirst(s: string, m: M, n: nat)
    requires n > 0 && Occurs("export", s, m.pos) && Run(Space, s, m.pos + 6, n)
    ensures First(EXPORT, s, m, m.(pos := m.pos + 6 + n))
  {
    var x := m.(pos := m.pos + 6);
    LitMatches("export", s, m);
    PlusFirst(Space, s, x, n);
    CatFirst(Lit("export"), Plus(Space), s, m, x, x.(pos := x.pos + n));
    OptFirst(Cat(Lit("export"), Plus(Space)), s, m, x.(pos := x.pos + n));
  }

  // Blanks and a comment to the end of the text.
  lemma CommentFirst(s: string, m: M, n: nat)
    requires m.pos + n < |s| && Run(Space, s, m.pos, n) && s[m.pos + n] == '#'
    requires forall j | m.pos + n < j < |s| :: !S.LineTerminator(s[j])
    ensures First(TAIL, s, m, m.(pos := |s|))
  {
    var x, z := m.(pos := m.pos + n), m.(pos := |s|);
    var y := m.(pos := m.pos + n + 1);
    StarFirst(Space, s, m, n);
    LitMatches("#", s, x);
    StarFirst(Dot, s, y, |s| - y.pos);
    CatFirst(Lit("#"), Star(Chr(Dot)), s, x, y, z);
    OptFirst(Cat(Lit("#"), Star(Chr(Dot))), s, x, z);
    CatFirst(COMMENT, Eol, s, x, z, z);
    CatFirst(BLANKS, Cat(COMMENT, Eol), s, m, x, z);
  }

  // A line with everything the pattern allows: blanks, `export`, blanks up to b, the key up to k,
  // blanks, the equals sign at q, blanks, the value from p up to e, blanks, and a comment from c on.
  ghost predicate FullLine(s: string, key: string, raw: string, a: nat, b: nat, k: nat, q: nat, p: nat, e: nat, c: nat) {
    && S.IsKey(key) && raw != "" && !IsSpace(raw[0])
    && a + 6 < b < k <= q < p < e <= c < |s|
    && Run(Space, s, 0, a) && s[a..a + 6] == "export" && Run(Space, s, a + 6, b - (a + 6))
    && s[b..k] == key && Run(Space, s, k, q - k) && s[q] == '=' && Run(Space, s, q + 1, p - (q + 1))
    && s[p..e] == raw && Run(Space, s, e, c - e) && s[c] == '#'
    && forall j | c < j < |s| :: !S.LineTerminator(s[j])
  }

  lemma FullHead(s: string, key: string, raw: string, a: nat, b: nat, k: nat, q: nat, p: nat, e: nat, c: nat)
    requires FullLine(s, key, raw, a, b, k, q, p, e, c)
    ensures First(BLANKS, s, M(0, map[]), M(a, map[])) && First(EXPORT, s, M(a, map[]), M(b, map[]))
    ensures First(KEY, s, M(b, map[]), M(k, map[1 := key]))
  {
    StarFirst(Space, s, M(0, map[]), a);
    ExportFirst(s, M(a, map[]), b - (a + 6));
    FullKey(s, key, b, k, M(b, map[]), M(k, map[1 := key]));
  }

  lemma FullKey(s: string, key: string, b: nat, k: nat, m: M, x: M)
    requires S.IsKey(key) && b < k < |s| && s[b..k] == key && !IsNameChar(s[k])
    requires m == M(b, map[]) && x == M(k, map[1 := key])
    ensures First(KEY, s, m, x)
  {
    KeyIsAt(s, b, key, k);
    KeyFirst(s, m, k - b);
    assert m.caps[1 := s[b..k]] == map[1 := key];
  }

  lemma FullTail(s: string, q: nat, p: nat, c: nat, x: M, y: M)
    requires x.pos <= q < p <= y.pos <= c < |s| && Run(Space, s, x.pos, q - x.pos) && s[q] == '='
    requires Run(Space, s, q + 1, p - (q + 1)) && First(VALUE, s, x.(pos := p), y)
    requires Run(Space, s, y.pos, c - y.pos) && s[c] == '#' && forall j | c < j < |s| :: !S.LineTerminator(s[j])
    ensures First(AFTER_KEY, s, x, y.(pos := |s|))
  {
    BlanksAround(s, q, p, x);
    CommentFirst(s, y, c - y.pos);
    AfterKeyWide(s, x, x.(pos := q), x.(pos := q + 1), x.(pos := p), y, y.(pos := |s|));
  }

  lemma BlanksAround(s: string, q: nat, p: nat, x: M)
    requires x.pos <= q < p < |s| && Run(Space, s, x.pos, q - x.pos) && s[q] == '=' && Run(Space, s, q + 1, p - (q + 1))
    ensures First(BLANKS, s, x, x.(pos := q)) && First(Lit("="), s, x.(pos := q), x.(pos := q + 1))
    ensures First(BLANKS, s, x.(pos := q + 1), x.(pos := p))
  {
    StarFirst(Space, s, x, q - x.pos);
    LitMatches("=", s, x.(pos := q));
    StarFirst(Space, s, x.(pos := q + 1), p - (q + 1));
  }

  lemma AfterKeyWide(s: string, m: M, n: M, x: M, w: M, y: M, z: M)
    requires First(BLANKS, s, m, n) && First(Lit("="), s, n, x) && First(BLANKS, s, x, w)
    requires First(VALUE, s, w, y) && First(TAIL, s, y, z)
    ensures First(AFTER_KEY, s, m, z)
  {
    Cat5First(BLANKS, Lit("="), BLANKS, VALUE, TAIL, s, m, n, x, w, y, z);
  }

  /** Indentation, `export`, blanks around the equals sign and a comment leave no trace in the value. */
  lemma FullLineIsRead(s: string, key: string, t: string, a: nat, b: nat, k: nat, q: nat, p: nat, e: nat, c: nat)
    requires FullLine(s, key, "\"" + t + "\"", a, b, k, q, p, e, c) && Body(t)
    ensures ReadFrom(s, 0, map[]) == map[key := V.Decode(t)]
  {
    var raw := "\"" + t + "\"";
    var w, y := M(p, map[1 := key]), M(e, map[1 := key, 2 := raw]);
    FullHead(s, key, raw, a, b, k, q, p, e, c);
    DoubleFirst(s, w, e, t);
    FullTail(s, q, p, c, M(k, map[1 := key]), y);
    LineVia(s, key, raw, M(a, map[]), M(b, map[]), M(k, map[1 := key]), y.(pos := |s|));
    QuotedValue(t);
  }

  // The text between the quotes.
  lemma Inside(s: string, i: nat, e: nat, q: char, t: string)
    requires i < e <= |s| && s[i..e] == [q] + t + [q]
    ensures e == i + |t| + 2 && s[i] == q && s[i + 1 + |t|] == q && s[i + 1..i + 1 + |t|] == t
  {
    var raw := s[i..e];
    assert raw[0] == q && raw[|t| + 1] == q;
    forall j | 0 <= j < |t| ensures s[i + 1 + j] == t[j] {
      assert raw[1 + j] == t[j];
    }
  }

  lemma DoubleFirst(s: string, m: M, e: nat, t: string)
    requires Body(t) && m.pos < e <= |s| && s[m.pos..e] == "\"" + t + "\""
    ensures First(VALUE, s, m, M(e, m.caps[2 := s[m.pos..e]]))
  {
    Inside(s, m.pos, e, '"', t);
    ValueFirst(s, m, |t|);
  }

  lemma BareFirst(s: string, m: M, e: nat, t: string)
    requires BareText(t) && m.pos < e <= |s| && s[m.pos..e] == t && (e < |s| ==> s[e] == '\n')
    ensures First(VALUE, s, m, M(e, m.caps[2 := t]))
  {
    var k, z := NoneOf({'\r', '\n', '#'}), m.(pos := e);
    assert s[m.pos] == t[0];
    NotQuoted('"', s, m);
    NotQuoted('\'', s, m);
    forall j | m.pos <= j < e ensures Has(k, s[j]) {
      assert s[j] == s[m.pos..e][j - m.pos] && t[j - m.pos] in t;
    }
    StarFirst(k, s, m, e - m.pos);
    AltFirst(SINGLE_QUOTED, BARE, s, m, z);
    AltFirst(DOUBLE_QUOTED, Alt(SINGLE_QUOTED, BARE), s, m, z);
    ValueOfAlt(s, m, z);
  }

  lemma ValueOfAlt(s: string, m: M, z: M)
    requires First(Alt(DOUBLE_QUOTED, Alt(SINGLE_QUOTED, BARE)), s, m, z) && m.pos < z.pos <= |s|
    ensures First(VALUE, s, m, M(z.pos, z.caps[2 := s[m.pos..z.pos]]))
  {
    var a := Alt(DOUBLE_QUOTED, Alt(SINGLE_QUOTED, BARE));
    GroupFirst(2, a, s, m, z);
    OptFirst(Group(2, a), s, m, M(z.pos, z.caps[2 := s[m.pos..z.pos]]));
  }

  lemma SingleFirst(s: string, m: M, e: nat, t: string)
    requires BodyOf(t, '\'') && m.pos < e <= |s| && s[m.pos..e] == "'" + t + "'"
    ensures First(VALUE, s, m, M(e, m.caps[2 := s[m.pos..e]]))
  {
    var z := m.(pos := e);
    Inside(s, m.pos, e, '\'', t);
    NotQuoted('"', s, m);
    QuotedFirst('\'', s, m, |t|);
    AltFirst(SINGLE_QUOTED, BARE, s, m, z);
    AltFirst(DOUBLE_QUOTED, Alt(SINGLE_QUOTED, BARE), s, m, z);
    ValueOfAlt(s, m, z);
  }

  /** A value between apostrophes is read as it stands, escapes and quotes included. */
  lemma SingleQuotedIsRead(key: string, gap: string, t: string, tail: string)
    requires S.IsKey(key) && AllSpace(gap) && BodyOf(t, '\'') && (tail == "" || tail == "\n")
    ensures ReadFrom(key + "=" + gap + ("'" + t + "'") + tail, 0, map[]) == map[key := t]
  {
    var raw := "'" + t + "'";
    var s := key + "=" + gap + raw + tail;
    var p := |key| + 1 + |gap|;
    assert raw[0] == '\'' && raw[|raw| - 1] == '\'' && raw[1..|raw| - 1] == t;
    EntryOfParts(key, gap, raw, tail, s);
    SingleFirst(s, M(p, map[1 := key]), p + |raw|, t);
    OneEntryIsRead(s, key, raw, |key|, p, p + |raw|);
  }

  /** A bare value is read to the end of its line, without the white space around it. The blanks
      before it may include newlines. */
  lemma BareIsRead(key: string, gap: string, t: string, tail: string)
    requires S.IsKey(key) && AllSpace(gap) && BareText(t) && (tail == "" || tail == "\n")
    ensures ReadFrom(key + "=" + gap + t + tail, 0, map[]) == map[key := Trim(t, IsSpace)]
  {
    var s := key + "=" + gap + t + tail;
    var p := |key| + 1 + |gap|;
    EntryOfParts(key, gap, t, tail, s);
    BareFirst(s, M(p, map[1 := key]), p + |t|, t);
    OneEntryIsRead(s, key, t, |key|, p, p + |t|);
    BareValue(t);
  }

  lemma BareValue(t: string)
    requires BareText(t)
    ensures ValueOf(t) == Trim(t, IsSpace)
  {
    TrimEndCuts(t, IsSpace);
  }

  /** An empty value takes the next line for its own: the blanks after the equals sign run over the
      newline. The line scanner reads two entries there. */
  lemma EmptyValueTakesTheNextLine(a: string, b: string, t: string)
    requires S.IsKey(a) && S.IsKey(b) && a != b && BareText(t) && S.NoTerminator(t)
    ensures var s := a + "=" + "\n" + (b + "=" + t);
      && ReadFrom(s, 0, map[]) == map[a := Trim(b + "=" + t, IsSpace)]
      && S.Parse(s) == map[a := "", b := t]
  {
    ReaderTakesBoth(a, b + "=" + t, b, t);
    ScannerTakesEach(a, b, t);
  }

  lemma ReaderTakesBoth(a: string, line: string, b: string, t: string)
    requires S.IsKey(a) && S.IsKey(b) && BareText(t) && line == b + "=" + t
    ensures ReadFrom(a + "=" + "\n" + line, 0, map[]) == map[a := Trim(line, IsSpace)]
  {
    assert forall c | c in b :: S.KeyChar(c);
    assert line[0] == b[0] && b[0] in b;
    assert BareText(line);
    BareIsRead(a, "\n", line, "");
    assert a + "=" + "\n" + line + "" == a + "=" + "\n" + line;
  }

  lemma ScannerTakesEach(a: string, b: string, t: string)
    requires S.IsKey(a) && S.IsKey(b) && a != b && BareText(t) && S.NoTerminator(t)
    ensures S.Parse(a + "=" + "\n" + (b + "=" + t)) == map[a := "", b := t]
  {
    var ps := [S.Bare(a, ""), S.Bare(b, t)];
    assert ps[1..] == [S.Bare(b, t)] && ps[1..][1..] == [];
    assert S.FileText(ps) == a + "=" + "" + "\n" + (b + "=" + t);
    assert a + "=" + "" == a + "=";
    S.FilesAreRead(ps);
    var out: map<string, string> := map[];
    assert S.EntriesOf(ps[1..], out[a := ""]) == S.EntriesOf(ps[1..][1..], out[a := ""][b := t]);
    assert out[a := ""][b := t] == map[a := "", b := t];
  }

  /* ---------- the two readers ---------- */

  predicate Plain(v: string) {
    '"' !in v && '\\' !in v
  }

  lemma {:induction false} PlainIsBody(v: string)
    requires Plain(v)
    ensures Body(v)
  {
    if v != [] {
      PlainIsBody(v[1..]);
    }
  }

  lemma {:induction false} PlainDecodes(es: seq<S.Entry>)
    requires forall e | e in es :: S.IsKey(e.key) && Plain(e.value)
    ensures AllBodies(es) && Decoded(es) == es
  {
    if es != [] {
      PlainDecodes(es[1..]);
      PlainIsBody(es[0].value);
      V.DecodeNothing(es[0].value);
      assert es == [es[0]] + es[1..];
    }
  }

  // A value without quotes is printable when its first line is one line to `.`.
  lemma PlainPrintable(v: string)
    requires Plain(v)
    ensures S.Printable(v) <==> S.NoTerminator(Text.Split(v)[0])
  {
    var lines := Text.Split(v);
    forall i | 0 <= i < |lines| ensures !S.EndsInQuote(lines[i]) {
      if '"' in lines[i] {
        LineOfText(v, i, '"');
      }
    }
  }

  lemma {:induction false} LineOfText(v: string, i: nat, c: char)
    requires i < |Text.Split(v)| && c in Text.Split(v)[i]
    ensures c in v
  {
    if v != [] {
      var rest := Text.Split(v[1..]);
      if v[0] == '\n' {
        if i > 0 {
          LineOfText(v[1..], i - 1, c);
        }
      } else if i > 0 {
        LineOfText(v[1..], i, c);
      } else if c != v[0] {
        assert c in rest[0];
        LineOfText(v[1..], 0, c);
      }
    }
  }

  /** The line scanner and the regex reader give the same map for KEY="value" files whose values
      have no quote and no backslash and start with a line `.` can match. */
  lemma ReadersAgree(es: seq<S.Entry>, tail: string)
    requires forall e | e in es :: S.IsKey(e.key) && Plain(e.value) && S.NoTerminator(Text.Split(e.value)[0])
    requires tail == "" || tail == "\n"
    ensures ReadFrom(S.Render(es, tail), 0, map[]) == S.Parse(S.Render(es, tail)) == S.LastWins(es, map[])
  {
    PlainDecodes(es);
    ReadsEveryEntry(es, tail);
    forall e | e in es ensures S.Printable(e.value) {
      PlainPrintable(e.value);
    }
    S.RoundTrip(es, tail);
  }

  /** For one entry that condition is exact: a carriage return or a Unicode line or paragraph
      separator in the first line hides the entry from the scanner alone. */
  lemma ReadersAgreeExactlyWhen(e: S.Entry, tail: string)
    requires S.IsKey(e.key) && Plain(e.value) && (tail == "" || tail == "\n")
    ensures ReadFrom(S.Render([e], tail), 0, map[]) == S.Parse(S.Render([e], tail))
            <==> S.NoTerminator(Text.Split(e.value)[0])
  {
    PlainDecodes([e]);
    ReadsEveryEntry([e], tail);
    PlainPrintable(e.value);
    S.RoundTripExactlyWhen(e, tail);
    assert S.LastWins([e], map[]) == S.LastWins([], map[e.key := e.value]);
  }
}
