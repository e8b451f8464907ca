/**
 * normalizeRoute: three global replace passes that fold the ids of a path into placeholders.
 */
module Routes {
  import opened Text

  predicate IsDigit(c: char) {
    '0' <= c <= '9'
  }

  predicate IsLowerHex(c: char) {
    IsDigit(c) || 'a' <= c <= 'f'
  }

  predicate IsHex(c: char) {
    IsLowerHex(c) || 'A' <= c <= 'F'
  }

  datatype Rule = Uuid | Hex24 | Digits

  predicate UuidChar(i: nat, c: char) {
    if i == 8 || i == 13 || i == 18 || i == 23 then c == '-' else IsHex(c)
  }

  predicate UuidPrefix(t: string) {
    |t| >= 36 && forall i | 0 <= i < 36 :: UuidChar(i, t[i])
  }

  predicate HexPrefix(t: string) {
    |t| >= 24 && forall i | 0 <= i < 24 :: IsLowerHex(t[i])
  }

  function DigitRun(t: string): (n: nat)
    ensures n <= |t|
  {
    if t == [] || !IsDigit(t[0]) then 0 else 1 + DigitRun(t[1..])
  }

  // How much of the text after a slash a rule takes; 0 when it does not match.
  function Taken(rule: Rule, t: string): (n: nat)
    ensures n <= |t|
  {
    match rule
    case Uuid => if UuidPrefix(t) then 36 else 0
    case Hex24 => if HexPrefix(t) then 24 else 0
    case Digits => DigitRun(t)
  }

  function Placeholder(rule: Rule): string {
    if rule == Digits then ":num" else ":id"
  }

  // One global replace.
  function Pass(rule: Rule, s: string): string
    decreases |s|
  {
    if s == [] then []
    else if s[0] == '/' && Taken(rule, s[1..]) > 0 then
      "/" + Placeholder(rule) + Pass(rule, s[1 + Taken(rule, s[1..])..])
    else [s[0]] + Pass(rule, s[1..])
  }

  function BeforeQuery(url: string): string {
    if url == [] || url[0] == '?' then [] else [url[0]] + BeforeQuery(url[1..])
  }

  function Base(url: string): string {
    var u := Trim(BeforeQuery(url), IsSpace);
    if u == "" then "/" else u
  }

  function NormalizeRoute(url: string): string {
    Pass(Digits, Pass(Hex24, Pass(Uuid, Base(url))))
  }

  /* ---------- one pass over the segments ---------- */

  // The characters before the next slash.
  function SegmentLength(t: string): (n: nat)
    ensures n <= |t| && (forall i | 0 <= i < n :: t[i] != '/') && (n < |t| ==> t[n] == '/')
  {
    if t == [] || t[0] == '/' then 0 else 1 + SegmentLength(t[1..])
  }

  function Apply(rule: Rule, seg: string): string {
    if Taken(rule, seg) > 0 then Placeholder(rule) + seg[Taken(rule, seg)..] else seg
  }

  // The first rule that fits a segment rewrites its beginning: UUID, then 24 hex digits, then digits.
  function Fold(seg: string): string {
    if UuidPrefix(seg) then ":id" + seg[36..]
    else if HexPrefix(seg) then ":id" + seg[24..]
    else if DigitRun(seg) > 0 then ":num" + seg[DigitRun(seg)..]
    else seg
  }

  // Every slash-led segment rewritten; what comes before the first slash stays.
  function OnePass(s: string): string
    decreases |s|
  {
    if s == [] then []
    else if s[0] != '/' then [s[0]] + OnePass(s[1..])
    else
      var n := SegmentLength(s[1..]);
      "/" + Fold(s[1..1 + n]) + OnePass(s[1 + n..])
  }

  // The same shape with some of the rules, in order.
  function Rewrite(rules: seq<Rule>, seg: string): string {
    if rules == [] then seg else Apply(rules[|rules| - 1], Rewrite(rules[..|rules| - 1], seg))
  }

  function BySegment(rules: seq<Rule>, s: string): string
    decreases |s|
  {
    if s == [] then []
    else if s[0] != '/' then [s[0]] + BySegment(rules, s[1..])
    else
      var n := SegmentLength(s[1..]);
      "/" + Rewrite(rules, s[1..1 + n]) + BySegment(rules, s[1 + n..])
  }

  predicate SlashFree(t: string) {
    forall i | 0 <= i < |t| :: t[i] != '/'
  }

  // A rule does not look past the next slash.
  lemma {:induction false} DigitRunLocal(seg: string, rest: string)
    requires rest == "" || rest[0] == '/'
    ensures DigitRun(seg + rest) == DigitRun(seg)
  {
    if seg != [] {
      DigitRunLocal(seg[1..], rest);
      assert (seg + rest)[1..] == seg[1..] + rest;
    } else {
      assert seg + rest == rest;
    }
  }

  lemma SlashEndsIds(t: string, k: nat)
    requires k < |t| && t[k] == '/'
    ensures k < 36 ==> !UuidPrefix(t)
    ensures k < 24 ==> !HexPrefix(t)
  {
    assert !UuidChar(k, t[k]) && !IsLowerHex(t[k]);
  }

  lemma TakenLocal(rule: Rule, seg: string, rest: string)
    requires rest == "" || rest[0] == '/'
    ensures Taken(rule, seg + rest) == Taken(rule, seg)
  {
    var t := seg + rest;
    assert forall i | 0 <= i < |seg| :: t[i] == seg[i];
    DigitRunLocal(seg, rest);
    if rest != "" {
      assert t[|seg|] == '/';
      SlashEndsIds(t, |seg|);
    } else {
      assert t == seg;
    }
  }

  // A pass copies what holds no slash.
  lemma {:induction false} PassCopies(rule: Rule, seg: string, rest: string)
    requires SlashFree(seg)
    ensures Pass(rule, seg + rest) == seg + Pass(rule, rest)
  {
    if seg == [] {
      assert seg + rest == rest;
    } else {
      PassCopies(rule, seg[1..], rest);
      PassCopiesOne(rule, seg[0], seg[1..] + rest);
      assert seg + rest == [seg[0]] + (seg[1..] + rest);
      assert seg == [seg[0]] + seg[1..];
    }
  }

  lemma PassCopiesOne(rule: Rule, c: char, t: string)
    requires c != '/'
    ensures Pass(rule, [c] + t) == [c] + Pass(rule, t)
  {
    assert ([c] + t)[1..] == t;
  }

  lemma PassMatches(rule: Rule, t: string)
    requires Taken(rule, t) > 0
    ensures Pass(rule, "/" + t) == "/" + Placeholder(rule) + Pass(rule, t[Taken(rule, t)..])
  {
    var s := "/" + t;
    assert s[1..] == t && s[1 + Taken(rule, t)..] == t[Taken(rule, t)..];
  }

  lemma PassSkips(rule: Rule, t: string)
    requires Taken(rule, t) == 0
    ensures Pass(rule, "/" + t) == "/" + Pass(rule, t)
  {
    assert ("/" + t)[1..] == t;
  }

  lemma DropInside(seg: string, rest: string, n: nat)
    requires n <= |seg| && SlashFree(seg)
    ensures (seg + rest)[n..] == seg[n..] + rest && SlashFree(seg[n..])
  {
    assert forall i | 0 <= i < |seg| - n :: seg[n..][i] == seg[n + i];
  }

  lemma PassAtSlash(rule: Rule, seg: string, rest: string)
    requires SlashFree(seg) && (rest == "" || rest[0] == '/')
    ensures Pass(rule, "/" + (seg + rest)) == "/" + Apply(rule, seg) + Pass(rule, rest)
  {
    var n := Taken(rule, seg);
    TakenLocal(rule, seg, rest);
    DropInside(seg, rest, n);
    if n > 0 {
      PassMatches(rule, seg + rest);
      PassCopies(rule, seg[n..], rest);
      Regroup("/", Placeholder(rule), seg[n..], Pass(rule, rest));
    } else {
      PassSkips(rule, seg + rest);
      PassCopies(rule, seg, rest);
      Regroup("/", "", seg, Pass(rule, rest));
      assert "" + seg == seg && "/" + "" == "/";
    }
  }

  lemma Regroup(a: string, b: string, c: string, d: string)
    ensures a + b + (c + d) == a + (b + c) + d
  {}

  lemma RewriteStaysSlashFree(rules: seq<Rule>, seg: string)
    requires SlashFree(seg)
    ensures SlashFree(Rewrite(rules, seg))
  {}

  lemma {:induction false} BySegmentStarts(rules: seq<Rule>, s: string)
    requires s == "" || s[0] == '/'
    ensures BySegment(rules, s) == "" || BySegment(rules, s)[0] == '/'
  {}

  lemma SlashAddsRule(rule: Rule, rules: seq<Rule>, seg: string, rest: string)
    requires SlashFree(seg) && (rest == "" || rest[0] == '/')
    ensures Pass(rule, "/" + Rewrite(rules, seg) + rest) == "/" + Rewrite(rules + [rule], seg) + Pass(rule, rest)
  {
    var t := Rewrite(rules, seg);
    RewriteStaysSlashFree(rules, seg);
    PassAtSlash(rule, t, rest);
    assert "/" + t + rest == "/" + (t + rest);
    assert (rules + [rule])[..|rules|] == rules;
  }

  // One more pass is one more rule on every segment.
  lemma {:induction false} PassAddsRule(rule: Rule, rules: seq<Rule>, s: string)
    ensures Pass(rule, BySegment(rules, s)) == BySegment(rules + [rule], s)
    decreases |s|
  {
    if s == [] {
    } else if s[0] != '/' {
      PassAddsRule(rule, rules, s[1..]);
      PassCopies(rule, [s[0]], BySegment(rules, s[1..]));
    } else {
      var n := SegmentLength(s[1..]);
      SegmentSplit(s, n);
      PassAddsRule(rule, rules, s[1 + n..]);
      BySegmentStarts(rules, s[1 + n..]);
      SlashAddsRule(rule, rules, s[1..1 + n], BySegment(rules, s[1 + n..]));
    }
  }

  lemma {:induction false} NoRules(s: string)
    ensures BySegment([], s) == s
    decreases |s|
  {
    if s != [] {
      if s[0] != '/' {
        NoRules(s[1..]);
      } else {
        var n := SegmentLength(s[1..]);
        NoRules(s[1 + n..]);
        assert s == "/" + s[1..1 + n] + s[1 + n..];
      }
    }
  }

  const RULES := [Uuid, Hex24, Digits]

  lemma StartsWithHex(t: string)
    ensures UuidPrefix(t) || HexPrefix(t) ==> IsHex(t[0])
  {
    if UuidPrefix(t) {
      assert UuidChar(0, t[0]);
    }
  }

  // A placeholder is not rewritten again.
  lemma MarkedStays(rule: Rule, t: string)
    requires t != [] && t[0] == ':'
    ensures Apply(rule, t) == t
  {
    StartsWithHex(t);
  }

  lemma FoldIsTheRules(seg: string)
    ensures Rewrite(RULES, seg) == Fold(seg)
  {
    var s1 := Apply(Uuid, seg);
    var s2 := Apply(Hex24, s1);
    var s3 := Apply(Digits, s2);
    assert RULES[..2] == [Uuid, Hex24] && [Uuid, Hex24][..1] == [Uuid] && [Uuid][..0] == [];
    assert Rewrite([Uuid], seg) == s1;
    assert Rewrite([Uuid, Hex24], seg) == s2;
    assert Rewrite(RULES, seg) == s3;
    if UuidPrefix(seg) {
      MarkedStays(Hex24, s1);
      MarkedStays(Digits, s1);
    } else if HexPrefix(seg) {
      MarkedStays(Digits, s2);
    }
  }

  lemma {:induction false} SegmentsFold(s: string)
    ensures BySegment(RULES, s) == OnePass(s)
    decreases |s|
  {
    if s != [] {
      if s[0] != '/' {
        SegmentsFold(s[1..]);
      } else {
        var n := SegmentLength(s[1..]);
        SegmentsFold(s[1 + n..]);
        SegmentFolds(s, n, BySegment(RULES, s[1 + n..]));
      }
    }
  }

  lemma SegmentFolds(s: string, n: nat, rest: string)
    requires s != [] && s[0] == '/' && n == SegmentLength(s[1..])
    requires rest == BySegment(RULES, s[1 + n..]) && rest == OnePass(s[1 + n..])
    ensures BySegment(RULES, s) == OnePass(s)
  {
    var seg := s[1..1 + n];
    FoldIsTheRules(seg);
    assert BySegment(RULES, s) == "/" + Rewrite(RULES, seg) + rest;
    assert OnePass(s) == "/" + Fold(seg) + rest;
  }

  /** The three passes, one after another over the whole text, are one pass with a prioritised rule
      for each segment. */
  lemma PassesAreOne(url: string)
    ensures NormalizeRoute(url) == OnePass(Base(url))
  {
    var s := Base(url);
    NoRules(s);
    PassAddsRule(Uuid, [], s);
    PassAddsRule(Hex24, [Uuid], s);
    PassAddsRule(Digits, [Uuid, Hex24], s);
    assert [] + [Uuid] == [Uuid] && [Uuid] + [Hex24] == [Uuid, Hex24] && [Uuid, Hex24] + [Digits] == RULES;
    SegmentsFold(s);
  }

  /* ---------- what is left ---------- */

  // No id after any slash.
  ghost predicate NoIds(s: string) {
    forall i | 0 <= i < |s| && s[i] == '/' :: NoIdAt(s[i + 1..])
  }

  predicate NoIdAt(t: string) {
    !UuidPrefix(t) && !HexPrefix(t) && (t == [] || !IsDigit(t[0]))
  }

  lemma FoldLeavesNone(seg: string, rest: string)
    requires rest == "" || rest[0] == '/'
    ensures NoIdAt(Fold(seg) + rest)
  {
    var t := Fold(seg);
    if t != seg {
      assert t[0] == ':';
      MarkedStays(Uuid, t);
      MarkedStays(Hex24, t);
    }
    TakenLocal(Uuid, t, rest);
    TakenLocal(Hex24, t, rest);
    StartsWithHex(t);
    assert t + rest != [] ==> (t + rest)[0] == if t == [] then rest[0] else t[0];
  }

  lemma FoldSlashFree(seg: string)
    requires SlashFree(seg)
    ensures SlashFree(Fold(seg))
  {}

  lemma {:induction false} OnePassStarts(s: string)
    requires s == "" || s[0] == '/'
    ensures OnePass(s) == "" || OnePass(s)[0] == '/'
  {}

  lemma NoIdsAfter(t: string, rest: string)
    requires SlashFree(t) && NoIds(rest)
    ensures NoIds(t + rest)
  {
    var r := t + rest;
    forall i | 0 <= i < |r| && r[i] == '/' ensures NoIdAt(r[i + 1..]) {
      var k := i - |t|;
      assert forall j | 0 <= j < |t| :: r[j] == t[j];
      assert r[i + 1..] == rest[k + 1..] && rest[k] == '/';
    }
  }

  lemma NoIdsAtSlash(x: string)
    requires NoIdAt(x) && NoIds(x)
    ensures NoIds("/" + x)
  {
    var r := "/" + x;
    forall i | 0 <= i < |r| && r[i] == '/' ensures NoIdAt(r[i + 1..]) {
      if i == 0 {
        assert r[1..] == x;
      } else {
        assert r[i + 1..] == x[i - 1 + 1..] && x[i - 1] == '/';
      }
    }
  }

  /** After the passes no slash is followed by a digit, a UUID or 24 hex digits. */
  lemma {:induction false} OnePassLeavesNone(s: string)
    ensures NoIds(OnePass(s))
    decreases |s|
  {
    if s == [] {
    } else if s[0] != '/' {
      OnePassLeavesNone(s[1..]);
      NoIdsAfter([s[0]], OnePass(s[1..]));
    } else {
      var n := SegmentLength(s[1..]);
      OnePassLeavesNone(s[1 + n..]);
      SlashPart(s, n, s[1 + n..], OnePass(s[1 + n..]));
    }
  }

  lemma SlashPart(s: string, n: nat, more: string, rest: string)
    requires s != [] && s[0] == '/' && n == SegmentLength(s[1..]) && more == s[1 + n..]
    requires rest == OnePass(more) && NoIds(rest)
    ensures NoIds("/" + Fold(s[1..1 + n]) + rest)
  {
    SegmentSplit(s, n);
    OnePassStarts(more);
    FoldThenRest(s[1..1 + n], rest);
  }

  lemma FoldThenRest(seg: string, rest: string)
    requires SlashFree(seg) && NoIds(rest) && (rest == "" || rest[0] == '/')
    ensures NoIds("/" + Fold(seg) + rest)
  {
    var t := Fold(seg);
    FoldSlashFree(seg);
    FoldLeavesNone(seg, rest);
    NoIdsAfter(t, rest);
    NoIdsAtSlash(t + rest);
    assert "/" + t + rest == "/" + (t + rest);
  }

  lemma SegmentSplit(s: string, n: nat)
    requires s != [] && n == SegmentLength(s[1..])
    ensures SlashFree(s[1..1 + n]) && (s[1 + n..] == "" || s[1 + n..][0] == '/')
    ensures s == [s[0]] + s[1..1 + n] + s[1 + n..]
  {
    assert forall i | 0 <= i < n :: s[1..1 + n][i] == s[1..][i];
    assert n < |s[1..]| ==> s[1 + n..][0] == s[1..][n];
  }

  lemma {:induction false} PassLeavesAlone(rule: Rule, s: string)
    requires NoIds(s)
    ensures Pass(rule, s) == s
    decreases |s|
  {
    if s != [] {
      var w := s[1..];
      forall i | 0 <= i < |w| && w[i] == '/' ensures NoIdAt(w[i + 1..]) {
        assert s[i + 1] == '/' && s[i + 1 + 1..] == w[i + 1..];
      }
      PassLeavesAlone(rule, w);
      assert s[0] == '/' ==> NoIdAt(s[0 + 1..]);
      assert s == [s[0]] + w;
    }
  }

  // Trimmed, without a query, not empty.
  predicate Settled(s: string) {
    s != [] && '?' !in s && !IsSpace(s[0]) && !IsSpace(s[|s| - 1])
  }

  lemma {:induction false} QueryFree(s: string)
    ensures '?' !in BeforeQuery(s) && ('?' !in s ==> BeforeQuery(s) == s)
  {
    if s != [] && s[0] != '?' {
      QueryFree(s[1..]);
    }
  }

  lemma BaseSettles(url: string)
    ensures Settled(Base(url))
  {
    QueryFree(url);
    var q := BeforeQuery(url);
    var before, after := TrimCuts(q, IsSpace);
    assert forall c | c in Trim(q, IsSpace) :: c in q;
  }

  lemma BaseKeeps(s: string)
    requires Settled(s)
    ensures Base(s) == s
  {
    QueryFree(s);
  }

  // What a pass puts in never ends in a space or holds a question mark.
  lemma {:induction false} OnePassSettles(s: string)
    requires s != [] && '?' !in s && !IsSpace(s[|s| - 1])
    ensures Ends(OnePass(s)) && OnePass(s)[0] == s[0]
    decreases |s|
  {
    if s[0] != '/' {
      if |s| > 1 {
        OnePassSettles(s[1..]);
        EndsConcat([s[0]], OnePass(s[1..]));
      } else {
        assert s[1..] == [];
      }
    } else {
      var n := SegmentLength(s[1..]);
      SegmentEnds(s, n);
      if s[1 + n..] != [] {
        OnePassSettles(s[1 + n..]);
        EndsConcat("/" + Fold(s[1..1 + n]), OnePass(s[1 + n..]));
      } else {
        assert OnePass(s) == "/" + Fold(s[1..1 + n]);
      }
    }
  }

  lemma SegmentEnds(s: string, n: nat)
    requires s != [] && s[0] == '/' && '?' !in s && !IsSpace(s[|s| - 1]) && n == SegmentLength(s[1..])
    ensures '?' !in "/" + Fold(s[1..1 + n])
    ensures s[1 + n..] == [] ==> Ends("/" + Fold(s[1..1 + n]))
    ensures s[1 + n..] != [] ==> Ends(s[1 + n..])
  {
    var seg := s[1..1 + n];
    if s[1 + n..] == [] {
      assert seg == s[1..];
      if seg != [] {
        assert seg[|seg| - 1] == s[|s| - 1];
      }
    }
    FoldEnds(seg);
  }

  predicate Ends(s: string) {
    s != [] && '?' !in s && !IsSpace(s[|s| - 1])
  }

  lemma EndsConcat(a: string, b: string)
    requires '?' !in a && Ends(b)
    ensures Ends(a + b)
  {}

  lemma FoldEnds(seg: string)
    requires '?' !in seg
    ensures '?' !in Fold(seg) && (seg == [] ==> Fold(seg) == [])
    ensures seg != [] && !IsSpace(seg[|seg| - 1]) ==> Ends(Fold(seg))
  {
    var n := if UuidPrefix(seg) then 36 else if HexPrefix(seg) then 24 else DigitRun(seg);
    var tail := seg[n..];
    assert tail != [] ==> tail[|tail| - 1] == seg[|seg| - 1];
  }

  /** A normalised route is its own normal form. */
  lemma NormalizeIsIdempotent(url: string)
    ensures NormalizeRoute(NormalizeRoute(url)) == NormalizeRoute(url) && NoIds(NormalizeRoute(url))
  {
    var s := Base(url);
    var r := NormalizeRoute(url);
    PassesAreOne(url);
    BaseSettles(url);
    OnePassSettles(s);
    OnePassLeavesNone(s);
    BaseKeeps(r);
    PassLeavesAlone(Uuid, r);
    PassLeavesAlone(Hex24, r);
    PassLeavesAlone(Digits, r);
  }

  /* ---------- what a path becomes ---------- */

  // A path, segment by segment; a name begins with no id.
  datatype Segment = Name(text: string) | Number(text: string) | UuidText(text: string) | ObjectId(text: string)

  predicate IsSegment(x: Segment) {
    match x
    case Name(t) => SlashFree(t) && '?' !in t && (t == "" || !IsDigit(t[0])) && !UuidPrefix(t) && !HexPrefix(t)
    case Number(t) => 0 < |t| < 24 && forall i | 0 <= i < |t| :: IsDigit(t[i])
    case UuidText(t) => |t| == 36 && forall i | 0 <= i < 36 :: UuidChar(i, t[i])
    case ObjectId(t) => |t| == 24 && forall i | 0 <= i < 24 :: IsLowerHex(t[i])
  }

  function Path(xs: seq<Segment>): string {
    if xs == [] then "" else "/" + xs[0].text + Path(xs[1..])
  }

  function Template(xs: seq<Segment>): string {
    if xs == [] then ""
    else "/" + (if xs[0].Name? then xs[0].text else if xs[0].Number? then ":num" else ":id") + Template(xs[1..])
  }

  lemma {:induction false} DigitRunWhole(t: string)
    requires forall i | 0 <= i < |t| :: IsDigit(t[i])
    ensures DigitRun(t) == |t|
  {
    if t != [] {
      DigitRunWhole(t[1..]);
    }
  }

  lemma SegmentFolded(x: Segment)
    requires IsSegment(x)
    ensures SlashFree(x.text) && '?' !in x.text
    ensures Fold(x.text) == if x.Name? then x.text else if x.Number? then ":num" else ":id"
  {
    match x
    case Name(_) =>
    case Number(t) => DigitRunWhole(t);
    case UuidText(t) =>
      forall i | 0 <= i < |t| ensures t[i] != '/' && t[i] != '?' {
        assert UuidChar(i, t[i]);
      }
    case ObjectId(t) => assert UuidPrefix(t) ==> |t| >= 36;
  }

  lemma {:induction false} SegmentLengthIs(t: string, rest: string)
    requires SlashFree(t) && (rest == "" || rest[0] == '/')
    ensures SegmentLength(t + rest) == |t|
  {
    if t != [] {
      assert (t + rest)[1..] == t[1..] + rest;
      SegmentLengthIs(t[1..], rest);
    } else {
      assert t + rest == rest;
    }
  }

  lemma {:induction false} PathFolds(xs: seq<Segment>)
    requires forall x | x in xs :: IsSegment(x)
    ensures OnePass(Path(xs)) == Template(xs) && '?' !in Path(xs)
  {
    if xs != [] {
      var s, t, rest := Path(xs), xs[0].text, Path(xs[1..]);
      SegmentFolded(xs[0]);
      SegmentLengthIs(t, rest);
      assert s == "/" + (t + rest) && s[1..] == t + rest;
      assert s[1..1 + |t|] == t && s[1 + |t|..] == rest;
      PathFolds(xs[1..]);
    }
  }

  lemma {:induction false} QueryIsCut(path: string, query: string)
    requires '?' !in path && (query == "" || query[0] == '?')
    ensures BeforeQuery(path + query) == path
  {
    if path == [] {
      assert path + query == query;
    } else {
      assert (path + query)[1..] == path[1..] + query && (path + query)[0] == path[0];
      QueryIsCut(path[1..], query);
    }
  }

  /** The path is what comes before the query, without the white space around it, or a slash. */
  lemma BaseOf(path: string, query: string)
    requires '?' !in path && (query == "" || query[0] == '?')
    ensures Base(path + query) == if forall c | c in path :: IsSpace(c) then "/" else Trim(path, IsSpace)
  {
    QueryIsCut(path, query);
    var before, after := TrimCuts(path, IsSpace);
    var t := Trim(path, IsSpace);
    if t == "" {
      assert path == before + after;
    } else {
      assert path[|before|] == t[0];
    }
  }

  /** The label of a request: each number of its path becomes `:num`, each UUID and object id `:id`,
      each name stays, and the query is gone. */
  lemma RouteIsTemplate(xs: seq<Segment>, query: string)
    requires xs != [] && (forall x | x in xs :: IsSegment(x)) && (query == "" || query[0] == '?')
    requires !IsSpace(Path(xs)[|Path(xs)| - 1])
    ensures NormalizeRoute(Path(xs) + query) == Template(xs)
  {
    var s := Path(xs);
    PathFolds(xs);
    QueryIsCut(s, query);
    QueryFree(s);
    assert s[0] == '/';
    BaseKeeps(s);
    assert Base(s + query) == s;
    PassesAreOne(s + query);
  }
}
