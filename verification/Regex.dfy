/**
 * ECMAScript regular expressions as the repository's scripts use them: a backtracking matcher that
 * gives every way to match, in the order a backtracking engine tries them.
 */
module Regex {
  import opened Prelude
  import opened Text
  import E = EnvScanner

  // [\w.-]
  predicate IsNameChar(c: char) {
    'a' <= c <= 'z' || 'A' <= c <= 'Z' || '0' <= c <= '9' || c == '_' || c == '.' || c == '-'
  }

  datatype Class = One(c: char) | NoneOf(cs: set<char>) | Space | NameChar | Dot | Any

  predicate Has(k: Class, c: char) {
    match k
    case One(d) => c == d
    case NoneOf(cs) => c !in cs
    case Space => IsSpace(c)
    case NameChar => IsNameChar(c)
    case Dot => !E.LineTerminator(c)
    case Any => true
  }

  // `^` and `$` are those of multi-line mode.
  datatype Re =
    | Chr(k: Class)
    | Cat(a: Re, b: Re)
    | Alt(a: Re, b: Re)
    | Star(r: Re)
    | Lazy(r: Re)
    | Opt(r: Re)
    | Bol
    | Eol
    | NotAfter(c: char)
    | Group(n: nat, r: Re)

  // A position in the subject and what the groups hold.
  datatype M = M(pos: nat, caps: map<nat, string>)

  predicate AtBol(s: string, i: nat)
    requires i <= |s|
  {
    i == 0 || E.LineTerminator(s[i - 1])
  }

  predicate AtEol(s: string, i: nat)
    requires i <= |s|
  {
    i == |s| || E.LineTerminator(s[i])
  }

  // The characters any match takes at least.
  function MinLen(r: Re): nat {
    match r
    case Chr(_) => 1
    case Cat(a, b) => MinLen(a) + MinLen(b)
    case Alt(a, b) => if MinLen(a) <= MinLen(b) then MinLen(a) else MinLen(b)
    case Group(_, r') => MinLen(r')
    case Star(_) => 0
    case Lazy(_) => 0
    case Opt(_) => 0
    case Bol => 0
    case Eol => 0
    case NotAfter(_) => 0
  }

  ghost predicate In(ms: seq<M>, lo: int, hi: nat) {
    forall i | 0 <= i < |ms| :: lo <= ms[i].pos <= hi
  }

  // A repetition refuses an empty round.
  function Moved(ms: seq<M>, lo: nat, ghost hi: nat): (r: seq<M>)
    requires In(ms, lo, hi)
    ensures In(r, lo + 1, hi)
  {
    if ms == [] then []
    else if ms[0].pos > lo then [ms[0]] + Moved(ms[1..], lo, hi)
    else Moved(ms[1..], lo, hi)
  }

  function Captured(ms: seq<M>, n: nat, s: string, lo: nat): (r: seq<M>)
    requires In(ms, lo, |s|)
    ensures |r| == |ms| && forall i | 0 <= i < |r| :: r[i].pos == ms[i].pos
  {
    if ms == [] then []
    else [M(ms[0].pos, ms[0].caps[n := s[lo..ms[0].pos]])] + Captured(ms[1..], n, s, lo)
  }

  function All(r: Re, s: string, m: M): (ms: seq<M>)
    requires m.pos <= |s|
    ensures In(ms, m.pos + MinLen(r), |s|)
    decreases r, |s| - m.pos
  {
    match r
    case Chr(k) => if m.pos < |s| && Has(k, s[m.pos]) then [m.(pos := m.pos + 1)] else []
    case Cat(a, b) => AllEach(b, s, All(a, s, m), m.pos + MinLen(a))
    case Alt(a, b) => All(a, s, m) + All(b, s, m)
    case Star(r') => AllEach(r, s, Moved(All(r', s, m), m.pos, |s|), m.pos + 1) + [m]
    case Lazy(r') => [m] + AllEach(r, s, Moved(All(r', s, m), m.pos, |s|), m.pos + 1)
    case Opt(r') => Moved(All(r', s, m), m.pos, |s|) + [m]
    case Bol => if AtBol(s, m.pos) then [m] else []
    case Eol => if AtEol(s, m.pos) then [m] else []
    case NotAfter(c) => if m.pos > 0 && s[m.pos - 1] == c then [] else [m]
    case Group(n, r') => Captured(All(r', s, m), n, s, m.pos)
  }

  function AllEach(r: Re, s: string, ms: seq<M>, lo: nat): (rs: seq<M>)
    requires In(ms, lo, |s|)
    ensures In(rs, lo + MinLen(r), |s|)
    decreases r, |s| - lo + 1, |ms|
  {
    if ms == [] then []
    else
      assert lo <= ms[0].pos <= |s|;
      All(r, s, ms[0]) + AllEach(r, s, ms[1..], lo)
  }

  /* ---------- what a backtracking engine finds first ---------- */

  ghost predicate First(r: Re, s: string, m: M, x: M) {
    m.pos <= |s| && All(r, s, m) != [] && All(r, s, m)[0] == x
  }

  ghost predicate Fails(r: Re, s: string, m: M) {
    m.pos <= |s| && All(r, s, m) == []
  }

  lemma FirstBounds(r: Re, s: string, m: M, x: M)
    requires First(r, s, m, x)
    ensures m.pos + MinLen(r) <= x.pos <= |s|
  {}

  lemma CatFirst(a: Re, b: Re, s: string, m: M, x: M, y: M)
    requires First(a, s, m, x) && First(b, s, x, y)
    ensures First(Cat(a, b), s, m, y)
  {}

  lemma EachOne(b: Re, s: string, x: M, lo: nat)
    requires lo <= x.pos <= |s|
    ensures AllEach(b, s, [x], lo) == All(b, s, x)
  {
    var none: seq<M> := [];
    assert [x][1..] == none && AllEach(b, s, none, lo) == [];
  }

  lemma OnlyBounds(a: Re, s: string, m: M, x: M)
    requires m.pos <= |s| && All(a, s, m) == [x]
    ensures m.pos + MinLen(a) <= x.pos <= |s|
  {
    FirstBounds(a, s, m, x);
  }

  lemma EachIs(b: Re, s: string, x: M, lo: nat, ys: seq<M>)
    requires lo <= x.pos <= |s| && ys == All(b, s, x)
    ensures AllEach(b, s, [x], lo) == ys
  {
    EachOne(b, s, x, lo);
  }

  lemma CatIs(r: Re, s: string, m: M, ms: seq<M>, lo: nat, rs: seq<M>)
    requires r.Cat? && m.pos <= |s| && ms == All(r.a, s, m) && lo == m.pos + MinLen(r.a) && rs == AllEach(r.b, s, ms, lo)
    ensures All(r, s, m) == rs
  {}

  // Here a can only go on to x.
  lemma CatOnly(a: Re, b: Re, s: string, m: M, x: M, ys: seq<M>)
    requires m.pos <= |s| && All(a, s, m) == [x] && x.pos <= |s| && ys == All(b, s, x)
    ensures All(Cat(a, b), s, m) == ys
  {
    OnlyBounds(a, s, m, x);
    CatTo(Cat(a, b), b, s, m, [x], x, m.pos + MinLen(a), ys);
  }

  lemma CatTo(r: Re, b: Re, s: string, m: M, ms: seq<M>, x: M, lo: nat, ys: seq<M>)
    requires r.Cat? && r.b == b && m.pos <= |s| && ms == All(r.a, s, m) && ms == [x]
    requires lo == m.pos + MinLen(r.a) && lo <= x.pos <= |s| && ys == All(b, s, x)
    ensures All(r, s, m) == ys
  {
    EachIs(b, s, x, lo, ys);
    CatIs(r, s, m, ms, lo, ys);
  }

  lemma CatFails(a: Re, b: Re, s: string, m: M)
    requires Fails(a, s, m)
    ensures Fails(Cat(a, b), s, m)
  {}

  // a takes nothing here, and b fails.
  lemma SkipFails(a: Re, b: Re, s: string, m: M)
    requires m.pos <= |s| && All(a, s, m) == [m] && Fails(b, s, m)
    ensures Fails(Cat(a, b), s, m)
  {
    CatOnly(a, b, s, m, m, []);
  }

  lemma Cat3First(a: Re, b: Re, c: Re, s: string, m: M, n: M, o: M, p: M)
    requires First(a, s, m, n) && First(b, s, n, o) && First(c, s, o, p)
    ensures First(Cat(a, Cat(b, c)), s, m, p)
  {
    CatFirst(b, c, s, n, o, p);
    CatFirst(a, Cat(b, c), s, m, n, p);
  }

  lemma Cat5First(a: Re, b: Re, c: Re, d: Re, e: Re, s: string, m: M, n: M, o: M, p: M, q: M, r: M)
    requires First(a, s, m, n) && First(b, s, n, o) && First(c, s, o, p) && First(d, s, p, q) && First(e, s, q, r)
    ensures First(Cat(a, Cat(b, Cat(c, Cat(d, e)))), s, m, r)
  {
    CatFirst(d, e, s, p, q, r);
    CatFirst(c, Cat(d, e), s, o, p, r);
    CatFirst(b, Cat(c, Cat(d, e)), s, n, o, r);
    CatFirst(a, Cat(b, Cat(c, Cat(d, e))), s, m, n, r);
  }

  lemma EachTwo(b: Re, s: string, x: M, y: M, lo: nat, ys: seq<M>)
    requires lo <= x.pos <= |s| && lo <= y.pos <= |s| && Fails(b, s, x) && ys == All(b, s, y)
    ensures AllEach(b, s, [x, y], lo) == ys
  {
    EachOne(b, s, y, lo);
    EachCons(b, s, x, [y], lo);
    assert [x] + [y] == [x, y];
  }

  lemma AltFirst(a: Re, b: Re, s: string, m: M, x: M)
    requires First(a, s, m, x) || (Fails(a, s, m) && First(b, s, m, x))
    ensures First(Alt(a, b), s, m, x)
  {}

  lemma AltFails(a: Re, b: Re, s: string, m: M)
    requires Fails(a, s, m) && Fails(b, s, m)
    ensures Fails(Alt(a, b), s, m)
  {}

  lemma OptFirst(r: Re, s: string, m: M, x: M)
    requires (First(r, s, m, x) && x.pos > m.pos) || (Fails(r, s, m) && x == m)
    ensures First(Opt(r), s, m, x)
  {}

  lemma OptFails(r: Re, s: string, m: M)
    requires Fails(r, s, m)
    ensures All(Opt(r), s, m) == [m]
  {}

  lemma GroupFirst(n: nat, r: Re, s: string, m: M, x: M)
    requires First(r, s, m, x)
    ensures m.pos <= x.pos <= |s| && First(Group(n, r), s, m, M(x.pos, x.caps[n := s[m.pos..x.pos]]))
  {
    FirstBounds(r, s, m, x);
  }

  lemma StarStep(r: Re, s: string, m: M, x: M, y: M)
    requires First(r, s, m, x) && x.pos > m.pos && First(Star(r), s, x, y)
    ensures First(Star(r), s, m, y)
  {
    var ms := Moved(All(r, s, m), m.pos, |s|);
    assert ms != [] && ms[0] == x;
    assert AllEach(Star(r), s, ms, m.pos + 1) == All(Star(r), s, x) + AllEach(Star(r), s, ms[1..], m.pos + 1);
  }

  lemma StarStop(r: Re, s: string, m: M)
    requires Fails(r, s, m)
    ensures All(Star(r), s, m) == [m]
  {}

  // The positions from m.pos + n down to m.pos.
  function Down(m: M, n: nat): seq<M>
    decreases n
  {
    if n == 0 then [m] else Down(m.(pos := m.pos + 1), n - 1) + [m]
  }

  predicate Run(k: Class, s: string, i: nat, n: nat) {
    i + n <= |s| && (forall j | i <= j < i + n :: Has(k, s[j])) && (i + n < |s| ==> !Has(k, s[i + n]))
  }

  lemma StarIs(r: Re, s: string, m: M, ms: seq<M>, rs: seq<M>)
    requires r.Star? && m.pos <= |s| && ms == Moved(All(r.r, s, m), m.pos, |s|) && rs == AllEach(r, s, ms, m.pos + 1)
    ensures All(r, s, m) == rs + [m]
  {}

  lemma ClassMoves(k: Class, s: string, m: M)
    requires m.pos < |s| && Has(k, s[m.pos])
    ensures Moved(All(Chr(k), s, m), m.pos, |s|) == [m.(pos := m.pos + 1)]
  {
    var x := m.(pos := m.pos + 1);
    assert All(Chr(k), s, m) == [x] && Moved([x], m.pos, |s|) == [x];
  }

  // A greedy class takes the whole run and gives it back one at a time.
  lemma {:induction false} StarRun(k: Class, s: string, m: M, n: nat)
    requires Run(k, s, m.pos, n)
    ensures All(Star(Chr(k)), s, m) == Down(m, n)
    decreases n
  {
    var r := Star(Chr(k));
    if n == 0 {
      StarStop(Chr(k), s, m);
    } else {
      var x := m.(pos := m.pos + 1);
      StarRun(k, s, x, n - 1);
      ClassMoves(k, s, m);
      EachIs(r, s, x, m.pos + 1, Down(x, n - 1));
      StarIs(r, s, m, [x], Down(x, n - 1));
    }
  }

  lemma {:induction false} DownFirst(m: M, n: nat)
    ensures Down(m, n) != [] && Down(m, n)[0] == m.(pos := m.pos + n)
    decreases n
  {
    if n > 0 {
      DownFirst(m.(pos := m.pos + 1), n - 1);
    }
  }

  lemma StarFirst(k: Class, s: string, m: M, n: nat)
    requires Run(k, s, m.pos, n)
    ensures First(Star(Chr(k)), s, m, m.(pos := m.pos + n))
  {
    StarRun(k, s, m, n);
    DownFirst(m, n);
  }

  function Plus(k: Class): Re {
    Cat(Chr(k), Star(Chr(k)))
  }

  lemma PlusFirst(k: Class, s: string, m: M, n: nat)
    requires n > 0 && Run(k, s, m.pos, n)
    ensures First(Plus(k), s, m, m.(pos := m.pos + n))
  {
    var x := m.(pos := m.pos + 1);
    StarFirst(k, s, x, n - 1);
    CatFirst(Chr(k), Star(Chr(k)), s, m, x, m.(pos := m.pos + n));
  }

  // A lazy class stops at the first place where the rest of the pattern matches.
  lemma {:induction false} LazyFirst(k: Class, b: Re, s: string, m: M, n: nat, y: M)
    requires m.pos + n <= |s| && forall j | m.pos <= j < m.pos + n :: Has(k, s[j])
    requires forall j | m.pos <= j < m.pos + n :: Fails(b, s, m.(pos := j))
    requires First(b, s, m.(pos := m.pos + n), y)
    ensures First(Cat(Lazy(Chr(k)), b), s, m, y)
    decreases n
  {
    if n == 0 {
      LazyStartsHere(k, s, m);
      assert m.(pos := m.pos + n) == m;
      CatFirst(Lazy(Chr(k)), b, s, m, m, y);
    } else {
      var x := m.(pos := m.pos + 1);
      assert m.(pos := m.pos) == m && x.(pos := x.pos + (n - 1)) == m.(pos := m.pos + n);
      forall j | x.pos <= j < x.pos + (n - 1) ensures Fails(b, s, x.(pos := j)) {
        assert x.(pos := j) == m.(pos := j);
      }
      LazyFirst(k, b, s, x, n - 1, y);
      LazySkips(k, b, s, m);
    }
  }

  lemma LazySkips(k: Class, b: Re, s: string, m: M)
    requires m.pos < |s| && Has(k, s[m.pos]) && Fails(b, s, m)
    ensures All(Cat(Lazy(Chr(k)), b), s, m) == All(Cat(Lazy(Chr(k)), b), s, m.(pos := m.pos + 1))
  {
    var r, x := Lazy(Chr(k)), m.(pos := m.pos + 1);
    var lx := All(r, s, x);
    var rs := AllEach(b, s, lx, x.pos);
    CatIs(Cat(r, b), s, x, lx, x.pos, rs);
    LazyUnfold(k, s, m);
    EachCons(b, s, m, lx, m.pos);
    EachLower(b, s, lx, m.pos + 1, m.pos);
    CatIs(Cat(r, b), s, m, [m] + lx, m.pos, rs);
  }

  // If the rest of the pattern matches anywhere ahead, a lazy class gets there.
  lemma {:induction false} LazySucceeds(k: Class, b: Re, s: string, m: M, n: nat, there: M)
    requires m.pos + n <= |s| && forall j | m.pos <= j < m.pos + n :: Has(k, s[j])
    requires there == M(m.pos + n, m.caps) && !Fails(b, s, there)
    ensures !Fails(Cat(Lazy(Chr(k)), b), s, m)
    decreases n
  {
    var here := All(b, s, m);
    if here != [] {
      LazyStartsHere(k, s, m);
      CatFirst(Lazy(Chr(k)), b, s, m, m, here[0]);
    } else {
      assert there != m;
      LazySkips(k, b, s, m);
      LazySucceeds(k, b, s, m.(pos := m.pos + 1), n - 1, there);
    }
  }

  lemma LazyStartsHere(k: Class, s: string, m: M)
    requires m.pos <= |s|
    ensures First(Lazy(Chr(k)), s, m, m)
  {}

  lemma LazyUnfold(k: Class, s: string, m: M)
    requires m.pos < |s| && Has(k, s[m.pos])
    ensures All(Lazy(Chr(k)), s, m) == [m] + All(Lazy(Chr(k)), s, m.(pos := m.pos + 1))
  {
    var r, x := Lazy(Chr(k)), m.(pos := m.pos + 1);
    assert All(Chr(k), s, m) == [x] && Moved([x], m.pos, |s|) == [x];
    assert AllEach(r, s, [x], m.pos + 1) == All(r, s, x) + AllEach(r, s, [], m.pos + 1);
  }

  lemma EachCons(b: Re, s: string, m: M, ms: seq<M>, lo: nat)
    requires lo <= m.pos <= |s| && In(ms, lo, |s|)
    ensures AllEach(b, s, [m] + ms, lo) == All(b, s, m) + AllEach(b, s, ms, lo)
  {
    assert ([m] + ms)[1..] == ms;
  }

  lemma {:induction false} EachLower(b: Re, s: string, ms: seq<M>, lo: nat, lower: nat)
    requires lower <= lo && In(ms, lo, |s|)
    ensures AllEach(b, s, ms, lower) == AllEach(b, s, ms, lo)
    decreases |ms|
  {
    if ms != [] {
      EachLower(b, s, ms[1..], lo, lower);
    }
  }

  // The text of a literal.
  function Lit(t: string): Re
    requires t != []
  {
    if |t| == 1 then Chr(One(t[0])) else Cat(Chr(One(t[0])), Lit(t[1..]))
  }

  predicate Occurs(t: string, s: string, i: nat) {
    i + |t| <= |s| && s[i..i + |t|] == t
  }

  lemma {:induction false} LitMatches(t: string, s: string, m: M)
    requires t != [] && m.pos <= |s|
    ensures All(Lit(t), s, m) == if Occurs(t, s, m.pos) then [m.(pos := m.pos + |t|)] else []
    decreases |t|
  {
    var i := m.pos;
    if |t| == 1 {
      assert Occurs(t, s, i) <==> i < |s| && s[i] == t[0];
    } else {
      assert Occurs(t, s, i) <==> i < |s| && s[i] == t[0] && Occurs(t[1..], s, i + 1) by {
        if i + |t| <= |s| {
          assert s[i..i + |t|] == [s[i]] + s[i + 1..i + |t|];
          assert t == [t[0]] + t[1..];
        }
      }
      if i < |s| && s[i] == t[0] {
        var x := m.(pos := i + 1);
        LitMatches(t[1..], s, x);
        CatOnly(Chr(One(t[0])), Lit(t[1..]), s, m, x, All(Lit(t[1..]), s, x));
      }
    }
  }

  /* ---------- searching ---------- */

  datatype Found = Found(start: nat, end: nat, caps: map<nat, string>)

  // exec and replace start here and move on one character at a time.
  function Search(r: Re, s: string, from: nat): (f: Option<Found>)
    requires from <= |s|
    ensures f.Some? ==> from <= f.value.start && f.value.start + MinLen(r) <= f.value.end <= |s|
    decreases |s| - from
  {
    var ms := All(r, s, M(from, map[]));
    if ms != [] then Some(Found(from, ms[0].pos, ms[0].caps))
    else if from == |s| then None
    else Search(r, s, from + 1)
  }

  lemma {:induction false} SearchFinds(r: Re, s: string, from: nat, start: nat, x: M)
    requires from <= start <= |s| && First(r, s, M(start, map[]), x)
    requires forall i | from <= i < start :: Fails(r, s, M(i, map[]))
    ensures Search(r, s, from) == Some(Found(start, x.pos, x.caps))
    decreases start - from
  {
    if from < start {
      assert Fails(r, s, M(from, map[]));
      SearchFinds(r, s, from + 1, start, x);
    }
  }

  lemma {:induction false} SearchMisses(r: Re, s: string, from: nat)
    requires from <= |s| && forall i | from <= i <= |s| :: Fails(r, s, M(i, map[]))
    ensures Search(r, s, from) == None
    decreases |s| - from
  {
    assert Fails(r, s, M(from, map[]));
    if from < |s| {
      SearchMisses(r, s, from + 1);
    }
  }

  lemma {:induction false} SearchAtMost(r: Re, s: string, from: nat, start: nat)
    requires from <= start <= |s| && !Fails(r, s, M(start, map[]))
    ensures Search(r, s, from).Some? && Search(r, s, from).value.start <= start
    decreases start - from
  {
    if from < start && Fails(r, s, M(from, map[])) {
      SearchAtMost(r, s, from + 1, start);
    }
  }
}
