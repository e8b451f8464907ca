/** Splitting and joining text on newlines, and white space. */
module Text {

  function Split(s: string): (lines: seq<string>)
    ensures |lines| > 0 && forall l | l in lines :: '\n' !in l
  {
    if s == [] then [""]
    else
      var rest := Split(s[1..]);
      if s[0] == '\n' then [""] + rest else [[s[0]] + rest[0]] + rest[1..]
  }

  function Join(lines: seq<string>): string {
    if lines == [] then ""
    else if |lines| == 1 then lines[0]
    else lines[0] + "\n" + Join(lines[1..])
  }

  lemma {:induction false} JoinSplit(s: string)
    ensures Join(Split(s)) == s
  {
    if s != [] {
      JoinSplit(s[1..]);
      var rest := Split(s[1..]);
      if s[0] == '\n' {
        assert ([""] + rest)[1..] == rest;
      } else {
        var lines := [[s[0]] + rest[0]] + rest[1..];
        assert lines[1..] == rest[1..];
        assert Join(lines) == [s[0]] + Join(rest);
      }
    }
  }

  lemma {:induction false} SplitLine(line: string)
    requires '\n' !in line
    ensures Split(line) == [line]
  {
    if line != [] {
      SplitLine(line[1..]);
      assert line == [line[0]] + line[1..];
    }
  }

  lemma {:induction false} SplitAfterLine(line: string, rest: string)
    requires '\n' !in line
    ensures Split(line + "\n" + rest) == [line] + Split(rest)
  {
    var s := line + "\n" + rest;
    if line == [] {
      assert s[1..] == rest;
    } else {
      SplitAfterLine(line[1..], rest);
      assert s[1..] == line[1..] + "\n" + rest;
      assert s[0] == line[0] && line == [line[0]] + line[1..];
    }
  }

  // Cutting at the first newline.
  lemma {:induction false} SplitAt(s: string, idx: nat)
    requires idx < |s| && s[idx] == '\n' && '\n' !in s[..idx]
    ensures Split(s) == [s[..idx]] + Split(s[idx + 1..])
    decreases idx
  {
    if idx > 0 {
      assert s[1..][..idx - 1] == s[..idx][1..] && s[1..][idx..] == s[idx + 1..];
      SplitAt(s[1..], idx - 1);
      assert s[..idx] == [s[0]] + s[1..][..idx - 1];
    }
  }

  lemma {:induction false} SplitJoin(lines: seq<string>)
    requires lines != [] && forall l | l in lines :: '\n' !in l
    ensures Split(Join(lines)) == lines
  {
    if |lines| == 1 {
      SplitLine(lines[0]);
    } else {
      SplitJoin(lines[1..]);
      SplitAfterLine(lines[0], Join(lines[1..]));
      assert lines == [lines[0]] + lines[1..];
    }
  }

  // Blanks, line ends and the Unicode separators.
  predicate IsBlank(c: char) {
    || c == ' ' || '\t' <= c <= '\r' || c == '\U{00A0}' || c == '\U{1680}' || '\U{2000}' <= c <= '\U{200A}'
    || c == '\U{2028}' || c == '\U{2029}' || c == '\U{202F}' || c == '\U{205F}' || c == '\U{3000}'
  }

  // What `\s` matches and trim removes in ECMAScript.
  predicate IsSpace(c: char) {
    IsBlank(c) || c == '\U{FEFF}'
  }

  // char.IsWhiteSpace of .NET.
  predicate IsWhiteSpace(c: char) {
    IsBlank(c) || c == '\U{0085}'
  }

  function TrimStart(s: string, space: char -> bool): string {
    if s != [] && space(s[0]) then TrimStart(s[1..], space) else s
  }

  function TrimEnd(s: string, space: char -> bool): string {
    if s != [] && space(s[|s| - 1]) then TrimEnd(s[..|s| - 1], space) else s
  }

  function Trim(s: string, space: char -> bool): string {
    TrimEnd(TrimStart(s, space), space)
  }

  // What is cut off at the start is space, and what is left begins with none.
  lemma {:induction false} TrimStartCuts(s: string, space: char -> bool)
    ensures var t := TrimStart(s, space); var n := |s| - |t|;
      && 0 <= n && s[n..] == t && (forall i | 0 <= i < n :: space(s[i])) && (t != "" ==> !space(t[0]))
  {
    if s != [] && space(s[0]) {
      TrimStartCuts(s[1..], space);
      var n := |s| - |TrimStart(s, space)|;
      assert s[n..] == s[1..][n - 1..];
      assert forall i | 0 < i < n :: s[i] == s[1..][i - 1];
    }
  }

  lemma {:induction false} TrimEndCuts(s: string, space: char -> bool)
    ensures var t := TrimEnd(s, space);
      && |t| <= |s| && s[..|t|] == t && (forall i | |t| <= i < |s| :: space(s[i])) && (t != "" ==> !space(t[|t| - 1]))
    decreases |s|
  {
    if s != [] && space(s[|s| - 1]) {
      TrimEndCuts(s[..|s| - 1], space);
    }
  }

  lemma ThreePieces(s: string, u: string, t: string)
    requires |t| <= |u| <= |s| && s[|s| - |u|..] == u && u[..|t|] == t
    ensures s == s[..|s| - |u|] + t + u[|t|..]
  {
    var before := s[..|s| - |u|];
    assert s == before + u;
    assert u == t + u[|t|..];
    assert before + (t + u[|t|..]) == before + t + u[|t|..];
  }

  lemma TrimEnds(s: string, u: string, t: string, space: char -> bool)
    requires u == TrimStart(s, space) && t == TrimEnd(u, space)
    ensures |t| <= |u| <= |s| && s[|s| - |u|..] == u && u[..|t|] == t
    ensures (forall i | 0 <= i < |s| - |u| :: space(s[i])) && (forall i | |t| <= i < |u| :: space(u[i]))
    ensures t != "" ==> !space(t[0]) && !space(t[|t| - 1])
  {
    TrimStartCuts(s, space);
    TrimEndCuts(u, space);
    assert t != "" ==> u[..|t|][0] == u[0];
  }

  /** Trimming cuts the space at both ends, all of it and nothing else. */
  lemma TrimCuts(s: string, space: char -> bool) returns (before: string, after: string)
    ensures s == before + Trim(s, space) + after
    ensures (forall c | c in before :: space(c)) && (forall c | c in after :: space(c))
    ensures var t := Trim(s, space); t != "" ==> !space(t[0]) && !space(t[|t| - 1])
  {
    var u, t := TrimStart(s, space), Trim(s, space);
    TrimEnds(s, u, t, space);
    before, after := s[..|s| - |u|], u[|t|..];
    ThreePieces(s, u, t);
  }
}
