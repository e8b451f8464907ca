/**
 * The line scanner for .env files, written twice in the repository (check-kafka-pems and
 * ensure-kafka-topic), and the printer it undoes.
 */
module EnvScanner {
  import opened Prelude
  import opened Text

  // What `.` does not match and what ends a line for `^` and `$` in multi-line mode.
  predicate LineTerminator(c: char) {
    c == '\n' || c == '\r' || c == '\U{2028}' || c == '\U{2029}'
  }

  predicate NoTerminator(s: string) {
    forall c | c in s :: !LineTerminator(c)
  }

  predicate KeyStart(c: char) {
    'A' <= c <= 'Z' || c == '_'
  }

  predicate KeyChar(c: char) {
    KeyStart(c) || '0' <= c <= '9'
  }

  predicate IsKey(k: string) {
    k != [] && KeyStart(k[0]) && forall c | c in k :: KeyChar(c)
  }

  // [A-Z_][A-Z0-9_]*
  lemma IsKeyExactlyWhen(k: string)
    ensures IsKey(k) <==>
      && k != "" && ('A' <= k[0] <= 'Z' || k[0] == '_')
      && forall i | 0 <= i < |k| :: 'A' <= k[i] <= 'Z' || '0' <= k[i] <= '9' || k[i] == '_'
  {
    assert forall i | 0 <= i < |k| :: k[i] in k;
  }

  datatype Header = Header(key: string, val: string)

  // How many key characters the line starts with.
  function KeyRun(line: string): (n: nat)
    ensures n <= |line| && (forall i | 0 <= i < n :: KeyChar(line[i])) && (n < |line| ==> !KeyChar(line[n]))
  {
    if line == [] || !KeyChar(line[0]) then 0
    else
      var n := KeyRun(line[1..]);
      n + 1
  }

  // ^([A-Z_][A-Z0-9_]*)=(.*)$
  function HeaderOf(line: string): Option<Header> {
    var n := KeyRun(line);
    if n > 0 && KeyStart(line[0]) && n < |line| && line[n] == '=' && NoTerminator(line[n + 1..]) then
      Some(Header(line[..n], line[n + 1..]))
    else None
  }

  lemma HeaderShape(line: string)
    requires HeaderOf(line).Some?
    ensures var h := HeaderOf(line).value; IsKey(h.key) && NoTerminator(h.val) && line == h.key + "=" + h.val
  {
    var n := KeyRun(line);
    assert line[..n] != [] && line[..n][0] == line[0];
    assert line == line[..n] + "=" + line[n + 1..];
  }

  // Only one way to read a header.
  lemma HeaderIsRead(key: string, val: string)
    requires IsKey(key)
    ensures HeaderOf(key + "=" + val) == if NoTerminator(val) then Some(Header(key, val)) else None
  {
    var line := key + "=" + val;
    var n := KeyRun(line);
    assert forall i | 0 <= i < |key| :: line[i] == key[i] && key[i] in key;
    assert line[|key|] == '=';
    assert n == |key|;
    assert line[..n] == key && line[n + 1..] == val;
  }

  predicate EndsInQuote(s: string) {
    s != [] && s[|s| - 1] == '"'
  }

  function Unquoted(s: string): string
    requires EndsInQuote(s)
  {
    s[..|s| - 1]
  }

  // Where a quoted block whose later lines start at i ends: after its closing line, or at the end.
  function BlockEnd(lines: seq<string>, i: nat): (j: nat)
    requires i <= |lines|
    ensures i <= j <= |lines|
    decreases |lines| - i
  {
    if i == |lines| then i else if EndsInQuote(lines[i]) then i + 1 else BlockEnd(lines, i + 1)
  }

  function Block(lines: seq<string>, i: nat): seq<string>
    requires i <= |lines|
    decreases |lines| - i
  {
    if i == |lines| then []
    else if EndsInQuote(lines[i]) then [Unquoted(lines[i])]
    else [lines[i]] + Block(lines, i + 1)
  }

  // The value that a header's text starts, and where the next header may be.
  function ValueAt(lines: seq<string>, i: nat, text: string): (r: (string, nat))
    requires i <= |lines|
    ensures i <= r.1 <= |lines|
  {
    if text == [] || text[0] != '"' then (text, i)
    else if EndsInQuote(text[1..]) then (Unquoted(text[1..]), i)
    else (Join([text[1..]] + Block(lines, i)), BlockEnd(lines, i))
  }

  function Scan(lines: seq<string>, i: nat, out: map<string, string>): map<string, string>
    requires i <= |lines|
    decreases |lines| - i
  {
    if i == |lines| then out
    else
      var h := HeaderOf(lines[i]);
      if h.None? then Scan(lines, i + 1, out)
      else
        var (val, j) := ValueAt(lines, i + 1, h.value.val);
        Scan(lines, j, out[h.value.key := val])
  }

  function Parse(raw: string): map<string, string> {
    Scan(Split(raw), 0, map[])
  }

  lemma ScanHeader(lines: seq<string>, i: nat, out: map<string, string>, key: string, text: string, val: string, j: nat)
    requires i < |lines| && HeaderOf(lines[i]) == Some(Header(key, text)) && ValueAt(lines, i + 1, text) == (val, j)
    ensures Scan(lines, i, out) == Scan(lines, j, out[key := val])
  {}

  // The inner loop: the lines that follow an opening one.
  method ReadBlock(lines: seq<string>, from: nat, first: string)
    returns (val: string, stop: nat, ghost taken: seq<string>)
    requires from <= |lines|
    ensures stop == BlockEnd(lines, from) && val == Join([first] + Block(lines, from))
    ensures taken == lines[from..stop]
  {
    var i, buf := from, [first];
    taken := [];
    while i < |lines|
      invariant from <= i <= |lines| && taken == lines[from..i]
      invariant BlockEnd(lines, from) == BlockEnd(lines, i)
      invariant [first] + Block(lines, from) == buf + Block(lines, i)
    {
      var next := lines[i];
      taken := taken + [next];
      if EndsInQuote(next) {
        buf := buf + [Unquoted(next)];
        return Join(buf), i + 1, taken;
      }
      buf := buf + [next];
      i := i + 1;
    }
    assert buf + [] == buf;
    val, stop := Join(buf), i;
  }

  // What a header's text stands for, with the lines it runs over.
  method ReadValue(lines: seq<string>, from: nat, text: string)
    returns (val: string, stop: nat, ghost taken: seq<string>)
    requires from <= |lines|
    ensures (val, stop) == ValueAt(lines, from, text)
    ensures from <= stop <= |lines| && taken == lines[from..stop]
  {
    val, stop, taken := text, from, [];
    if val != [] && val[0] == '"' {
      val := val[1..];
      if EndsInQuote(val) {
        val := Unquoted(val);
      } else {
        val, stop, taken := ReadBlock(lines, from, val);
      }
    }
  }

  lemma SlicesMeet(lines: seq<string>, i: nat, j: nat)
    requires i <= j <= |lines|
    ensures lines[..i] + lines[i..j] == lines[..j]
  {}

  // The outer loop. `taken` records each line as a loop takes it, outer or inner.
  method ReadLines(lines: seq<string>) returns (out: map<string, string>, ghost taken: seq<string>)
    ensures out == Scan(lines, 0, map[])
    ensures forall ps | AllReadable(ps) && lines == Split(FileText(ps)) :: out == EntriesOf(ps, map[])
    ensures taken == lines
  {
    out, taken := map[], [];
    var i := 0;
    ghost var goal := Scan(lines, 0, map[]);
    while i < |lines|
      invariant 0 <= i <= |lines| && taken == lines[..i]
      invariant Scan(lines, i, out) == goal
    {
      var m := HeaderOf(lines[i]);
      ghost var from := i;
      taken := taken + [lines[i]];
      i := i + 1;
      if m.Some? {
        var key, val := m.value.key, m.value.val;
        ghost var more;
        val, i, more := ReadValue(lines, i, val);
        taken := taken + more;
        SlicesMeet(lines, from + 1, i);
        ScanHeader(lines, from, out, key, m.value.val, val, i);
        out := out[key := val];
      }
    }
    LinesAreRead(lines);
  }

  /** loadEnv and parseEnv: on every input the two loops end, and take each line exactly once, in
      order. */
  method LoadEnv(raw: string) returns (out: map<string, string>, ghost taken: seq<string>)
    ensures out == Parse(raw)
    ensures taken == Split(raw)
    ensures forall ps | AllReadable(ps) && raw == FileText(ps) :: out == EntriesOf(ps, map[])
  {
    out, taken := ReadLines(Split(raw));
  }

  /* ---------- the printer ---------- */

  datatype Entry = Entry(key: string, value: string)

  function PrintEntry(e: Entry): string {
    e.key + "=\"" + e.value + "\""
  }

  // KEY="value" lines; `tail` follows the last.
  function Render(es: seq<Entry>, tail: string): string {
    if es == [] then ""
    else if |es| == 1 then PrintEntry(es[0]) + tail
    else PrintEntry(es[0]) + "\n" + Render(es[1..], tail)
  }

  function LastWins(es: seq<Entry>, out: map<string, string>): map<string, string> {
    if es == [] then out else LastWins(es[1..], out[es[0].key := es[0].value])
  }

  // What the scanner can read back: the first line is one `.*`, and no line before the last looks
  // like a closing one.
  predicate Printable(value: string) {
    var lines := Split(value);
    NoTerminator(lines[0]) && forall i | 0 <= i < |lines| - 1 :: !EndsInQuote(lines[i])
  }

  // The lines an entry is printed on.
  function EntryLines(e: Entry): seq<string> {
    var ls := Split(e.value);
    if |ls| == 1 then [e.key + "=\"" + ls[0] + "\""]
    else [e.key + "=\"" + ls[0]] + ls[1..|ls| - 1] + [ls[|ls| - 1] + "\""]
  }

  lemma {:induction false} JoinFirst(p: string, first: string, rest: seq<string>)
    ensures Join([p + first] + rest) == p + Join([first] + rest)
  {
    if rest != [] {
      assert ([p + first] + rest)[1..] == rest && ([first] + rest)[1..] == rest;
    }
  }

  lemma {:induction false} JoinLast(front: seq<string>, last: string, q: string)
    ensures Join(front + [last + q]) == Join(front + [last]) + q
  {
    if front != [] {
      JoinLast(front[1..], last, q);
      assert (front + [last + q])[1..] == front[1..] + [last + q];
      assert (front + [last])[1..] == front[1..] + [last];
      assert front[0] + "\n" + (Join(front[1..] + [last]) + q) == (front[0] + "\n" + Join(front[1..] + [last])) + q;
    }
  }

  lemma {:induction false} JoinEntry(e: Entry)
    ensures Join(EntryLines(e)) == PrintEntry(e)
  {
    var ls := Split(e.value);
    JoinSplit(e.value);
    var p := e.key + "=\"";
    if |ls| == 1 {
      assert ls == [e.value];
    } else {
      var first, mid, last := ls[0], ls[1..|ls| - 1], ls[|ls| - 1];
      assert ls == [first] + (mid + [last]);
      JoinFirst(p, first, mid + [last]);
      assert [p + first] + (mid + [last]) == [p + first] + mid + [last];
      JoinLast([p + first] + mid, last, "\"");
    }
  }

  lemma EntryLinesWhole(e: Entry)
    requires IsKey(e.key)
    ensures forall l | l in EntryLines(e) :: '\n' !in l
  {
    var ls := Split(e.value);
    assert forall c | c in e.key :: KeyChar(c);
    assert '\n' !in e.key + "=\"";
    assert forall i | 0 <= i < |ls| :: ls[i] in ls;
  }

  lemma SplitEntry(e: Entry)
    requires IsKey(e.key)
    ensures Split(PrintEntry(e)) == EntryLines(e)
  {
    JoinEntry(e);
    EntryLinesWhole(e);
    SplitJoin(EntryLines(e));
  }

  /* ---------- reading back what was printed ---------- */

  lemma {:induction false} BlockShift(all: seq<string>, n: nat, b: seq<string>, i: nat)
    requires n <= |all| && all[n..] == b && i <= |b|
    ensures BlockEnd(all, n + i) == n + BlockEnd(b, i)
    ensures Block(all, n + i) == Block(b, i)
    decreases |b| - i
  {
    if i < |b| {
      assert all[n + i] == b[i];
      BlockShift(all, n, b, i + 1);
    }
  }

  lemma ValueShift(all: seq<string>, n: nat, b: seq<string>, i: nat, text: string)
    requires n <= |all| && all[n..] == b && i <= |b|
    ensures var (val, j) := ValueAt(b, i, text); ValueAt(all, n + i, text) == (val, n + j)
  {
    BlockShift(all, n, b, i);
  }

  // Lines already taken do not matter.
  lemma {:induction false} ScanFrom(all: seq<string>, n: nat, b: seq<string>, i: nat, out: map<string, string>)
    requires n <= |all| && all[n..] == b && i <= |b|
    ensures Scan(all, n + i, out) == Scan(b, i, out)
    decreases |b| - i
  {
    if i < |b| {
      assert all[n + i] == b[i];
      var h := HeaderOf(b[i]);
      if h.None? {
        ScanFrom(all, n, b, i + 1, out);
      } else {
        HeaderFrom(all, n, b, i, out, h.value.key, h.value.val);
        var (val, j) := ValueAt(b, i + 1, h.value.val);
        ScanFrom(all, n, b, j, out[h.value.key := val]);
      }
    }
  }

  lemma HeaderFrom(all: seq<string>, n: nat, b: seq<string>, i: nat, out: map<string, string>, key: string, text: string)
    requires n <= |all| && all[n..] == b && i < |b| && HeaderOf(b[i]) == Some(Header(key, text))
    ensures var (val, j) := ValueAt(b, i + 1, text); var out' := out[key := val];
            Scan(all, n + i, out) == Scan(all, n + j, out') && Scan(b, i, out) == Scan(b, j, out')
  {
    assert all[n + i] == b[i];
    var (val, j) := ValueAt(b, i + 1, text);
    ValueShift(all, n, b, i + 1, text);
    ScanHeader(b, i, out, key, text, val, j);
    ScanHeader(all, n + i, out, key, text, val, n + j);
  }

  lemma ScanShift(a: seq<string>, b: seq<string>, out: map<string, string>)
    ensures Scan(a + b, |a|, out) == Scan(b, 0, out)
  {
    ScanFrom(a + b, |a|, b, 0, out);
  }

  // Lines that do not close, then one that does.
  lemma {:induction false} BlockOf(before: seq<string>, mid: seq<string>, last: string, rest: seq<string>)
    requires forall i | 0 <= i < |mid| :: !EndsInQuote(mid[i])
    ensures var lines := before + (mid + [last + "\""] + rest); var i := |before|;
      BlockEnd(lines, i) == i + |mid| + 1 && Block(lines, i) == mid + [last]
    decreases |mid|
  {
    var lines := before + (mid + [last + "\""] + rest);
    var i := |before|;
    if mid == [] {
      assert lines[i] == last + "\"" && Unquoted(lines[i]) == last;
    } else {
      assert lines[i] == mid[0];
      BlockOf(before + [mid[0]], mid[1..], last, rest);
      assert lines == (before + [mid[0]]) + (mid[1..] + [last + "\""] + rest);
      assert mid + [last] == [mid[0]] + (mid[1..] + [last]);
    }
  }

  lemma ScanShortEntry(e: Entry, rest: seq<string>, out: map<string, string>)
    requires IsKey(e.key) && NoTerminator(e.value)
    ensures Scan([e.key + "=\"" + e.value + "\""] + rest, 0, out) == Scan(rest, 0, out[e.key := e.value])
  {
    var line := e.key + "=\"" + e.value + "\"";
    var text := "\"" + e.value + "\"";
    assert line == e.key + "=" + text;
    HeaderIsRead(e.key, text);
    assert text[1..] == e.value + "\"" && Unquoted(text[1..]) == e.value;
    assert ([line] + rest)[0] == line;
    ScanShift([line], rest, out[e.key := e.value]);
  }

  lemma ScanLongEntry(e: Entry, first: string, mid: seq<string>, last: string, rest: seq<string>,
                      out: map<string, string>)
    requires IsKey(e.key) && NoTerminator(first) && !EndsInQuote(first)
    requires forall i | 0 <= i < |mid| :: !EndsInQuote(mid[i])
    requires e.value == Join([first] + (mid + [last]))
    ensures Scan([e.key + "=\"" + first] + (mid + [last + "\""] + rest), 0, out) == Scan(rest, 0, out[e.key := e.value])
  {
    var line := e.key + "=\"" + first;
    var lines := [line] + (mid + [last + "\""] + rest);
    var text := "\"" + first;
    assert line == e.key + "=" + text && lines[0] == line;
    HeaderIsRead(e.key, text);
    assert text[1..] == first;
    BlockOf([line], mid, last, rest);
    var out' := out[e.key := e.value];
    var taken := [line] + mid + [last + "\""];
    assert lines == taken + rest;
    ScanShift(taken, rest, out');
    assert ValueAt(lines, 1, text) == (e.value, |taken|);
  }

  lemma ScanEntry(e: Entry, rest: seq<string>, out: map<string, string>)
    requires IsKey(e.key) && Printable(e.value)
    ensures Scan(EntryLines(e) + rest, 0, out) == Scan(rest, 0, out[e.key := e.value])
  {
    var ls := Split(e.value);
    JoinSplit(e.value);
    if |ls| == 1 {
      ScanShortEntry(e, rest, out);
    } else {
      var first, mid, last := ls[0], ls[1..|ls| - 1], ls[|ls| - 1];
      LongEntryLines(e, ls, first, mid, last, rest);
      ScanLongEntry(e, first, mid, last, rest, out);
    }
  }

  lemma LongEntryLines(e: Entry, ls: seq<string>, first: string, mid: seq<string>, last: string, rest: seq<string>)
    requires ls == Split(e.value) && |ls| > 1 && Printable(e.value)
    requires first == ls[0] && mid == ls[1..|ls| - 1] && last == ls[|ls| - 1]
    ensures ls == [first] + (mid + [last])
    ensures EntryLines(e) + rest == [e.key + "=\"" + first] + (mid + [last + "\""] + rest)
    ensures !EndsInQuote(first) && forall i | 0 <= i < |mid| :: !EndsInQuote(mid[i])
  {
    assert forall i | 0 <= i < |mid| :: mid[i] == ls[i + 1];
  }

  ghost predicate AllPrintable(es: seq<Entry>) {
    forall e | e in es :: IsKey(e.key) && Printable(e.value)
  }

  lemma SplitMoreLines(a: string, b: string)
    ensures Split(a + "\n" + b) == Split(a) + Split(b)
  {
    var la, lb := Split(a), Split(b);
    JoinSplit(a);
    JoinSplit(b);
    JoinBoth(la, lb);
    SplitJoin(la + lb);
  }

  lemma {:induction false} JoinBoth(la: seq<string>, lb: seq<string>)
    requires la != [] && lb != []
    ensures Join(la + lb) == Join(la) + "\n" + Join(lb)
  {
    if |la| == 1 {
      assert (la + lb)[1..] == lb;
    } else {
      JoinBoth(la[1..], lb);
      assert (la + lb)[1..] == la[1..] + lb;
      assert la[0] + "\n" + (Join(la[1..]) + "\n" + Join(lb)) == (la[0] + "\n" + Join(la[1..])) + "\n" + Join(lb);
    }
  }

  /** The scanner undoes the printer: any printable keys and values, in any number and with repeats,
      with or without a last newline, parse back to the last-wins map. */
  lemma {:induction false} ScanRendered(es: seq<Entry>, tail: string, out: map<string, string>)
    requires AllPrintable(es) && (tail == "" || tail == "\n")
    ensures Scan(Split(Render(es, tail)), 0, out) == LastWins(es, out)
  {
    if es == [] {
      assert Split("") == [""];
    } else {
      var e := es[0];
      var p := PrintEntry(e);
      SplitEntry(e);
      if |es| == 1 {
        if tail == "" {
          assert p + tail == p && EntryLines(e) + [] == EntryLines(e);
          ScanEntry(e, [], out);
        } else {
          SplitMoreLines(p, "");
          assert p + tail == p + "\n" + "";
          ScanEntry(e, [""], out);
        }
        assert es[1..] == [];
      } else {
        SplitMoreLines(p, Render(es[1..], tail));
        ScanEntry(e, Split(Render(es[1..], tail)), out);
        ScanRendered(es[1..], tail, out[e.key := e.value]);
      }
    }
  }

  lemma RoundTrip(es: seq<Entry>, tail: string)
    requires AllPrintable(es) && (tail == "" || tail == "\n")
    ensures Parse(Render(es, tail)) == LastWins(es, map[])
  {
    ScanRendered(es, tail, map[]);
  }

  /* ---------- whole files ---------- */

  // What a file is made of: quoted entries, unquoted ones, and lines that are no entry, such as
  // comments and blank lines.
  datatype Part = Quoted(entry: Entry) | Bare(key: string, text: string) | Skipped(line: string)

  function PartText(p: Part): string {
    match p
    case Quoted(e) => PrintEntry(e)
    case Bare(key, text) => key + "=" + text
    case Skipped(line) => line
  }

  function FileText(ps: seq<Part>): string {
    if ps == [] then ""
    else if |ps| == 1 then PartText(ps[0])
    else PartText(ps[0]) + "\n" + FileText(ps[1..])
  }

  // KEY=text on one line, in the one way a header can be read.
  ghost predicate IsEntryLine(line: string) {
    exists key, text {:trigger key + "=" + text} :: IsKey(key) && NoTerminator(text) && line == key + "=" + text
  }

  predicate Unquotable(text: string) {
    NoTerminator(text) && (text == "" || text[0] != '"')
  }

  ghost predicate Readable(p: Part) {
    match p
    case Quoted(e) => IsKey(e.key) && Printable(e.value)
    case Bare(key, text) => IsKey(key) && Unquotable(text)
    case Skipped(line) => '\n' !in line && !IsEntryLine(line)
  }

  ghost predicate AllReadable(ps: seq<Part>) {
    forall p | p in ps :: Readable(p)
  }

  // The map that the entries make, the last of equal keys winning.
  function EntriesOf(ps: seq<Part>, out: map<string, string>): map<string, string> {
    if ps == [] then out
    else
      EntriesOf(ps[1..],
        match ps[0]
        case Quoted(e) => out[e.key := e.value]
        case Bare(key, text) => out[key := text]
        case Skipped(_) => out)
  }

  lemma ScanBare(key: string, text: string, rest: seq<string>, out: map<string, string>)
    requires IsKey(key) && Unquotable(text)
    ensures Scan([key + "=" + text] + rest, 0, out) == Scan(rest, 0, out[key := text])
  {
    HeaderIsRead(key, text);
    var lines := [key + "=" + text] + rest;
    ScanHeader(lines, 0, out, key, text, text, 1);
    ScanShift([key + "=" + text], rest, out[key := text]);
  }

  lemma ScanSkipped(line: string, rest: seq<string>, out: map<string, string>)
    requires !IsEntryLine(line)
    ensures Scan([line] + rest, 0, out) == Scan(rest, 0, out)
  {
    if HeaderOf(line).Some? {
      HeaderShape(line);
    }
    ScanShift([line], rest, out);
  }

  lemma BareHasOneLine(key: string, text: string)
    requires IsKey(key) && NoTerminator(text)
    ensures Split(key + "=" + text) == [key + "=" + text]
  {
    assert forall c | c in key :: KeyChar(c);
    SplitLine(key + "=" + text);
  }

  // One part, and then the rest of the file.
  lemma ScanPart(p: Part, rest: seq<string>, out: map<string, string>)
    requires Readable(p)
    ensures Scan(Split(PartText(p)) + rest, 0, out) == Scan(rest, 0, EntriesOf([p], out))
  {
    match p
    case Quoted(e) =>
      SplitEntry(e);
      ScanEntry(e, rest, out);
    case Bare(key, text) =>
      BareHasOneLine(key, text);
      ScanBare(key, text, rest, out);
    case Skipped(line) =>
      SplitLine(line);
      ScanSkipped(line, rest, out);
  }

  lemma {:induction false} ScanParts(ps: seq<Part>, out: map<string, string>)
    requires forall p | p in ps :: Readable(p)
    ensures Scan(Split(FileText(ps)), 0, out) == EntriesOf(ps, out)
  {
    if ps == [] {
      assert Split("") == [""];
    } else if |ps| == 1 {
      assert ps == [ps[0]] && Split(PartText(ps[0])) + [] == Split(PartText(ps[0]));
      ScanPart(ps[0], [], out);
    } else {
      SplitMoreLines(PartText(ps[0]), FileText(ps[1..]));
      ScanPart(ps[0], Split(FileText(ps[1..])), out);
      ScanParts(ps[1..], EntriesOf([ps[0]], out));
    }
  }

  /** A file of quoted entries, unquoted entries, comments and blank lines in any order is read entry
      by entry, each unquoted value as it stands, and the last of equal keys wins. */
  lemma FilesAreRead(ps: seq<Part>)
    requires AllReadable(ps)
    ensures Parse(FileText(ps)) == EntriesOf(ps, map[])
  {
    ScanParts(ps, map[]);
  }

  lemma LinesAreRead(lines: seq<string>)
    ensures forall ps | AllReadable(ps) && lines == Split(FileText(ps)) :: Scan(lines, 0, map[]) == EntriesOf(ps, map[])
  {
    forall ps | AllReadable(ps) && lines == Split(FileText(ps)) ensures Scan(lines, 0, map[]) == EntriesOf(ps, map[]) {
      ScanParts(ps, map[]);
    }
  }

  /** One unquoted entry is read as it stands exactly when its text has no line terminator and does
      not begin with a quote. */
  lemma BareIsReadExactlyWhen(key: string, text: string)
    requires IsKey(key) && '\n' !in text
    ensures Parse(key + "=" + text) == map[key := text] <==> Unquotable(text)
  {
    var line := key + "=" + text;
    assert forall c | c in key :: KeyChar(c);
    SplitLine(line);
    HeaderIsRead(key, text);
    if Unquotable(text) {
      assert [line] + [] == [line];
      ScanBare(key, text, [], map[]);
    } else if NoTerminator(text) {
      OpenQuoteIsCut(line, key, text);
    } else {
      assert Scan([line], 0, map[]) == map[];
      assert key in map[key := text];
    }
  }

  lemma OpenQuoteIsCut(line: string, key: string, text: string)
    requires HeaderOf(line) == Some(Header(key, text)) && text != "" && text[0] == '"'
    ensures Scan([line], 0, map[]) != map[key := text]
  {
    var val := if EndsInQuote(text[1..]) then Unquoted(text[1..]) else text[1..];
    assert [text[1..]] + Block([line], 1) == [text[1..]];
    ScanHeader([line], 0, map[], key, text, val, 1);
    var out: map<string, string> := map[];
    assert Scan([line], 0, out)[key] == val && |val| < |text|;
  }

  // Blank lines, comments and anything else that does not begin like a key.
  lemma NoKeyNoEntry(line: string)
    requires line == "" || !KeyStart(line[0])
    ensures !IsEntryLine(line)
  {}

  lemma {:induction false} BlockToTheEnd(lines: seq<string>, i: nat)
    requires i <= |lines| && forall j | i <= j < |lines| :: !EndsInQuote(lines[j])
    ensures Block(lines, i) == lines[i..] && BlockEnd(lines, i) == |lines|
    decreases |lines| - i
  {
    if i < |lines| {
      BlockToTheEnd(lines, i + 1);
    }
  }

  lemma UnclosedLines(key: string, value: string, first: string, rest: seq<string>)
    requires IsKey(key) && Split(value) == [first] + rest
    ensures Split(key + "=\"" + value) == [key + "=\"" + first] + rest
  {
    var p := key + "=\"";
    var lines := [p + first] + rest;
    JoinSplit(value);
    JoinFirst(p, first, rest);
    assert forall c | c in key :: KeyChar(c);
    assert first in Split(value);
    assert forall l | l in rest :: l in Split(value);
    SplitJoin(lines);
  }

  lemma ScanUnclosed(key: string, first: string, rest: seq<string>, lines: seq<string>)
    requires IsKey(key) && NoTerminator(first) && !EndsInQuote(first) && forall j | 0 <= j < |rest| :: !EndsInQuote(rest[j])
    requires lines == [key + "=\"" + first] + rest
    ensures Scan(lines, 0, map[]) == map[key := Join([first] + rest)]
  {
    var text := "\"" + first;
    assert lines[0] == key + "=" + text && text[1..] == first;
    HeaderIsRead(key, text);
    BlockToTheEnd(lines, 1);
    assert lines[1..] == rest;
    ScanHeader(lines, 0, map[], key, text, Join([first] + rest), |lines|);
  }

  /** A quote that is never closed takes the rest of the file for its value. */
  lemma UnclosedTakesTheRest(key: string, value: string)
    requires IsKey(key) && NoTerminator(Split(value)[0]) && forall l | l in Split(value) :: !EndsInQuote(l)
    ensures Parse(key + "=\"" + value) == map[key := value]
  {
    var ls := Split(value);
    var first, rest := ls[0], ls[1..];
    assert ls == [first] + rest;
    JoinSplit(value);
    UnclosedLines(key, value, first, rest);
    ScanUnclosed(key, first, rest, [key + "=\"" + first] + rest);
  }

  /* ---------- and only then ---------- */

  // The characters from line i on, counting each line's newline.
  function Total(lines: seq<string>, i: nat): nat
    requires i <= |lines|
    decreases |lines| - i
  {
    if i == |lines| then 0 else |lines[i]| + 1 + Total(lines, i + 1)
  }

  lemma {:induction false} TotalOfJoin(lines: seq<string>, i: nat)
    requires i < |lines|
    ensures Total(lines, i) == |Join(lines[i..])| + 1
    decreases |lines| - i
  {
    if i + 1 < |lines| {
      TotalOfJoin(lines, i + 1);
      assert lines[i..][1..] == lines[i + 1..];
    }
  }

  lemma {:induction false} TotalLater(lines: seq<string>, i: nat, j: nat)
    requires i <= j <= |lines|
    ensures Total(lines, j) <= Total(lines, i)
    decreases j - i
  {
    if i < j {
      TotalLater(lines, i + 1, j);
    }
  }

  // A block's value is no longer than the lines it takes.
  lemma {:induction false} BlockFits(lines: seq<string>, i: nat, first: string)
    requires i <= |lines|
    ensures |Join([first] + Block(lines, i))| + Total(lines, BlockEnd(lines, i)) <= |first| + Total(lines, i)
    decreases |lines| - i
  {
    if i == |lines| {
      assert [first] + [] == [first];
    } else {
      var l := if EndsInQuote(lines[i]) then Unquoted(lines[i]) else lines[i];
      var rest := if EndsInQuote(lines[i]) then [] else Block(lines, i + 1);
      assert ([first] + ([l] + rest))[1..] == [l] + rest;
      if EndsInQuote(lines[i]) {
        assert [l] + rest == [l];
      } else {
        BlockFits(lines, i + 1, l);
      }
    }
  }

  // A value the scan puts in the map fits in the lines it read.
  lemma {:induction false} ScanFits(lines: seq<string>, i: nat, out: map<string, string>, k: string)
    requires i <= |lines| && k in Scan(lines, i, out)
    ensures var v := Scan(lines, i, out)[k]; (k in out && v == out[k]) || |k| + 2 + |v| <= Total(lines, i)
    decreases |lines| - i
  {
    if i < |lines| {
      var h := HeaderOf(lines[i]);
      if h.None? {
        ScanFits(lines, i + 1, out, k);
      } else {
        var Header(key, text) := h.value;
        var (val, j) := ValueAt(lines, i + 1, text);
        ScanFits(lines, j, out[key := val], k);
        TotalLater(lines, i, j);
        if text != [] {
          BlockFits(lines, i + 1, text[1..]);
        }
      }
    }
  }

  // A block that closes before the last line leaves that line's characters out.
  lemma {:induction false} ClosesEarly(lines: seq<string>, i: nat, j: nat)
    requires i <= j < |lines| && EndsInQuote(lines[j])
    ensures BlockEnd(lines, i) <= j + 1
    decreases j - i
  {
    if !EndsInQuote(lines[i]) {
      ClosesEarly(lines, i + 1, j);
    }
  }

  // The first line is no header, and what follows is too short to hold the value.
  lemma NoHeaderFails(lines: seq<string>, key: string, value: string)
    requires lines != [] && HeaderOf(lines[0]).None? && key != []
    requires Total(lines, 1) <= |value| + 1
    ensures key in Scan(lines, 0, map[]) ==> |Scan(lines, 0, map[])[key]| < |value|
  {
    if key in Scan(lines, 1, map[]) {
      ScanFits(lines, 1, map[], key);
    }
  }

  // The first value is cut short, and what follows is too short to mend it.
  lemma EarlyCloseFails(lines: seq<string>, text: string, key: string, value: string, m: nat, t: nat)
    requires lines != [] && HeaderOf(lines[0]) == Some(Header(key, text)) && key != []
    requires text != [] && text[0] == '"' && ValueAt(lines, 1, text).1 <= m <= |lines|
    requires t <= 1 && Total(lines, m) >= 2 + t && Total(lines, 1) == |value| - (|text| - 1) + 1 + t
    ensures key in Scan(lines, 0, map[]) ==> |Scan(lines, 0, map[])[key]| < |value|
  {
    var (val, k) := ValueAt(lines, 1, text);
    BlockFits(lines, 1, text[1..]);
    TotalLater(lines, k, m);
    TotalLater(lines, 1, k);
    if key in Scan(lines, k, map[key := val]) {
      ScanFits(lines, k, map[key := val], key);
    }
  }

  // What an entry is printed as, and its first header.
  lemma PrintedHeader(e: Entry, tail: string, lines: seq<string>, text: string)
    requires IsKey(e.key) && (tail == "" || tail == "\n")
    requires lines == EntryLines(e) + if tail == "" then [] else [""]
    requires text == "\"" + if |Split(e.value)| == 1 then Split(e.value)[0] + "\"" else Split(e.value)[0]
    ensures Parse(PrintEntry(e) + tail) == Scan(lines, 0, map[]) && lines != []
    ensures HeaderOf(lines[0]) == if NoTerminator(text) then Some(Header(e.key, text)) else None
  {
    PrintedLines(e, tail);
    assert lines[0] == e.key + "=" + text;
    HeaderIsRead(e.key, text);
  }

  lemma NotPrintableFails(e: Entry, tail: string)
    requires IsKey(e.key) && !Printable(e.value) && (tail == "" || tail == "\n")
    ensures Parse(PrintEntry(e) + tail) != map[e.key := e.value]
  {
    var ls := Split(e.value);
    var extra := if tail == "" then [] else [""];
    var lines := EntryLines(e) + extra;
    var text := "\"" + if |ls| == 1 then ls[0] + "\"" else ls[0];
    PrintedHeader(e, tail, lines, text);
    PrintedTotal(e, extra);
    if !NoTerminator(ls[0]) {
      var c :| c in ls[0] && LineTerminator(c);
      assert c in text;
      NoHeaderFails(lines, e.key, e.value);
    } else {
      var j :| 0 <= j < |ls| - 1 && EndsInQuote(ls[j]);
      ClosesBefore(e, extra, j);
      EarlyCloseFails(lines, text, e.key, e.value, |ls| - 1, |extra|);
    }
  }

  lemma ClosesBefore(e: Entry, extra: seq<string>, j: nat)
    requires var ls := Split(e.value); j < |ls| - 1 && EndsInQuote(ls[j])
    ensures var ls := Split(e.value); var lines := EntryLines(e) + extra;
      1 <= |lines| && ValueAt(lines, 1, "\"" + ls[0]).1 <= |ls| - 1
  {
    var ls := Split(e.value);
    var lines := EntryLines(e) + extra;
    assert ("\"" + ls[0])[1..] == ls[0];
    if j > 0 {
      assert lines[j] == ls[j];
      ClosesEarly(lines, 1, j);
    }
  }

  lemma PrintedLines(e: Entry, tail: string)
    requires IsKey(e.key) && (tail == "" || tail == "\n")
    ensures Split(PrintEntry(e) + tail) == EntryLines(e) + if tail == "" then [] else [""]
  {
    SplitEntry(e);
    if tail == "" {
      assert PrintEntry(e) + tail == PrintEntry(e);
    } else {
      SplitMoreLines(PrintEntry(e), "");
      assert PrintEntry(e) + tail == PrintEntry(e) + "\n" + "";
    }
  }

  // The characters after the first line, and after the line before the last.
  lemma PrintedTotal(e: Entry, extra: seq<string>)
    requires IsKey(e.key) && (extra == [] || extra == [""])
    ensures var ls := Split(e.value); var lines := EntryLines(e) + extra;
      && |lines| == |ls| + |extra|
      && Total(lines, 1) == |e.value| - |ls[0]| + (if |ls| == 1 then 0 else 1) + |extra|
      && (|ls| > 1 ==> Total(lines, |ls| - 1) >= 2 + |extra|)
  {
    var ls := Split(e.value);
    JoinSplit(e.value);
    var lines := EntryLines(e) + extra;
    if extra == [""] {
      assert lines[|ls|] == "" && Total(lines, |ls|) == 1;
    }
    if |ls| > 1 {
      var mid, last := ls[1..|ls| - 1], ls[|ls| - 1];
      TotalOfJoin(ls, 1);
      TotalSame(ls, lines, 1);
      assert lines[|ls| - 1] == last + "\"";
    }
  }

  lemma {:induction false} TotalSame(ls: seq<string>, lines: seq<string>, i: nat)
    requires 0 < i < |ls| <= |lines|
    requires forall j | i <= j < |ls| - 1 :: lines[j] == ls[j]
    requires lines[|ls| - 1] == ls[|ls| - 1] + "\""
    ensures Total(lines, i) == Total(ls, i) + 1 + Total(lines, |ls|)
    decreases |ls| - i
  {
    if i + 1 < |ls| {
      TotalSame(ls, lines, i + 1);
    }
  }

  /** One entry comes back exactly when its value is printable. */
  lemma RoundTripExactlyWhen(e: Entry, tail: string)
    requires IsKey(e.key) && (tail == "" || tail == "\n")
    ensures Parse(PrintEntry(e) + tail) == map[e.key := e.value] <==> Printable(e.value)
  {
    if Printable(e.value) {
      RoundTrip([e], tail);
      assert LastWins([e], map[]) == LastWins([], map[e.key := e.value]);
    } else {
      NotPrintableFails(e, tail);
    }
  }
}
