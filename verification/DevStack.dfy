/**
 * The dev orchestrator: the line prefixer of one child stream, and the machine that stops the
 * children and chooses the exit code.
 */
module DevStack {
  import opened Prelude
  import Text

  /* ---------- prefixing lines ---------- */

  // What one stream should print: the tag before each line and a newline after it.  A text that
  // ends in a newline has no further line.
  function Printed(tag: string, text: string): string {
    var lines := Text.Split(text);
    Tagged(tag, if lines[|lines| - 1] == "" then lines[..|lines| - 1] else lines)
  }

  function Tagged(tag: string, lines: seq<string>): string {
    if lines == [] then "" else tag + lines[0] + "\n" + Tagged(tag, lines[1..])
  }

  function Flat(parts: seq<string>): string {
    if parts == [] then "" else parts[0] + Flat(parts[1..])
  }

  // The lines already ended, and the text after them.
  function Ended(text: string): seq<string> {
    var lines := Text.Split(text);
    lines[..|lines| - 1]
  }

  function Open(text: string): string {
    var lines := Text.Split(text);
    lines[|lines| - 1]
  }

  lemma {:induction false} FlatAppend(parts: seq<string>, p: string)
    ensures Flat(parts + [p]) == Flat(parts) + p
  {
    if parts != [] {
      FlatAppend(parts[1..], p);
      assert (parts + [p])[1..] == parts[1..] + [p];
    }
  }

  lemma {:induction false} TaggedAppend(tag: string, lines: seq<string>, l: string)
    ensures Tagged(tag, lines + [l]) == Tagged(tag, lines) + tag + l + "\n"
  {
    if lines != [] {
      TaggedAppend(tag, lines[1..], l);
      assert (lines + [l])[1..] == lines[1..] + [l];
    } else {
      assert [l][1..] == [];
    }
  }

  // The first line, when a newline ends it.
  lemma CutFirst(a: string, lines: seq<string>) returns (first: string, rest: string)
    requires lines == Text.Split(a) && |lines| > 1
    ensures a == first + "\n" + rest && '\n' !in first && |rest| < |a|
    ensures first == lines[0] && Text.Split(rest) == lines[1..]
  {
    Text.JoinSplit(a);
    first, rest := lines[0], Text.Join(lines[1..]);
    Text.SplitJoin(lines[1..]);
  }

  lemma FirstAndRest(lines: seq<string>, more: seq<string>)
    requires |lines| > 1
    ensures [lines[0]] + (lines[1..][..|lines| - 2] + more) == lines[..|lines| - 1] + more
    ensures lines[1..][|lines| - 2] == lines[|lines| - 1]
  {}

  // More text only extends the line that is still open.
  lemma {:induction false} SplitMore(a: string, b: string, lines: seq<string>)
    requires lines == Text.Split(a)
    ensures Text.Split(a + b) == lines[..|lines| - 1] + Text.Split(lines[|lines| - 1] + b)
    decreases |a|
  {
    if |lines| == 1 {
      Text.JoinSplit(a);
      assert lines == [a] && lines[..0] == [];
    } else {
      var first, rest := CutFirst(a, lines);
      var open := lines[|lines| - 1];
      FirstAndRest(lines, Text.Split(open + b));
      SplitMore(rest, b, lines[1..]);
      LineThenMore(a, b, first, rest);
    }
  }

  lemma LineThenMore(a: string, b: string, first: string, rest: string)
    requires a == first + "\n" + rest && '\n' !in first
    ensures Text.Split(a + b) == [first] + Text.Split(rest + b)
  {
    Text.SplitAfterLine(first, rest + b);
    assert a + b == first + "\n" + (rest + b);
  }

  lemma WriteLine(tag: string, writes: seq<string>, done: seq<string>, line: string)
    requires Flat(writes) == Tagged(tag, done)
    ensures Flat(writes + [tag + (line + "\n")]) == Tagged(tag, done + [line])
  {
    FlatAppend(writes, tag + (line + "\n"));
    TaggedAppend(tag, done, line);
    assert Tagged(tag, done) + (tag + (line + "\n")) == Tagged(tag, done) + tag + line + "\n";
  }

  // One round of the loop: the first line leaves the buffer.
  lemma CutLine(all: seq<string>, done: seq<string>, buffer: string, idx: nat, line: string, rest: string)
    requires idx < |buffer| && buffer[idx] == '\n' && '\n' !in buffer[..idx]
    requires line == buffer[..idx] && rest == buffer[idx + 1..] && all == done + Text.Split(buffer)
    ensures all == done + [line] + Text.Split(rest)
  {
    Text.SplitAt(buffer, idx);
    var more := Text.Split(rest);
    assert done + ([line] + more) == done + [line] + more;
  }

  // After the last round the buffer is the open line.
  lemma AllCut(text: string, done: seq<string>, buffer: string)
    requires '\n' !in buffer && Text.Split(text) == done + Text.Split(buffer)
    ensures Ended(text) == done && Open(text) == buffer
  {
    Text.SplitLine(buffer);
  }

  class Prefixer {
    const tag: string
    var buffer: string
    var writes: seq<string>
    ghost var received: string

    ghost predicate Valid()
      reads this
    {
      && buffer == Open(received)
      && Flat(writes) == Tagged(tag, Ended(received))
    }

    constructor (t: string)
      ensures Valid() && tag == t && received == "" && writes == []
    {
      tag := t;
      buffer, writes, received := "", [], "";
    }

    method IndexOfNewline() returns (idx: int)
      ensures idx < 0 <==> '\n' !in buffer
      ensures idx >= 0 ==> idx < |buffer| && buffer[idx] == '\n' && '\n' !in buffer[..idx]
    {
      idx := 0;
      while idx < |buffer|
        invariant 0 <= idx <= |buffer| && '\n' !in buffer[..idx]
      {
        if buffer[idx] == '\n' {
          return;
        }
        idx := idx + 1;
      }
      assert buffer[..idx] == buffer;
      idx := -1;
    }

    /** on('data') */
    method OnData(chunk: string)
      requires Valid()
      modifies this
      ensures Valid() && received == old(received) + chunk
      ensures old(writes) <= writes
    {
      SplitMore(received, chunk, Text.Split(received));
      received := received + chunk;
      ghost var all, done := Text.Split(received), Ended(old(received));
      buffer := buffer + chunk;
      var idx := IndexOfNewline();
      while idx >= 0
        invariant idx < 0 <==> '\n' !in buffer
        invariant idx >= 0 ==> idx < |buffer| && buffer[idx] == '\n' && '\n' !in buffer[..idx]
        invariant all == done + Text.Split(buffer)
        invariant Flat(writes) == Tagged(tag, done) && old(writes) <= writes
        invariant received == old(received) + chunk
        decreases |buffer|
      {
        ghost var line, rest := buffer[..idx], buffer[idx + 1..];
        CutLine(all, done, buffer, idx, line, rest);
        WriteLine(tag, writes, done, line);
        assert buffer[..idx + 1] == line + "\n";
        writes := writes + [tag + buffer[..idx + 1]];
        buffer := buffer[idx + 1..];
        done := done + [line];
        idx := IndexOfNewline();
      }
      AllCut(received, done, buffer);
    }

    /** on('end') */
    method OnEnd()
      requires Valid()
      modifies this
      ensures received == old(received) && Flat(writes) == Printed(tag, received)
    {
      if |buffer| > 0 {
        FlatAppend(writes, tag + buffer + "\n");
        TaggedAppend(tag, Ended(received), buffer);
        assert Ended(received) + [buffer] == Text.Split(received);
        writes := writes + [tag + buffer + "\n"];
      }
    }
  }

  /** Every way of cutting the text into chunks prints the same characters. */
  method PipeAll(tag: string, chunks: seq<string>) returns (out: seq<string>)
    ensures Flat(out) == Printed(tag, Flat(chunks))
  {
    var p := new Prefixer(tag);
    var i := 0;
    assert chunks[..0] == [];
    while i < |chunks|
      invariant 0 <= i <= |chunks| && p.Valid() && p.tag == tag && p.received == Flat(chunks[..i])
      invariant fresh(p)
    {
      p.OnData(chunks[i]);
      FlatAppend(chunks[..i], chunks[i]);
      assert chunks[..i + 1] == chunks[..i] + [chunks[i]];
      i := i + 1;
    }
    assert chunks[..i] == chunks;
    p.OnEnd();
    out := p.writes;
  }

  /** Printed, read back without its tags, is the text it was given, up to one final newline. */
  lemma {:induction false} PrintedKeepsText(text: string)
    ensures Printed("", text) == if Open(text) == "" then text else text + "\n"
  {
    var lines := Text.Split(text);
    Text.JoinSplit(text);
    TaggedIsJoin(lines);
    TaggedAppend("", Ended(text), Open(text));
    assert lines == Ended(text) + [Open(text)];
    if Open(text) == "" {
      var t := Tagged("", Ended(text));
      assert t + "" + "" + "\n" == t + "\n";
      assert t + "\n" == text + "\n";
      assert t == (t + "\n")[..|t|];
      assert text == (text + "\n")[..|text|];
      assert |t| == |text|;
    }
  }

  lemma {:induction false} TaggedIsJoin(lines: seq<string>)
    requires lines != []
    ensures Tagged("", lines) == Text.Join(lines) + "\n"
  {
    if |lines| == 1 {
      assert lines[1..] == [];
      assert "" + lines[0] + "\n" + "" == lines[0] + "\n";
    } else {
      TaggedIsJoin(lines[1..]);
      assert "" + lines[0] == lines[0];
      assert lines[0] + "\n" + (Text.Join(lines[1..]) + "\n") == (lines[0] + "\n" + Text.Join(lines[1..])) + "\n";
    }
  }

  /* ---------- stopping ---------- */

  // How a child ended: its exit code, or null with a signal name.
  datatype Exit = Exit(code: Option<int>, signal: bool)

  function CodeOf(e: Exit): int {
    if e.code.Some? then e.code.value else if e.signal then 0 else 1
  }

  datatype Event = Signal | ChildExit(child: nat, how: Exit)

  class Supervisor {
    const children: nat
    var shuttingDown: bool
    var firstExitCode: Option<int>
    var pendingExits: int
    var exitCodes: map<nat, Option<int>> // child.exitCode of the children that ended
    var killed: seq<nat>                 // kill('SIGINT') calls
    var processExits: seq<int>           // process.exit calls
    ghost var exits: seq<Exit>           // how the children ended, in order
    ghost var first: Option<Event>       // the first event of any kind

    ghost predicate Valid()
      reads this
    {
      && children > 0
      && (forall c | c in exitCodes :: c < children)
      && |exitCodes| == |exits| <= children
      && pendingExits == children - |exits|
      && firstExitCode == (if exits == [] then None else Some(CodeOf(exits[0])))
      && shuttingDown == (killed != [])
      && (first.None? ==> exits == [])
      && (first.Some? && first.value.ChildExit? ==> exits != [])
      && killed == (if first.None? then [] else Stopped(children, first.value))
      && processExits == (if |exits| == children then [CodeOf(exits[0])] else [])
    }

    constructor (n: nat)
      requires n > 0
      ensures Valid() && children == n && exits == [] && first == None && exitCodes == map[]
    {
      children := n;
      shuttingDown, firstExitCode, pendingExits := false, None, n;
      exitCodes, killed, processExits, exits, first := map[], [], [], [], None;
    }

    method Shutdown()
      modifies this`shuttingDown, this`killed
      ensures shuttingDown
      ensures killed == old(killed) + if old(shuttingDown) then [] else Running(children, exitCodes)
    {
      if shuttingDown {
        return;
      }
      shuttingDown := true;
      var child := 0;
      while child < children
        invariant 0 <= child <= children && shuttingDown
        invariant killed == old(killed) + Running(child, exitCodes)
      {
        if child !in exitCodes || exitCodes[child].None? {
          killed := killed + [child];
        }
        child := child + 1;
      }
    }

    /** SIGINT or SIGTERM, while the process is still there. */
    method OnSignal()
      requires Valid() && processExits == []
      modifies this
      ensures Valid() && exits == old(exits) && exitCodes == old(exitCodes)
      ensures first == if old(first).None? then Some(Signal) else old(first)
    {
      Shutdown();
      if first.None? {
        assert |exitCodes| == 0;
        first := Some(Signal);
      }
      StoppedIsSomeone(children, first.value);
    }

    /** once('exit') */
    method OnExit(child: nat, how: Exit)
      requires Valid() && child < children && child !in exitCodes
      modifies this
      ensures Valid() && exits == old(exits) + [how] && exitCodes == old(exitCodes)[child := how.code]
      ensures first == if old(first).None? then Some(ChildExit(child, how)) else old(first)
    {
      NotAllExited(children, exitCodes, child);
      assert first.None? ==> exitCodes == map[] && |exits| == 0;
      assert !shuttingDown ==> first.None? by {
        if first.Some? {
          StoppedIsSomeone(children, first.value);
        }
      }
      StoppedIsSomeone(children, ChildExit(child, how));
      exitCodes := exitCodes[child := how.code];
      pendingExits := pendingExits - 1;
      if firstExitCode.None? {
        firstExitCode := Some(CodeOf(how));
      }
      if !shuttingDown && pendingExits > 0 {
        Shutdown();
      }
      if pendingExits == 0 {
        processExits := processExits + [if firstExitCode.Some? then firstExitCode.value else 0];
      }
      exits := exits + [how];
      if first.None? {
        first := Some(ChildExit(child, how));
      }
    }

    // The loop that delivers events; once the process has exited a signal finds nobody.
    method OnEvent(e: Event)
      requires Valid() && (e.ChildExit? ==> e.child < children && e.child !in exitCodes)
      modifies this
      ensures Valid()
      ensures exits == old(exits) + if e.ChildExit? then [e.how] else []
      ensures exitCodes == if e.ChildExit? then old(exitCodes)[e.child := e.how.code] else old(exitCodes)
    {
      match e {
        case Signal =>
          if processExits == [] {
            OnSignal();
          }
        case ChildExit(c, how) =>
          OnExit(c, how);
      }
    }
  }

  // The children still without an exit code, in order.
  function Running(n: nat, codes: map<nat, Option<int>>): seq<nat> {
    if n == 0 then []
    else Running(n - 1, codes) + if n - 1 !in codes || codes[n - 1].None? then [n - 1] else []
  }

  // Whatever comes first stops the others, unless it is the exit of an only child.
  function Stopped(n: nat, first: Event): seq<nat> {
    match first
    case Signal => Running(n, map[])
    case ChildExit(c, how) => if n > 1 then Running(n, map[c := how.code]) else []
  }

  lemma {:induction false} RunningAll(n: nat, codes: map<nat, Option<int>>, c: nat)
    requires c < n && (c !in codes || codes[c].None?)
    ensures c in Running(n, codes)
  {
    if c < n - 1 {
      RunningAll(n - 1, codes, c);
    }
  }

  /** The children a first stop signals: each one without an exit code, once, in order. */
  lemma {:induction false} RunningExactly(n: nat, codes: map<nat, Option<int>>)
    ensures var r := Running(n, codes);
      && (forall c: nat :: c in r <==> c < n && (c !in codes || codes[c].None?))
      && (forall i, j | 0 <= i < j < |r| :: r[i] < r[j])
  {
    if n > 0 {
      RunningExactly(n - 1, codes);
      var r := Running(n - 1, codes);
      assert forall i | 0 <= i < |r| :: r[i] in r;
    }
  }

  lemma StoppedIsSomeone(n: nat, first: Event)
    requires n > 0
    ensures Stopped(n, first) == [] <==> n == 1 && first.ChildExit?
  {
    match first
    case Signal => RunningAll(n, map[], 0);
    case ChildExit(c, how) =>
      if n > 1 {
        RunningAll(n, map[c := how.code], if c == 0 then 1 else 0);
      }
  }

  function Below(n: nat): (r: set<nat>)
    ensures |r| == n && forall c: nat :: c in r <==> c < n
  {
    if n == 0 then {} else Below(n - 1) + {n - 1}
  }

  lemma {:induction false} SubsetCount<T>(a: set<T>, b: set<T>)
    requires a <= b
    ensures |a| <= |b|
    decreases a
  {
    if a != {} {
      var x :| x in a;
      SubsetCount(a - {x}, b - {x});
    }
  }

  // A child that is still there is one of the children not counted as ended.
  lemma NotAllExited(n: nat, codes: map<nat, Option<int>>, child: nat)
    requires child < n && child !in codes && forall c | c in codes :: c < n
    ensures |codes| < n
  {
    SubsetCount(codes.Keys, Below(n) - {child});
  }

  // How the children ended, in order.
  function ExitsOf(events: seq<Event>): seq<Exit> {
    if events == [] then []
    else ExitsOf(events[..|events| - 1])
         + if events[|events| - 1].ChildExit? then [events[|events| - 1].how] else []
  }

  lemma ExitsOfNext(events: seq<Event>, i: nat)
    requires i < |events|
    ensures ExitsOf(events[..i + 1]) == ExitsOf(events[..i]) + if events[i].ChildExit? then [events[i].how] else []
  {
    assert events[..i + 1][..i] == events[..i];
  }

  // The first of them is the first child that ended.
  lemma {:induction false} ExitsBegin(events: seq<Event>, j: nat)
    requires j < |events| && events[j].ChildExit? && forall i | 0 <= i < j :: events[i].Signal?
    ensures ExitsOf(events) != [] && ExitsOf(events)[0] == events[j].how
  {
    var init := events[..|events| - 1];
    if j == |events| - 1 {
      assert forall i | 0 <= i < |init| :: init[i].Signal?;
      NoExits(init);
    } else {
      ExitsBegin(init, j);
    }
  }

  lemma {:induction false} NoExits(events: seq<Event>)
    requires forall i | 0 <= i < |events| :: events[i].Signal?
    ensures ExitsOf(events) == []
  {
    if events != [] {
      NoExits(events[..|events| - 1]);
    }
  }

  // Every child ends at most once.
  ghost predicate EndsOnce(n: nat, events: seq<Event>) {
    && (forall i | 0 <= i < |events| && events[i].ChildExit? :: events[i].child < n)
    && (forall i, j | 0 <= i < j < |events| && events[i].ChildExit? && events[j].ChildExit? ::
          events[i].child != events[j].child)
  }

  // The children whose end is yet to come are among those without an exit code.
  ghost predicate YetToEnd(n: nat, events: seq<Event>, i: nat, codes: map<nat, Option<int>>) {
    forall j | i <= j < |events| && events[j].ChildExit? :: events[j].child < n && events[j].child !in codes
  }

  lemma OneHasEnded(n: nat, events: seq<Event>, i: nat, codes: map<nat, Option<int>>, codes': map<nat, Option<int>>)
    requires EndsOnce(n, events) && YetToEnd(n, events, i, codes) && i < |events|
    requires codes' == if events[i].ChildExit? then codes[events[i].child := events[i].how.code] else codes
    ensures YetToEnd(n, events, i + 1, codes')
  {}

  /** For any children, ends in any order and signals at any time, the process exits once, after
      the last child, with the code of the first that ended; signals change neither. */
  method Supervise(n: nat, events: seq<Event>) returns (codes: seq<int>)
    requires n > 0 && EndsOnce(n, events)
    ensures |codes| == if |ExitsOf(events)| == n then 1 else 0
    ensures forall j | 0 <= j < |events| && events[j].ChildExit? && (forall i | 0 <= i < j :: events[i].Signal?) ::
      |codes| == 1 ==>
        && (events[j].how.code.Some? ==> codes[0] == events[j].how.code.value)
        && (events[j].how.code.None? ==> codes[0] == if events[j].how.signal then 0 else 1)
  {
    var s := new Supervisor(n);
    var i := 0;
    while i < |events|
      invariant 0 <= i <= |events| && s.Valid() && s.children == n && fresh(s)
      invariant s.exits == ExitsOf(events[..i]) && YetToEnd(n, events, i, s.exitCodes)
    {
      ExitsOfNext(events, i);
      ghost var before := s.exitCodes;
      s.OnEvent(events[i]);
      OneHasEnded(n, events, i, before, s.exitCodes);
      i := i + 1;
    }
    assert events[..i] == events;
    codes := s.processExits;
    forall j | 0 <= j < |events| && events[j].ChildExit? && (forall k | 0 <= k < j :: events[k].Signal?)
      ensures ExitsOf(events) != [] && ExitsOf(events)[0] == events[j].how
    {
      ExitsBegin(events, j);
    }
  }
}
