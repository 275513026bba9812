/** The streaming scanner that keeps a worker's last line
    (internal/proc/lastline.go) and the task count read from it
    (internal/pool/result.go). */
module LastLine {
  import opened Prelude
  import opened Text

  const MaxResult := 64

  datatype Scanner = Scanner(buf: string, long: bool, last: string)

  const Fresh := Scanner("", false, "")

  function Taken(s: Scanner, b: string): Scanner {
    if s.long then s
    else if |s.buf| + |b| > MaxResult then s.(long := true, buf := "")
    else s.(buf := s.buf + b)
  }

  function LineEnded(s: Scanner): Scanner {
    Scanner("", false,
            if s.long then "" else if TrimSpace(s.buf) != "" then TrimSpace(s.buf) else s.last)
  }

  function Written(s: Scanner, b: string): Scanner
    decreases |b|
  {
    var i := IndexOf(b, '\n');
    if i == |b| then Taken(s, b)
    else Written(LineEnded(Taken(s, b[..i])), b[i + 1..])
  }

  function AllWritten(s: Scanner, chunks: seq<string>): Scanner
    decreases |chunks|
  {
    if chunks == [] then s else AllWritten(Written(s, chunks[0]), chunks[1..])
  }

  function Flushed(s: Scanner): Scanner {
    if s.long || |s.buf| > 0 then LineEnded(s) else s
  }

  /** The io.Writer the child's output goes to. */
  class LineWriter {
    var buf: string
    var long: bool
    var last: string

    function Abs(): Scanner
      reads this
    {
      Scanner(buf, long, last)
    }

    /** The memory bound the type promises. */
    predicate Valid()
      reads this
    {
      |buf| <= MaxResult
    }

    constructor ()
      ensures Valid() && Abs() == Fresh
    {
      buf, long, last := "", false, "";
    }

    method Take(b: string)
      requires Valid()
      modifies this
      ensures Valid() && Abs() == Taken(old(Abs()), b)
    {
      if long {
        return;
      }
      if |buf| + |b| > MaxResult {
        long := true;
        buf := "";
        return;
      }
      buf := buf + b;
    }

    method EndLine()
      modifies this
      ensures Valid() && Abs() == LineEnded(old(Abs()))
    {
      if long {
        last := "";
      } else {
        var s := TrimSpace(buf);
        if s != "" {
          last := s;
        }
      }
      long := false;
      buf := "";
    }

    method Write(b: string) returns (n: nat)
      requires Valid()
      modifies this
      ensures Valid() && Abs() == Written(old(Abs()), b)
      ensures n == |b|
    {
      var rest := b;
      while |rest| > 0
        invariant Valid() && Written(Abs(), rest) == Written(old(Abs()), b)
        decreases |rest|
      {
        var i := IndexOf(rest, '\n');
        if i == |rest| {
          Take(rest);
          return |b|;
        }
        Take(rest[..i]);
        EndLine();
        rest := rest[i + 1..];
      }
      assert Abs() == Taken(Abs(), "");
      return |b|;
    }

    method Line() returns (line: string)
      requires Valid()
      modifies this
      ensures Valid() && Abs() == Flushed(old(Abs()))
      ensures line == last
    {
      if long || |buf| > 0 {
        EndLine();
      }
      return last;
    }
  }

  // ------------------------------------------------------------ specification

  /** The newline-separated lines of a whole stream; the text after the last
      newline counts as a line, empty or not. */
  function Lines(stream: string): seq<string>
    decreases |stream|
  {
    var i := IndexOf(stream, '\n');
    if i == |stream| then [stream] else [stream[..i]] + Lines(stream[i + 1..])
  }

  /** One line's verdict: too long clears, blank keeps, anything else replaces. */
  function Keep(last: string, line: string): string {
    if |line| > MaxResult then ""
    else if TrimSpace(line) == "" then last
    else TrimSpace(line)
  }

  function KeepAll(last: string, lines: seq<string>): string
    decreases |lines|
  {
    if lines == [] then last else KeepAll(Keep(last, lines[0]), lines[1..])
  }

  /** The scanner stands at `last` with the partial line `part` behind it. */
  predicate At(s: Scanner, last: string, part: string) {
    && s.last == last
    && s.long == (|part| > MaxResult)
    && s.buf == (if s.long then "" else part)
  }

  /** Text up to the first newline is the first line, whatever follows. */
  lemma FirstLine(b: string, i: nat, rest: string)
    requires i < |b| && b[i] == '\n' && forall k :: 0 <= k < i ==> b[k] != '\n'
    ensures Lines(b + rest) == [b[..i]] + Lines(b[i + 1..] + rest)
  {
    IndexIs(b + rest, '\n', i);
    assert (b + rest)[..i] == b[..i];
    assert (b + rest)[i + 1..] == b[i + 1..] + rest;
  }

  lemma TakeAndEnd(s: Scanner, last: string, part: string, b: string)
    requires At(s, last, part)
    ensures At(Taken(s, b), last, part + b)
    ensures At(LineEnded(Taken(s, b)), Keep(last, part + b), "")
  {
  }

  lemma KeepFirst(last: string, part: string, b: string, i: nat, rest: string)
    requires '\n' !in part
    requires i < |b| && b[i] == '\n' && forall k :: 0 <= k < i ==> b[k] != '\n'
    ensures KeepAll(last, Lines(part + b + rest)) == KeepAll(Keep(last, part + b[..i]), Lines(b[i + 1..] + rest))
  {
    var whole, n := part + b, |part| + i;
    FirstLine(whole, n, rest);
    assert whole[..n] == part + b[..i] && whole[n + 1..] == b[i + 1..];
    var lines := Lines(b[i + 1..] + rest);
    assert ([part + b[..i]] + lines)[1..] == lines;
  }

  lemma WriteWithoutNewline(s: Scanner, last: string, part: string, b: string)
    requires At(s, last, part) && '\n' !in part && IndexOf(b, '\n') == |b|
    ensures At(Written(s, b), last, part + b) && '\n' !in part + b
  {
    TakeAndEnd(s, last, part, b);
    assert '\n' !in b;
  }

  /** A write up to and including its first newline. */
  lemma WriteFirstLine(s: Scanner, last: string, part: string, b: string, i: nat, rest: string)
    returns (next: Scanner, kept: string)
    requires At(s, last, part) && '\n' !in part && i == IndexOf(b, '\n') && i < |b|
    ensures At(next, kept, "") && Written(s, b) == Written(next, b[i + 1..])
    ensures KeepAll(last, Lines(part + b + rest)) == KeepAll(kept, Lines(b[i + 1..] + rest))
  {
    TakeAndEnd(s, last, part, b[..i]);
    KeepFirst(last, part, b, i, rest);
    return LineEnded(Taken(s, b[..i])), Keep(last, part + b[..i]);
  }

  /** One write, in the middle of any stream: the scanner moves to a position
      from which the rest of the stream yields what it would have yielded. */
  lemma {:induction false} WriteKeepsPlace(s: Scanner, last: string, part: string, b: string, rest: string)
    returns (last': string, part': string)
    requires At(s, last, part) && '\n' !in part
    ensures At(Written(s, b), last', part') && '\n' !in part'
    ensures KeepAll(last', Lines(part' + rest)) == KeepAll(last, Lines(part + b + rest))
    decreases |b|
  {
    var i := IndexOf(b, '\n');
    if i == |b| {
      WriteWithoutNewline(s, last, part, b);
      return last, part + b;
    }
    var tail := b[i + 1..];
    var next, kept := WriteFirstLine(s, last, part, b, i, rest);
    last', part' := WriteKeepsPlace(next, kept, "", tail, rest);
    assert "" + tail == tail;
  }

  function Flatten(chunks: seq<string>): string {
    if chunks == [] then "" else chunks[0] + Flatten(chunks[1..])
  }

  lemma NoNewline(line: string)
    requires '\n' !in line
    ensures Lines(line) == [line]
  {
    IndexIs(line, '\n', |line|);
  }

  lemma FlushAtEnd(s: Scanner, last: string, part: string)
    requires At(s, last, part) && '\n' !in part
    ensures Flushed(s).last == KeepAll(last, Lines(part)) && |s.buf| <= MaxResult
  {
    NoNewline(part);
    assert KeepAll(last, [part]) == Keep(last, part);
  }

  lemma {:induction false} ChunksKeepPlace(s: Scanner, last: string, part: string, chunks: seq<string>)
    returns (last': string, part': string)
    requires At(s, last, part) && '\n' !in part
    ensures At(AllWritten(s, chunks), last', part') && '\n' !in part'
    ensures KeepAll(last', Lines(part')) == KeepAll(last, Lines(part + Flatten(chunks)))
    decreases |chunks|
  {
    if chunks == [] {
      assert part + Flatten(chunks) == part;
      return last, part;
    }
    var rest := Flatten(chunks[1..]);
    assert part + Flatten(chunks) == part + chunks[0] + rest;
    last', part' := WriteKeepsPlace(s, last, part, chunks[0], rest);
    last', part' := ChunksKeepPlace(Written(s, chunks[0]), last', part', chunks[1..]);
  }

  /** What the scanner returns after a fresh start, any writes and one Line(). */
  function LineOf(chunks: seq<string>): string {
    Flushed(AllWritten(Fresh, chunks)).last
  }

  /** Chunk independence: however the stream was cut into writes, the kept line
      is the fold over its lines, and at most MaxResult bytes were held. */
  lemma ChunkIndependence(chunks: seq<string>)
    ensures LineOf(chunks) == KeepAll("", Lines(Flatten(chunks)))
    ensures |AllWritten(Fresh, chunks).buf| <= MaxResult
  {
    var last, part := ChunksKeepPlace(Fresh, "", "", chunks);
    FlushAtEnd(AllWritten(Fresh, chunks), last, part);
    assert "" + Flatten(chunks) == Flatten(chunks);
  }

  // --------------------------------------------------------------- task count

  function ParseTasks(line: string): Option<nat> {
    if line == "" || |line| > MaxResult then None
    else
      var n := Atoi(line);
      if n == None || n.value < 0 then None else Some(n.value)
  }

  /** `line` reports `n` tasks. */
  predicate Counts(line: string, n: nat) {
    |line| <= 64 && n <= 9_223_372_036_854_775_807 && Numeral(line, n)
  }

  /** A line is a count exactly if it is a numeral of at most 64 bytes in range;
      anything else, an empty line included, is none. */
  lemma ParseTasksExactly(line: string)
    ensures forall n: nat :: ParseTasks(line) == Some(n) <==> Counts(line, n)
    ensures ParseTasks(line) == None <==> forall n: nat :: !Counts(line, n)
  {
    forall n: nat
      ensures Atoi(line) == Some(n as int) <==> n <= 9_223_372_036_854_775_807 && Numeral(line, n)
    {
      AtoiExactly(line, n);
    }
  }

  lemma {:induction false} ValueSnoc(s: string, c: char)
    requires AllDigits(s) && IsDigit(c)
    ensures AllDigits(s + [c]) && Value(s + [c]) == 10 * Value(s) + DigitValue(c)
  {
    assert (s + [c])[..|s|] == s;
  }

  lemma {:induction false} SmallValues()
    ensures Value("0") == 0 && Value("5") == 5 && Value("7") == 7 && Value("120") == 120
  {
    ValueSnoc("", '0');
    ValueSnoc("", '5');
    ValueSnoc("", '7');
    ValueSnoc("", '1');
    ValueSnoc("1", '2');
    ValueSnoc("12", '0');
    assert "" + ['0'] == "0" && "" + ['5'] == "5" && "" + ['7'] == "7" && "" + ['1'] == "1";
    assert "1" + ['2'] == "12" && "12" + ['0'] == "120";
  }

  lemma {:induction false} IsCount(line: string, n: nat)
    requires Counts(line, n)
    ensures ParseTasks(line) == Some(n)
  {
    ParseTasksExactly(line);
  }

  lemma {:induction false} IsNoCount(line: string)
    requires line == "" || (!IsDigit(line[0]) && (|line| == 1 || (line[0] != '+' && line[0] != '-')))
    ensures ParseTasks(line) == None
  {
    ParseTasksExactly(line);
  }

  /** Some lines and their counts. */
  lemma {:induction false} CountExamples()
    ensures ParseTasks("120") == Some(120) && ParseTasks("+7") == Some(7) && ParseTasks("-0") == Some(0)
    ensures ParseTasks("") == None && ParseTasks("done") == None && ParseTasks("-5") == None && ParseTasks("+") == None
    ensures Blank(" \t\n\r\U{0b}\U{0c}")
  {
    SmallValues();
    assert "+7"[1..] == "7" && "-0"[1..] == "0" && "-5"[1..] == "5";
    IsCount("120", 120);
    IsCount("+7", 7);
    IsCount("-0", 0);
    IsNoCount("");
    IsNoCount("done");
    IsNoCount("+");
    ParseTasksExactly("-5");
    assert forall n: nat :: !Counts("-5", n);
  }

  /** The line that decides: the last one that is too long or not blank. */
  function LastSignificant(lines: seq<string>): Option<string> {
    if lines == [] then None
    else
      var line := lines[|lines| - 1];
      if |line| > 64 || !Blank(line) then Some(line) else LastSignificant(lines[..|lines| - 1])
  }

  lemma {:induction false} TrimmedAway(s: string)
    ensures TrimSpace(s) == "" <==> Blank(s)
  {
    if Blank(s) {
      TrimBlank(s);
    } else {
      var i :| 0 <= i < |s| && !IsSpace(s[i]);
      SomethingLeft(s, i);
    }
  }

  lemma {:induction false} SomethingLeft(s: string, i: nat)
    requires i < |s| && !IsSpace(s[i])
    ensures TrimSpace(s) != ""
    decreases |s|
  {
    if IsSpace(s[0]) {
      SomethingLeft(s[1..], i - 1);
    } else {
      FirstStays(s);
    }
  }

  lemma {:induction false} FirstStays(s: string)
    requires s != "" && !IsSpace(s[0])
    ensures TrimRight(s) != "" && TrimLeft(s) == s
  {
    if IsSpace(s[|s| - 1]) {
      FirstStays(s[..|s| - 1]);
    }
  }

  /** What is kept is the deciding line without the space around it, or nothing. */
  lemma {:induction false} KeptIsLastSignificant(lines: seq<string>)
    ensures KeepAll("", lines) ==
              match LastSignificant(lines)
              case None => ""
              case Some(line) => if |line| > 64 then "" else TrimSpace(line)
  {
    if lines != [] {
      var n := |lines| - 1;
      var line := lines[n];
      KeptIsLastSignificant(lines[..n]);
      assert lines == lines[..n] + [line] && [line][1..] == [];
      KeepAllConcat("", lines[..n], [line]);
      assert KeepAll("", lines) == Keep(KeepAll("", lines[..n]), line);
      TrimmedAway(line);
    }
  }

  /** The output reports `n` tasks: the line that decides is a count. */
  predicate Reports(output: string, n: nat) {
    match LastSignificant(Lines(output))
    case None => false
    case Some(line) => |line| <= 64 && Counts(TrimSpace(line), n)
  }

  /** Whatever a worker prints, in whatever writes, its count is n exactly if the
      line that decides is a numeral for n with space around it; an output
      without one, or whose last line is too long, has no count. */
  lemma {:induction false} OutputCount(chunks: seq<string>)
    ensures forall n: nat :: ParseTasks(LineOf(chunks)) == Some(n) <==> Reports(Flatten(chunks), n)
    ensures ParseTasks(LineOf(chunks)) == None <==> forall n: nat :: !Reports(Flatten(chunks), n)
  {
    var lines := Lines(Flatten(chunks));
    ChunkIndependence(chunks);
    KeptIsLastSignificant(lines);
    ParseTasksExactly(LineOf(chunks));
    assert forall n: nat :: !Counts("", n);
  }

  lemma LineBeforeNewline(line: string, rest: string)
    requires '\n' !in line && rest != "" && rest[0] == '\n'
    ensures Lines(line + rest) == [line] + Lines(rest[1..])
  {
    var whole, n := line + rest, |line|;
    IndexIs(whole, '\n', n);
    assert whole[..n] == line && whole[n + 1..] == rest[1..];
  }

  /** Lines split at any newline. */
  lemma {:induction false} LinesOfConcat(a: string, rest: string)
    requires rest != "" && rest[0] == '\n'
    ensures Lines(a + rest) == Lines(a) + Lines(rest[1..])
    decreases |a|
  {
    var i := IndexOf(a, '\n');
    if i == |a| {
      NoNewline(a);
      LineBeforeNewline(a, rest);
    } else {
      FirstLine(a, i, rest);
      LinesOfConcat(a[i + 1..], rest);
    }
  }

  lemma {:induction false} KeepAllConcat(last: string, a: seq<string>, b: seq<string>)
    ensures KeepAll(last, a + b) == KeepAll(KeepAll(last, a), b)
    decreases |a|
  {
    if a == [] {
      assert a + b == b;
    } else {
      assert (a + b)[1..] == a[1..] + b;
      KeepAllConcat(Keep(last, a[0]), a[1..], b);
    }
  }

  predicate BlankLines(lines: seq<string>) {
    forall i :: 0 <= i < |lines| ==> Blank(lines[i]) && |lines[i]| <= MaxResult
  }

  lemma {:induction false} KeepAllBlank(last: string, lines: seq<string>)
    requires BlankLines(lines)
    ensures KeepAll(last, lines) == last
  {
    if lines != [] {
      TrimBlank(lines[0]);
      KeepAllBlank(last, lines[1..]);
    }
  }

  /** A stream whose last non-blank line is `line`. */
  predicate EndsWith(stream: string, before: string, line: string, after: string) {
    && (before == "" || before[|before| - 1] == '\n')
    && '\n' !in line
    && (after == "" || after[0] == '\n')
    && BlankLines(Lines(after))
    && stream == before + line + after
  }

  lemma EarlierLinesForgotten(before: string, tail: string) returns (kept: string)
    requires before == "" || before[|before| - 1] == '\n'
    ensures KeepAll("", Lines(before + tail)) == KeepAll(kept, Lines(tail))
  {
    if before == "" {
      assert before + tail == tail;
      return "";
    } else {
      var head := before[..|before| - 1];
      assert before + tail == head + ("\n" + tail);
      assert ("\n" + tail)[1..] == tail;
      LinesOfConcat(head, "\n" + tail);
      KeepAllConcat("", Lines(head), Lines(tail));
      return KeepAll("", Lines(head));
    }
  }

  lemma BlankTailKeeps(last: string, line: string, after: string)
    requires '\n' !in line && (after == "" || after[0] == '\n') && BlankLines(Lines(after))
    ensures KeepAll(last, Lines(line + after)) == Keep(last, line)
  {
    NoNewline(line);
    assert KeepAll(last, [line]) == Keep(last, line);
    if after == "" {
      assert line + after == line;
    } else {
      var rest := after[1..];
      assert "" + after == after;
      LineBeforeNewline(line, after);
      LineBeforeNewline("", after);
      KeepAllConcat(last, [line], Lines(rest));
      assert Lines(rest) == Lines(after)[1..];
      KeepAllBlank(Keep(last, line), Lines(rest));
    }
  }

  lemma KeptLastLine(stream: string, before: string, line: string, after: string)
    requires EndsWith(stream, before, line, after)
    requires |line| <= MaxResult && TrimSpace(line) != ""
    ensures KeepAll("", Lines(stream)) == TrimSpace(line)
  {
    var kept := EarlierLinesForgotten(before, line + after);
    assert stream == before + (line + after);
    BlankTailKeeps(kept, line, after);
  }

  /** The count survives: printed in decimal, padded or not, as the last
      non-blank line of any output cut into any writes, it is read back. */
  lemma TaskCountRoundTrip(n: nat, left: string, right: string, before: string, after: string, chunks: seq<string>)
    requires n <= MaxInt && Blank(left) && Blank(right)
    requires |left + Itoa(n) + right| <= MaxResult
    requires EndsWith(Flatten(chunks), before, left + Itoa(n) + right, after)
    ensures ParseTasks(LineOf(chunks)) == Some(n)
  {
    var digits := Itoa(n);
    assert IsDigit(digits[0]) && IsDigit(digits[|digits| - 1]);
    ChunkIndependence(chunks);
    TrimPadded(left, digits, right);
    KeptLastLine(Flatten(chunks), before, left + digits + right, after);
    AtoiOfItoa(n);
  }

  /** A bare count needs no room to be checked for: every int printed alone on the
      last non-blank line is read back. */
  lemma PlainCountRoundTrip(n: nat, before: string, after: string, chunks: seq<string>)
    requires n <= MaxInt && EndsWith(Flatten(chunks), before, Itoa(n), after)
    ensures ParseTasks(LineOf(chunks)) == Some(n)
  {
    ItoaFits(n);
    assert "" + Itoa(n) + "" == Itoa(n);
    TaskCountRoundTrip(n, "", "", before, after, chunks);
  }
}
