/**
  Forwarding a child's output line by line.  Chunks arrive cut anywhere, also between a carriage
  return and its newline; complete lines are written as they appear unless they are suppressed, and
  the unfinished rest is written when the stream ends.
 */
module LineForward {

  /** Which lines are left out; the banner patterns are an arbitrary predicate. */
  datatype Filter = Filter(suppress: string -> bool)

  // ---- splitting at \r?\n ----

  function FirstNewline(text: string): (i: nat)
    ensures i <= |text| && forall k :: 0 <= k < i ==> text[k] != '\n'
    ensures i < |text| ==> text[i] == '\n'
  {
    if text == [] || text[0] == '\n' then 0 else 1 + FirstNewline(text[1..])
  }

  /** A line as the separator leaves it: one carriage return before the newline belongs to the separator. */
  function Trim(line: string): string {
    if line != [] && line[|line|-1] == '\r' then line[..|line|-1] else line
  }

  /** The text split at every newline; the last piece is what follows the last newline. */
  function Pieces(text: string): (pieces: seq<string>)
    ensures |pieces| >= 1
  {
    var i := FirstNewline(text);
    if i == |text| then [text] else [Trim(text[..i])] + Pieces(text[i+1..])
  }

  function Lines(text: string): seq<string> {
    Pieces(text)[..|Pieces(text)|-1]
  }

  function Rest(text: string): string {
    Pieces(text)[|Pieces(text)|-1]
  }

  lemma SplitAtNewline(line: string, rest: string)
    requires '\n' !in line
    ensures Lines(line + "\n" + rest) == [Trim(line)] + Lines(rest)
    ensures Rest(line + "\n" + rest) == Rest(rest)
  {
    var text := line + "\n" + rest;
    assert text[|line|] == '\n' && forall k :: 0 <= k < |line| ==> text[k] == line[k];
    assert FirstNewline(text) == |line|;
    assert text[..|line|] == line && text[|line|+1..] == rest;
  }

  lemma NoNewline(text: string)
    requires FirstNewline(text) == |text|
    ensures Lines(text) == [] && Rest(text) == text && '\n' !in text
  {
  }

  lemma CutAtNewline(text: string) returns (line: string, rest: string)
    requires FirstNewline(text) < |text|
    ensures text == line + "\n" + rest && '\n' !in line
  {
    var i := FirstNewline(text);
    line, rest := text[..i], text[i+1..];
  }

  /** Splitting can stop anywhere and go on from the unfinished rest. */
  lemma {:induction false} SplitResumes(a: string, b: string)
    ensures Lines(a + b) == Lines(a) + Lines(Rest(a) + b)
    ensures Rest(a + b) == Rest(Rest(a) + b)
    decreases |a|
  {
    hide Lines, Rest, FirstNewline, Trim;
    if FirstNewline(a) == |a| {
      NoNewline(a);
    } else {
      var line, rest := CutAtNewline(a);
      assert a + b == line + "\n" + (rest + b);
      SplitAtNewline(line, rest);
      SplitAtNewline(line, rest + b);
      SplitResumes(rest, b);
    }
  }

  // ---- what is written ----

  function Written(lines: seq<string>, filter: Filter): string {
    if lines == [] then ""
    else (if filter.suppress(lines[0]) then "" else lines[0] + "\n") + Written(lines[1..], filter)
  }

  function WrittenAtEnd(rest: string, filter: Filter): string {
    if rest != "" && !filter.suppress(rest) then rest else ""
  }

  /** What forwarding the whole stream at once would write. */
  function WholeStream(text: string, filter: Filter): string {
    Written(Lines(text), filter) + WrittenAtEnd(Rest(text), filter)
  }

  function Flat(chunks: seq<string>): string {
    if chunks == [] then "" else Flat(chunks[..|chunks|-1]) + chunks[|chunks|-1]
  }

  lemma {:induction false} WrittenAppend(a: seq<string>, b: seq<string>, filter: Filter)
    ensures Written(a + b, filter) == Written(a, filter) + Written(b, filter)
  {
    if a == [] {
      assert a + b == b;
    } else {
      WrittenAppend(a[1..], b, filter);
      assert (a + b)[1..] == a[1..] + b;
    }
  }

  class LineForwarder {
    const filter: Filter
    var buffered: string
    var output: string

    constructor (filter: Filter)
      ensures this.filter == filter && buffered == "" && output == ""
    {
      this.filter := filter;
      buffered, output := "", "";
    }

    /** The forwarder has seen exactly `text`. */
    ghost predicate Seen(text: string)
      reads this
    {
      buffered == Rest(text) && output == Written(Lines(text), filter)
    }

    method OnData(chunk: string, ghost text: string)
      requires Seen(text)
      modifies this
      ensures Seen(text + chunk)
    {
      SplitResumes(text, chunk);
      WrittenAppend(Lines(text), Lines(buffered + chunk), filter);
      buffered := buffered + chunk;
      var lines := Pieces(buffered);
      buffered := lines[|lines|-1];
      lines := lines[..|lines|-1];
      ghost var before := output;
      var i := 0;
      while i < |lines|
        invariant 0 <= i <= |lines|
        invariant output == before + Written(lines[..i], filter)
        invariant buffered == Rest(text + chunk)
      {
        if !filter.suppress(lines[i]) {
          output := output + (lines[i] + "\n");
        }
        assert lines[..i+1] == lines[..i] + [lines[i]];
        WrittenAppend(lines[..i], [lines[i]], filter);
        i := i + 1;
      }
      assert lines[..i] == lines;
    }

    method OnEnd(ghost text: string)
      requires Seen(text)
      modifies this
      ensures output == WholeStream(text, filter)
    {
      if buffered != "" && !filter.suppress(buffered) {
        output := output + buffered;
      }
    }
  }

  /** However the stream was cut into chunks, the output is that of the whole stream. */
  method Forward(chunks: seq<string>, filter: Filter) returns (output: string)
    ensures output == WholeStream(Flat(chunks), filter)
  {
    var forwarder := new LineForwarder(filter);
    var i := 0;
    while i < |chunks|
      invariant 0 <= i <= |chunks|
      invariant forwarder.filter == filter && forwarder.Seen(Flat(chunks[..i]))
    {
      forwarder.OnData(chunks[i], Flat(chunks[..i]));
      assert chunks[..i+1][..i] == chunks[..i];
      i := i + 1;
    }
    assert chunks[..i] == chunks;
    forwarder.OnEnd(Flat(chunks));
    output := forwarder.output;
  }

  // ---- what the lines are ----

  /** The text without the carriage returns that stand directly before a newline. */
  function DropReturns(text: string): string {
    if text == [] then []
    else if |text| > 1 && text[0] == '\r' && text[1] == '\n' then DropReturns(text[1..])
    else [text[0]] + DropReturns(text[1..])
  }

  lemma DropStep(c: char, rest: string)
    ensures DropReturns([c] + rest) ==
            (if c == '\r' && rest != [] && rest[0] == '\n' then "" else [c]) + DropReturns(rest)
  {
    assert ([c] + rest)[1..] == rest;
    assert [] + DropReturns(rest) == DropReturns(rest);
  }

  lemma {:induction false} DropReturnsLine(line: string, rest: string)
    requires '\n' !in line
    ensures DropReturns(line + "\n" + rest) == Trim(line) + "\n" + DropReturns(rest)
  {
    hide DropReturns;
    if line == [] {
      assert line + "\n" + rest == ['\n'] + rest;
      DropStep('\n', rest);
    } else {
      var tail := line[1..] + "\n" + rest;
      assert line + "\n" + rest == [line[0]] + tail;
      DropStep(line[0], tail);
      DropReturnsLine(line[1..], rest);
      assert tail[0] == if |line| == 1 then '\n' else line[1];
      assert |line| > 1 ==> Trim(line) == [line[0]] + Trim(line[1..]);
    }
  }

  lemma {:induction false} DropReturnsPlain(text: string)
    requires '\n' !in text
    ensures DropReturns(text) == text
  {
    if text != [] {
      assert forall c :: c in text[1..] ==> c in text;
      DropReturnsPlain(text[1..]);
    }
  }

  /** With nothing suppressed, forwarding only turns every `\r\n` into `\n`. */
  lemma {:induction false} NothingSuppressed(text: string, filter: Filter)
    requires forall line :: !filter.suppress(line)
    ensures WholeStream(text, filter) == DropReturns(text)
    decreases |text|
  {
    hide Lines, Rest, FirstNewline, Trim, DropReturns;
    if FirstNewline(text) == |text| {
      NoNewline(text);
      DropReturnsPlain(text);
    } else {
      var line, rest := CutAtNewline(text);
      SplitAtNewline(line, rest);
      DropReturnsLine(line, rest);
      NothingSuppressed(rest, filter);
      assert Written([Trim(line)] + Lines(rest), filter) == Trim(line) + "\n" + Written(Lines(rest), filter);
    }
  }

  /**
    A complete line is forwarded or left out on its own: it adds itself and a newline, or nothing if it
    is suppressed, between what the text before it and the text after it give.
   */
  lemma LineIsItsOwn(before: string, line: string, after: string, filter: Filter)
    requires Rest(before) == "" && '\n' !in line
    ensures WholeStream(before + line + "\n" + after, filter) ==
            WholeStream(before, filter) + (if filter.suppress(Trim(line)) then "" else Trim(line) + "\n") + WholeStream(after, filter)
  {
    hide Lines, Rest, Trim;
    var tail := line + "\n" + after;
    assert before + line + "\n" + after == before + tail && "" + tail == tail;
    SplitResumes(before, tail);
    SplitAtNewline(line, after);
    WrittenAppend(Lines(before), Lines(tail), filter);
    assert ([Trim(line)] + Lines(after))[1..] == Lines(after);
  }

  /** An unfinished last line is written as it is, or not at all if it is suppressed or empty. */
  lemma LastLineIsItsOwn(before: string, rest: string, filter: Filter)
    requires Rest(before) == "" && '\n' !in rest
    ensures WholeStream(before + rest, filter) ==
            WholeStream(before, filter) + (if rest == "" || filter.suppress(rest) then "" else rest)
  {
    hide Lines, Rest, Trim;
    assert "" + rest == rest;
    SplitResumes(before, rest);
    NoNewline(rest);
    assert Lines(before) + [] == Lines(before);
  }

  /** The text before any complete line has no unfinished rest: it is empty or ends in a newline. */
  lemma {:induction false} RestIff(text: string)
    ensures Rest(text) == "" <==> text == "" || text[|text|-1] == '\n'
    decreases |text|
  {
    hide Lines, Rest, FirstNewline, Trim;
    if FirstNewline(text) == |text| {
      NoNewline(text);
      assert text != "" ==> text[|text|-1] in text;
    } else {
      var line, rest := CutAtNewline(text);
      SplitAtNewline(line, rest);
      RestIff(rest);
      assert rest != "" ==> text[|text|-1] == rest[|rest|-1];
    }
  }
}
