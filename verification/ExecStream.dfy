/** The exec stream: the server passes a command's output through and ends it
    with an exit marker on a line of its own; the client takes lines out of
    whatever chunks arrive. Text is bytes, one per char. */
module ExecStream {
  import opened Text

  const MARKER := "EXIT_CODE: "
  const ERROR := "ERROR: "

  // ---- server ----

  predicate EndsLine(s: string) { s == "" || s[|s| - 1] == '\n' }

  /** What startLine adds after this output. */
  function Break(output: string): string { if EndsLine(output) then "" else "\n" }

  function MarkerLine(code: int): string { MARKER + Itoa(code) + "\n" }

  /** The whole stream of a command that ran and exited with code. */
  function Stream(output: string, code: int): string { output + Break(output) + MarkerLine(code) }

  /** The whole stream of a command that could not be run to its end. */
  function ErrorStream(output: string, message: string): string {
    output + Break(output) + (ERROR + message + "\n" + MarkerLine(-1))
  }

  function Concat(chunks: seq<string>): string {
    if chunks == [] then "" else Concat(chunks[..|chunks| - 1]) + chunks[|chunks| - 1]
  }

  class FlushingWriter {
    var sent: string
    var endsWithNewline: bool

    ghost predicate Valid()
      reads this
    {
      endsWithNewline == EndsLine(sent)
    }

    constructor ()
      ensures Valid() && sent == ""
    {
      sent, endsWithNewline := "", true;
    }

    /** Write: n bytes get through before the writer reports back. */
    method Write(p: string, n: nat)
      requires Valid() && n <= |p|
      modifies this
      ensures Valid() && sent == old(sent) + p[..n]
    {
      sent := sent + p[..n];
      if n > 0 {
        endsWithNewline := p[n - 1] == '\n';
      }
    }

    method StartLine()
      requires Valid()
      modifies this
      ensures Valid() && sent == old(sent) + Break(old(sent))
    {
      if !endsWithNewline {
        sent := sent + "\n";
        endsWithNewline := true;
      }
    }
  }

  /** handleExecStreaming: however the command's output is cut into writes, the
      response is the stream of that output. */
  method ServeStream(writes: seq<string>, failure: Option<string>, code: int) returns (sent: string)
    ensures sent == if failure.None? then Stream(Concat(writes), code) else ErrorStream(Concat(writes), failure.value)
  {
    var w := new FlushingWriter();
    for i := 0 to |writes|
      invariant w.Valid() && w.sent == Concat(writes[..i])
    {
      assert writes[..i + 1][..i] == writes[..i];
      w.Write(writes[i], |writes[i]|);
    }
    assert writes[..|writes|] == writes;
    w.StartLine();
    if failure.Some? {
      sent := w.sent + (ERROR + failure.value + "\n" + MarkerLine(-1));
    } else {
      sent := w.sent + MarkerLine(code);
    }
  }

  // ---- client: one line at a time ----

  /** What the client has read so far; bad once a marker carried no number. */
  datatype Reader = Reader(code: int, saw: bool, out: string, err: string, bad: bool)

  const FRESH := Reader(0, false, "", "", false)

  function StripCR(line: string): string {
    if line != "" && line[|line| - 1] == '\r' then line[..|line| - 1] else line
  }

  function OnMarker(r: Reader, text: string): Reader {
    match Atoi(text)
    case None => r.(bad := true)
    case Some(n) => r.(code := n, saw := true)
  }

  /** One complete line, its ending already removed. */
  function OnLine(r: Reader, line: string): Reader {
    if MARKER <= line then OnMarker(r, line[|MARKER|..])
    else if ERROR <= line then r.(err := r.err + line[|ERROR|..] + "\n")
    else r.(out := r.out + line + "\n")
  }

  /** Every complete line of data, and what is left over. */
  function Feed(r: Reader, data: string): (Reader, string)
    decreases |data|
  {
    if r.bad || '\n' !in data then (r, data)
    else
      var i := IndexOf(data, '\n');
      Feed(OnLine(r, StripCR(data[..i])), data[i + 1..])
  }

  /** What is left when the stream ends. */
  function OnRest(r: Reader, rest: string): Reader {
    if MARKER <= rest then OnMarker(r, TrimSpace(rest[|MARKER|..]))
    else if ERROR <= rest then r.(err := r.err + rest[|ERROR|..] + "\n")
    else if TrimSpace(rest) != "" then r.(out := r.out + rest)
    else r
  }

  /** ok: no error is returned. */
  datatype Result = Result(code: int, ok: bool, out: string, err: string)

  function Outcome(r: Reader): Result {
    if r.bad || !r.saw then Result(-1, false, r.out, r.err) else Result(r.code, true, r.out, r.err)
  }

  /** The result of reading these bytes up to the end of the stream. */
  function ReadAll(data: string): Result {
    var (r, rest) := Feed(FRESH, data);
    if r.bad then Outcome(r) else Outcome(OnRest(r, rest))
  }

  /** The result when reading breaks off with another error after these bytes. */
  function ReadBroken(data: string): Result {
    var r := Feed(FRESH, data).0;
    Result(if r.bad then -1 else r.code, false, r.out, r.err)
  }

  /** One complete line at the front. */
  lemma {:induction false} FeedLine(r: Reader, line: string, tail: string)
    requires !r.bad && '\n' !in line
    ensures Feed(r, line + "\n" + tail) == Feed(OnLine(r, StripCR(line)), tail)
  {
    var data := line + "\n" + tail;
    LineEnd(line, tail);
    assert data[|line|] == '\n';
  }

  lemma {:induction false} LineEnd(line: string, tail: string)
    requires '\n' !in line
    ensures var data := line + "\n" + tail;
            IndexOf(data, '\n') == |line| && data[..|line|] == line && data[|line| + 1..] == tail
  {
    var data := line + "\n" + tail;
    assert data[|line|] == '\n' && forall k :: 0 <= k < |line| ==> data[k] == line[k];
  }

  /** Text with a line in it, taken apart behind that line. */
  lemma {:induction false} FirstLine(a: string) returns (line: string, left: string)
    requires '\n' in a
    ensures '\n' !in line && a == line + "\n" + left
  {
    var i := IndexOf(a, '\n');
    line, left := a[..i], a[i + 1..];
  }

  lemma {:induction false} Behind(line: string, left: string, b: string)
    ensures line + "\n" + left + b == line + "\n" + (left + b)
  {
  }

  /** Feeding a and then b, with what a left over put in front, is feeding a + b. */
  ghost predicate Together(r: Reader, a: string, b: string) {
    var (r1, rest) := Feed(r, a);
    if r1.bad then Feed(r, a + b).0 == r1 else Feed(r1, rest + b) == Feed(r, a + b)
  }

  lemma {:induction false} TogetherBehind(r: Reader, line: string, left: string, b: string)
    requires !r.bad && '\n' !in line && Together(OnLine(r, StripCR(line)), left, b)
    ensures Together(r, line + "\n" + left, b)
  {
    Behind(line, left, b);
    FeedLine(r, line, left);
    FeedLine(r, line, left + b);
  }

  lemma {:induction false} FeedTogether(r: Reader, a: string, b: string)
    ensures Together(r, a, b)
    decreases |a|
  {
    if !r.bad && '\n' in a {
      var line, left := FirstLine(a);
      FeedTogether(OnLine(r, StripCR(line)), left, b);
      TogetherBehind(r, line, left, b);
    }
  }

  /** ExecCommandStream's loops: chunks come in, complete lines go out. The
      result is a function of the concatenated bytes alone. */
  method ReadStream(chunks: seq<string>, atEof: bool) returns (result: Result)
    ensures result == if atEof then ReadAll(Concat(chunks)) else ReadBroken(Concat(chunks))
  {
    var exitCode, sawExitCode := 0, false;
    var stdout, stderr, lineBuffer := "", "", "";
    for k := 0 to |chunks|
      invariant Feed(FRESH, Concat(chunks[..k])) == (Reader(exitCode, sawExitCode, stdout, stderr, false), lineBuffer)
    {
      ghost var before := Reader(exitCode, sawExitCode, stdout, stderr, false);
      FeedTogether(FRESH, Concat(chunks[..k]), chunks[k]);
      assert chunks[..k + 1][..k] == chunks[..k];
      lineBuffer := lineBuffer + chunks[k];
      ghost var buffered := lineBuffer;
      while '\n' in lineBuffer
        invariant Feed(Reader(exitCode, sawExitCode, stdout, stderr, false), lineBuffer) == Feed(before, buffered)
        decreases |lineBuffer|
      {
        var i := IndexOf(lineBuffer, '\n');
        var line := StripCR(lineBuffer[..i]);
        lineBuffer := lineBuffer[i + 1..];
        if MARKER <= line {
          var code := Atoi(line[|MARKER|..]);
          if code.None? {
            CutShort(chunks, k + 1, Reader(exitCode, sawExitCode, stdout, stderr, true));
            return Result(-1, false, stdout, stderr);
          }
          exitCode, sawExitCode := code.value, true;
          continue;
        }
        if ERROR <= line {
          stderr := stderr + line[|ERROR|..] + "\n";
          continue;
        }
        stdout := stdout + line + "\n";
      }
    }
    assert chunks[..|chunks|] == chunks;
    if !atEof {
      return Result(exitCode, false, stdout, stderr);
    }
    var remaining := lineBuffer;
    if remaining != "" {
      if MARKER <= remaining {
        var code := Atoi(TrimSpace(remaining[|MARKER|..]));
        if code.None? {
          return Result(-1, false, stdout, stderr);
        }
        exitCode, sawExitCode := code.value, true;
      } else if ERROR <= remaining {
        stderr := stderr + remaining[|ERROR|..] + "\n";
      } else if TrimSpace(remaining) != "" {
        stdout := stdout + remaining;
      }
    }
    if !sawExitCode {
      return Result(-1, false, stdout, stderr);
    }
    return Result(exitCode, true, stdout, stderr);
  }

  /** A reader gone bad on some chunks stays as it is on the rest. */
  lemma {:induction false} CutShort(chunks: seq<string>, k: nat, r: Reader)
    requires k <= |chunks| && r.bad && Feed(FRESH, Concat(chunks[..k])).0 == r
    ensures Feed(FRESH, Concat(chunks)).0 == r
    decreases |chunks| - k
  {
    if k == |chunks| {
      assert chunks[..k] == chunks;
    } else {
      assert chunks[..k + 1][..k] == chunks[..k];
      FeedTogether(FRESH, Concat(chunks[..k]), chunks[k]);
      CutShort(chunks, k + 1, r);
    }
  }

  // ---- server to client ----

  /** The first line of some output, its ending removed, and all after it. */
  function FirstOf(output: string): string { StripCR(output[..IndexOf(output, '\n')]) }

  function Rest(output: string): (r: string)
    ensures output != "" ==> |r| < |output|
  {
    var i := IndexOf(output, '\n');
    if i < |output| then output[i + 1..] else ""
  }

  /** The output as the client prints it: one CR less before each line's end,
      and the last line ended. */
  function Printed(output: string): string
    decreases |output|
  {
    if output == "" then "" else FirstOf(output) + "\n" + Printed(Rest(output))
  }

  /** P holds of every line of the output, its ending removed. */
  predicate EachLine(output: string, P: string -> bool)
    decreases |output|
  {
    output == "" || (P(FirstOf(output)) && EachLine(Rest(output), P))
  }

  /** Nothing the protocol gives a meaning to. */
  predicate Plain(line: string) { !(MARKER <= line) && !(ERROR <= line) }

  /** Not a marker without a number. */
  predicate NotMalformed(line: string) { MARKER <= line ==> Atoi(line[|MARKER|..]).Some? }

  /** The reader after every line of the output, the last one ended. */
  function AfterLines(r: Reader, output: string): Reader
    decreases |output|
  {
    if r.bad || output == "" then r else AfterLines(OnLine(r, FirstOf(output)), Rest(output))
  }

  lemma Regroup(a: string, b: string, c: string, d: string, e: string)
    ensures (a + b + c) + d + e == a + b + (c + d + e)
  {
  }

  /** Output taken apart after its first line. */
  lemma TakeLine(output: string, tail: string)
    requires output != ""
    ensures var i := IndexOf(output, '\n');
            && '\n' !in output[..i]
            && output + Break(output) + tail == output[..i] + "\n" + (Rest(output) + Break(Rest(output)) + tail)
  {
    var i := IndexOf(output, '\n');
    var rest := Rest(output);
    if i < |output| {
      assert output == output[..i] + "\n" + rest;
      assert Break(rest) == Break(output);
      Regroup(output[..i], "\n", rest, Break(rest), tail);
    } else {
      assert output[..i] == output && Break(output) == "\n";
      assert rest + Break(rest) + tail == tail;
    }
  }

  /** Whatever follows the output starts on a line of its own. */
  lemma {:induction false} FeedOutput(r: Reader, output: string, tail: string)
    ensures var r1 := AfterLines(r, output);
            if r1.bad then Feed(r, output + Break(output) + tail).0 == r1
            else Feed(r, output + Break(output) + tail) == Feed(r1, tail)
    decreases |output|
  {
    if r.bad {
    } else if output == "" {
      assert output + Break(output) + tail == tail;
    } else {
      TakeLine(output, tail);
      FeedLine(r, output[..IndexOf(output, '\n')], Rest(output) + Break(Rest(output)) + tail);
      FeedOutput(OnLine(r, FirstOf(output)), Rest(output), tail);
    }
  }

  function WithOut(r: Reader, more: string): Reader { r.(out := r.out + more) }

  lemma PlainLine(r: Reader, line: string)
    requires Plain(line)
    ensures OnLine(r, line) == WithOut(r, line + "\n")
  {
    assert r.out + line + "\n" == r.out + (line + "\n");
  }

  lemma WithOutTwice(r: Reader, a: string, b: string)
    ensures WithOut(WithOut(r, a), b) == WithOut(r, a + b)
  {
    assert r.out + a + b == r.out + (a + b);
  }

  lemma {:induction false} PlainLines(r: Reader, output: string)
    requires !r.bad && EachLine(output, Plain)
    ensures AfterLines(r, output) == WithOut(r, Printed(output))
    decreases |output|
  {
    if output == "" {
      assert r.out + "" == r.out;
    } else {
      var line := FirstOf(output);
      PlainLine(r, line);
      PlainLines(WithOut(r, line + "\n"), Rest(output));
      WithOutTwice(r, line + "\n", Printed(Rest(output)));
    }
  }

  lemma {:induction false} BadExactlyWhenMalformed(r: Reader, output: string)
    requires !r.bad
    ensures AfterLines(r, output).bad <==> !EachLine(output, NotMalformed)
    decreases |output|
  {
    if output != "" {
      var r1 := OnLine(r, FirstOf(output));
      if !r1.bad {
        BadExactlyWhenMalformed(r1, Rest(output));
      }
    }
  }

  lemma MarkerHasNoBreak(code: int)
    ensures '\n' !in MARKER + Itoa(code) && StripCR(MARKER + Itoa(code)) == MARKER + Itoa(code)
  {
    var line := MARKER + Itoa(code);
    assert line[|line| - 1] == Itoa(code)[|Itoa(code)| - 1];
    forall k | 0 <= k < |line| ensures line[k] != '\n' {
      if k >= |MARKER| { assert line[k] == Itoa(code)[k - |MARKER|]; }
    }
  }

  lemma FeedMarker(r: Reader, code: int)
    requires !r.bad && INT64_MIN <= code <= INT64_MAX
    ensures Feed(r, MarkerLine(code)) == (r.(code := code, saw := true), "")
  {
    var line := MARKER + Itoa(code);
    MarkerHasNoBreak(code);
    FeedLine(r, line, "");
    assert line + "\n" + "" == MarkerLine(code);
    assert line[|MARKER|..] == Itoa(code);
    AtoiItoa(code);
  }

  /** The client gets the server's exit code, with no error, exactly when no
      line of the output is a marker without a number; well-formed markers in
      the output do not matter, for the last marker wins. */
  lemma ExitCodeArrivesIff(output: string, code: int)
    requires INT64_MIN <= code <= INT64_MAX
    ensures var result := ReadAll(Stream(output, code));
            (result.ok && result.code == code) <==> EachLine(output, NotMalformed)
    ensures !EachLine(output, NotMalformed) ==> !ReadAll(Stream(output, code)).ok && ReadAll(Stream(output, code)).code == -1
  {
    FeedOutput(FRESH, output, MarkerLine(code));
    BadExactlyWhenMalformed(FRESH, output);
    var r := AfterLines(FRESH, output);
    if !r.bad {
      FeedMarker(r, code);
      NothingLeft(r.(code := code, saw := true));
    }
  }

  lemma {:induction false} OneBadLine(line: string)
    requires '\n' !in line && !NotMalformed(StripCR(line))
    ensures !EachLine(line + "\n", NotMalformed)
  {
    LineEnd(line, "");
    assert line + "\n" + "" == line + "\n";
    assert FirstOf(line + "\n") == StripCR(line);
  }

  /** One such line is enough for the client to report an error and no code. */
  lemma {:induction false} MalformedMarkerStopsClient(line: string, code: int)
    requires INT64_MIN <= code <= INT64_MAX && '\n' !in line && !NotMalformed(StripCR(line))
    ensures !ReadAll(Stream(line + "\n", code)).ok && ReadAll(Stream(line + "\n", code)).code == -1
  {
    OneBadLine(line);
    ExitCodeArrivesIff(line + "\n", code);
  }

  lemma {:induction false} MarkerWithoutNumber(code: int)
    requires INT64_MIN <= code <= INT64_MAX
    ensures !ReadAll(Stream("EXIT_CODE: x" + "\n", code)).ok
  {
    var line := "EXIT_CODE: x";
    assert line[|line| - 1] == 'x' && MARKER <= line && line[|MARKER|..] == "x";
    MalformedMarkerStopsClient(line, code);
  }

  /** Output without marker-like lines arrives whole: the server's exit code,
      the output up to one CR per line and a final newline, nothing on stderr. */
  lemma PlainOutputArrives(output: string, code: int)
    requires INT64_MIN <= code <= INT64_MAX && EachLine(output, Plain)
    ensures ReadAll(Stream(output, code)) == Result(code, true, Printed(output), "")
  {
    FeedOutput(FRESH, output, MarkerLine(code));
    PlainLines(FRESH, output);
    assert "" + Printed(output) == Printed(output);
    FeedMarker(AfterLines(FRESH, output), code);
    NothingLeft(AfterLines(FRESH, output).(code := code, saw := true));
  }

  /** A failed command's code is -1 whatever its output and message; the client
      reports it without error exactly when no line of either is a malformed
      marker. What it prints is what the lines of both say. */
  lemma {:induction false} FailureArrivesIff(output: string, message: string)
    ensures var result, text := ReadAll(ErrorStream(output, message)), ERROR + message + "\n";
            var r := AfterLines(AfterLines(FRESH, output), text);
            && result.code == -1 && result.out == r.out && result.err == r.err
            && (result.ok <==> EachLine(output, NotMalformed) && EachLine(text, NotMalformed))
  {
    var text := ERROR + message + "\n";
    var r := AfterLines(AfterLines(FRESH, output), text);
    assert EndsLine(text);
    FeedMore(output, text, MarkerLine(-1));
    MalformedInEither(output, text);
    assert ErrorStream(output, message) == output + Break(output) + (text + MarkerLine(-1));
    if !r.bad { ReadMarker(ErrorStream(output, message), r, -1); }
  }

  /** What the client has after these bytes: what was read of their first part,
      if that went wrong, else what feeding the second part gives. */
  ghost predicate FedAs(r: Reader, data: string, mid: Reader, tail: string) {
    if mid.bad then Feed(r, data).0 == mid else Feed(r, data) == Feed(mid, tail)
  }

  lemma {:induction false} FeedLines(r: Reader, text: string, tail: string)
    requires EndsLine(text)
    ensures FedAs(r, text + tail, AfterLines(r, text), tail)
  {
    FeedOutput(r, text, tail);
    assert text + Break(text) == text;
  }

  lemma {:induction false} FedOn(r: Reader, data: string, mid: Reader, rest: string, end: Reader, tail: string)
    requires FedAs(r, data, mid, rest) && FedAs(mid, rest, end, tail) && (mid.bad ==> end == mid)
    ensures FedAs(r, data, end, tail)
  {
  }

  /** Complete lines behind the output, and something behind them. */
  lemma {:induction false} FeedMore(output: string, text: string, tail: string)
    requires EndsLine(text)
    ensures FedAs(FRESH, output + Break(output) + (text + tail), AfterLines(AfterLines(FRESH, output), text), tail)
  {
    var mid := AfterLines(FRESH, output);
    FeedOutput(FRESH, output, text + tail);
    FeedLines(mid, text, tail);
    FedOn(FRESH, output + Break(output) + (text + tail), mid, text + tail, AfterLines(mid, text), tail);
  }

  lemma {:induction false} MalformedInEither(output: string, text: string)
    ensures AfterLines(AfterLines(FRESH, output), text).bad <==>
            !(EachLine(output, NotMalformed) && EachLine(text, NotMalformed))
  {
    var r := AfterLines(FRESH, output);
    BadExactlyWhenMalformed(FRESH, output);
    if !r.bad { BadExactlyWhenMalformed(r, text); }
  }

  /** A stream that comes down to a marker ends with its code. */
  lemma {:induction false} ReadMarker(data: string, r: Reader, code: int)
    requires !r.bad && INT64_MIN <= code <= INT64_MAX && Feed(FRESH, data) == Feed(r, MarkerLine(code))
    ensures ReadAll(data) == Result(code, true, r.out, r.err)
  {
    FeedMarker(r, code);
    NothingLeft(r.(code := code, saw := true));
  }

  /** A failed command's message arrives on stderr, and -1 as its code. */
  lemma FailureArrives(output: string, message: string)
    requires EachLine(output, Plain) && '\n' !in message
    ensures ReadAll(ErrorStream(output, message)) == Result(-1, true, Printed(output), Message(message))
  {
    FeedOutput(FRESH, output, ERROR + message + "\n" + MarkerLine(-1));
    PlainLines(FRESH, output);
    assert "" + Printed(output) == Printed(output);
    FeedError(WithOut(FRESH, Printed(output)), message);
    assert "" + Message(message) == Message(message);
    NothingLeft(Reader(-1, true, Printed(output), Message(message), false));
  }

  /** The message as the client prints it. */
  function Message(message: string): string {
    assert ERROR <= StripCR(ERROR + message);
    StripCR(ERROR + message)[|ERROR|..] + "\n"
  }

  lemma NothingLeft(r: Reader)
    ensures OnRest(r, "") == r
  {
    assert TrimSpace("") == "";
  }

  lemma FeedError(r: Reader, message: string)
    requires !r.bad && '\n' !in message
    ensures Feed(r, ERROR + message + "\n" + MarkerLine(-1)) == (r.(err := r.err + Message(message), code := -1, saw := true), "")
  {
    ErrorLine(r, message);
    FeedLine(r, ERROR + message, MarkerLine(-1));
    FeedMarker(r.(err := r.err + Message(message)), -1);
  }

  lemma ErrorLine(r: Reader, message: string)
    ensures OnLine(r, StripCR(ERROR + message)) == r.(err := r.err + Message(message))
  {
    var line := StripCR(ERROR + message);
    assert ERROR <= line && line[1] == 'R';
    assert r.err + line[|ERROR|..] + "\n" == r.err + Message(message);
  }

  /** The complete lines of these bytes, their endings removed. */
  function CompleteLines(data: string): seq<string>
    decreases |data|
  {
    if '\n' !in data then [] else [FirstOf(data)] + CompleteLines(Rest(data))
  }

  function OnLines(r: Reader, lines: seq<string>): Reader
    decreases |lines|
  {
    if r.bad || lines == [] then r else OnLines(OnLine(r, lines[0]), lines[1..])
  }

  lemma {:induction false} FeedIsOnLines(r: Reader, data: string)
    ensures Feed(r, data).0 == OnLines(r, CompleteLines(data))
    decreases |data|
  {
    if !r.bad && '\n' in data {
      var lines := CompleteLines(data);
      assert lines[0] == FirstOf(data) && lines[1..] == CompleteLines(Rest(data));
      FeedIsOnLines(OnLine(r, FirstOf(data)), Rest(data));
    }
  }

  /** The code a line carries, if it is a marker that carries one. */
  function MarkerCode(line: string): Option<int> {
    if MARKER <= line then Atoi(line[|MARKER|..]) else None
  }

  function LastCode(lines: seq<string>): Option<int> {
    if lines == [] then None
    else
      var later := LastCode(lines[1..]);
      if later.Some? then later else MarkerCode(lines[0])
  }

  lemma LineCode(r: Reader, line: string)
    ensures OnLine(r, line).bad <==> r.bad || !NotMalformed(line)
    ensures !OnLine(r, line).bad ==> OnLine(r, line).saw == (r.saw || MarkerCode(line).Some?)
    ensures !OnLine(r, line).bad ==> OnLine(r, line).code == if MarkerCode(line).Some? then MarkerCode(line).value else r.code
  {
  }

  /** Among well-formed markers the last one wins, wherever they stand. */
  lemma {:induction false} LastMarkerWins(r: Reader, lines: seq<string>)
    requires !r.bad && forall i :: 0 <= i < |lines| ==> NotMalformed(lines[i])
    ensures OnLines(r, lines).saw == (r.saw || LastCode(lines).Some?)
    ensures OnLines(r, lines).code == if LastCode(lines).Some? then LastCode(lines).value else r.code
    ensures !OnLines(r, lines).bad
    decreases |lines|
  {
    if lines != [] {
      LineCode(r, lines[0]);
      LastMarkerWins(OnLine(r, lines[0]), lines[1..]);
    }
  }

  // ---- a stream cut short ----

  /** A proper prefix of a number's digits is a smaller number's digits. */
  lemma {:induction false} DecimalPrefix(n: nat, j: nat) returns (m: nat)
    requires 0 < j < |Decimal(n)|
    ensures m < n && Decimal(n)[..j] == Decimal(m)
  {
    var d, init := Decimal(n), Decimal(n / 10);
    assert d == init + [DigitChar(n % 10)];
    assert d[..j] == init[..j];
    if j == |init| {
      m := n / 10;
      assert init[..j] == init;
    } else {
      m := DecimalPrefix(n / 10, j);
    }
  }

  /** What Atoi makes of the first j characters of a printed number: nothing of
      none or of a sign alone, else a number, and the right one only from all. */
  lemma {:induction false} AtoiOfPrefix(code: int, j: nat)
    requires INT64_MIN <= code <= INT64_MAX && j <= |Itoa(code)|
    ensures var v := Atoi(Itoa(code)[..j]);
            (v.Some? <==> j > Sign(code)) && (v == Some(code) <==> j == |Itoa(code)|)
  {
    var text := Itoa(code);
    AtoiItoa(code);
    if j == |text| {
      assert text[..j] == text;
    } else if j <= Sign(code) {
      assert text[..j] == "" || text[..j] == "-";
    } else if code >= 0 {
      var m := DecimalPrefix(code, j);
      assert text[..j] == Itoa(m);
      AtoiItoa(m);
    } else {
      var m := DecimalPrefix(-code, j - 1);
      assert text[..j] == "-" + Decimal(-code)[..j - 1];
      NegativeAtoi(m);
    }
  }

  /** How many characters of a printed number are not digits. */
  function Sign(code: int): nat { if code < 0 then 1 else 0 }

  lemma {:induction false} NegativeAtoi(m: int)
    requires 0 <= m <= INT64_MAX
    ensures Atoi("-" + Decimal(m)) == Some(-m)
  {
    DecimalRoundTrip(m);
    var s := "-" + Decimal(m);
    assert s[1..] == Decimal(m);
  }

  /** A line that is no marker has no beginning that is one. */
  lemma {:induction false} NoMarkerBefore(raw: string, n: nat)
    requires n <= |raw| && !(MARKER <= StripCR(raw))
    ensures !(MARKER <= raw[..n])
  {
    if |MARKER| <= n {
      assert MARKER[|MARKER| - 1] == ' ';
      assert forall k :: 0 <= k < |MARKER| ==> raw[..n][k] == raw[k];
      if |raw| == |MARKER| {
        assert raw[..n] == raw;
      } else {
        assert |StripCR(raw)| >= |MARKER| && forall k :: 0 <= k < |MARKER| ==> StripCR(raw)[k] == raw[k];
      }
    }
  }

  lemma {:induction false} SliceAt(s: string, i: nat, n: nat)
    requires i < n <= |s| && s[i] == '\n'
    ensures s[..n] == s[..i] + "\n" + s[i + 1..][..n - i - 1]
  {
  }

  /** A cut behind the first line: that line, and the cut in what follows. */
  lemma {:induction false} CutBehindLine(output: string, n: nat) returns (raw: string, m: nat)
    requires IndexOf(output, '\n') < n <= |output|
    ensures '\n' !in raw && StripCR(raw) == FirstOf(output)
    ensures m <= |Rest(output)| && output[..n] == raw + "\n" + Rest(output)[..m]
  {
    var i := IndexOf(output, '\n');
    raw, m := output[..i], n - i - 1;
    SliceAt(output, i, n);
  }

  /** A cut in the first line. */
  lemma {:induction false} CutBeforeLine(output: string, n: nat) returns (raw: string)
    requires n <= IndexOf(output, '\n')
    ensures '\n' !in raw && StripCR(raw) == FirstOf(output) && n <= |raw| && output[..n] == raw[..n]
  {
    raw := output[..IndexOf(output, '\n')];
  }

  lemma {:induction false} PlainKeeps(r: Reader, line: string)
    requires Plain(line)
    ensures OnLine(r, line).bad == r.bad && OnLine(r, line).saw == r.saw
  {
  }

  /** What the client holds of a line that is not complete. */
  lemma {:induction false} CutInLine(r: Reader, raw: string, n: nat)
    requires n <= |raw| && '\n' !in raw && Plain(StripCR(raw))
    ensures Feed(r, raw[..n]) == (r, raw[..n]) && !(MARKER <= raw[..n])
  {
    assert '\n' !in raw[..n];
    NoMarkerBefore(raw, n);
  }

  /** No marker seen and none begun. */
  ghost predicate Unmarked(r: Reader, data: string) {
    var (r1, rest) := Feed(r, data);
    !r1.bad && r1.saw == r.saw && !(MARKER <= rest)
  }

  lemma {:induction false} UnmarkedLine(r: Reader, raw: string, tail: string)
    requires !r.bad && '\n' !in raw && Plain(StripCR(raw)) && Unmarked(OnLine(r, StripCR(raw)), tail)
    ensures Unmarked(r, raw + "\n" + tail)
  {
    FeedLine(r, raw, tail);
    PlainKeeps(r, StripCR(raw));
  }

  /** Cut anywhere, plain output shows the client no marker. */
  lemma {:induction false} CutOutput(r: Reader, output: string, n: nat)
    requires !r.bad && EachLine(output, Plain) && n <= |output|
    ensures Unmarked(r, output[..n])
    decreases |output|
  {
    if output == "" {
      assert output[..n] == "";
    } else if IndexOf(output, '\n') < n {
      var raw, m := CutBehindLine(output, n);
      PlainKeeps(r, FirstOf(output));
      CutOutput(OnLine(r, FirstOf(output)), Rest(output), m);
      UnmarkedLine(r, raw, Rest(output)[..m]);
    } else {
      var raw := CutBeforeLine(output, n);
      CutInLine(r, raw, n);
    }
  }

  lemma {:induction false} NoSpaceInNumber(code: int, j: nat)
    requires j <= |Itoa(code)|
    ensures TrimSpace(Itoa(code)[..j]) == Itoa(code)[..j]
  {
    var t := Itoa(code)[..j];
    if t != "" { TrimNothing(t); }
  }

  lemma {:induction false} RestIsMarker(r: Reader, text: string)
    requires TrimSpace(text) == text
    ensures OnRest(r, MARKER + text) == OnMarker(r, text)
  {
    assert (MARKER + text)[|MARKER|..] == text;
  }

  lemma {:induction false} RestIsNoMarker(r: Reader, rest: string)
    requires |rest| < |MARKER|
    ensures OnRest(r, rest).saw == r.saw && OnRest(r, rest).bad == r.bad
  {
  }

  /** Cut inside or right after the marker. */
  lemma {:induction false} CutMarker(r: Reader, code: int, n: nat)
    requires !r.bad && !r.saw && INT64_MIN <= code <= INT64_MAX && 0 < n <= |MARKER| + |Itoa(code)|
    ensures CutRight(Outcome(OnRest(r, (MARKER + Itoa(code))[..n])), code, n - |MARKER|)
  {
    CutOfTwo(MARKER, Itoa(code), n);
    if n < |MARKER| {
      RestIsNoMarker(r, MARKER[..n]);
    } else {
      var j := n - |MARKER|;
      assert (MARKER + Itoa(code))[..n] == MARKER + Itoa(code)[..j];
      NoSpaceInNumber(code, j);
      RestIsMarker(r, Itoa(code)[..j]);
      AtoiOfPrefix(code, j);
    }
  }

  /** What is right of a result for a stream cut so that this many characters of
      the code, the newline behind it counting as one, are left. */
  ghost predicate CutRight(result: Result, code: int, digits: int) {
    && (result.ok <==> digits > Sign(code))
    && (result.ok && result.code == code <==> digits >= |Itoa(code)|)
    && (result.ok && digits <= |Itoa(code)| ==> Atoi(Itoa(code)[..digits]) == Some(result.code))
  }

  lemma {:induction false} CutInOutput(output: string, code: int, n: nat)
    requires EachLine(output, Plain) && n <= |output|
    ensures CutRight(ReadAll(output[..n]), code, n - |output| - |MARKER|)
  {
    CutOutput(FRESH, output, n);
  }

  lemma {:induction false} CutAfterOutput(output: string, code: int)
    requires EachLine(output, Plain)
    ensures CutRight(ReadAll(output + Break(output) + ""), code, -|MARKER|)
  {
    PlainLines(FRESH, output);
    FeedOutput(FRESH, output, "");
    NothingLeft(AfterLines(FRESH, output));
  }

  lemma {:induction false} CutInMarker(output: string, code: int, n: nat)
    requires INT64_MIN <= code <= INT64_MAX && EachLine(output, Plain) && 0 < n <= |MARKER| + |Itoa(code)|
    ensures CutRight(ReadAll(output + Break(output) + (MARKER + Itoa(code))[..n]), code, n - |MARKER|)
  {
    var tail := (MARKER + Itoa(code))[..n];
    PlainLines(FRESH, output);
    FeedOutput(FRESH, output, tail);
    MarkerHasNoBreak(code);
    assert '\n' !in tail;
    CutMarker(AfterLines(FRESH, output), code, n);
  }

  /** The first n bytes of the stream of some plain output, and then its end.
      The client reports success exactly when the cut leaves at least one digit
      of the code, and the code it reports is the server's exactly when at most
      the last newline is missing; a cut between digits is not noticed. */
  lemma {:induction false} CutStream(output: string, code: int, n: nat)
    requires INT64_MIN <= code <= INT64_MAX && EachLine(output, Plain) && n <= |Stream(output, code)|
    ensures CutRight(ReadAll(Stream(output, code)[..n]), code, n - |output + Break(output)| - |MARKER|)
  {
    var head, mark, all := output + Break(output), MARKER + Itoa(code), Stream(output, code);
    assert all == head + (mark + "\n");
    CutOfTwo(head, mark + "\n", n);
    if n == |all| {
      CutNowhere(output, code);
    } else if n > |head| {
      CutOfTwo(mark, "\n", n - |head|);
      CutInMarker(output, code, n - |head|);
    } else if n == |head| {
      assert head[..n] == head + "";
      CutAfterOutput(output, code);
    } else {
      CutOfTwo(output, Break(output), n);
      CutInOutput(output, code, n);
    }
  }

  lemma {:induction false} CutOfTwo(a: string, b: string, n: nat)
    requires n <= |a| + |b|
    ensures (a + b)[..n] == if n <= |a| then a[..n] else a + b[..n - |a|]
  {
  }

  lemma {:induction false} CutNowhere(output: string, code: int)
    requires INT64_MIN <= code <= INT64_MAX && EachLine(output, Plain)
    ensures Stream(output, code)[..|Stream(output, code)|] == Stream(output, code)
    ensures CutRight(ReadAll(Stream(output, code)), code, |Itoa(code)| + 1)
  {
    PlainOutputArrives(output, code);
  }

  /** A stream cut after the first digit of 137 is read as a success with code 1. */
  lemma CutMarkerIsTrusted()
    ensures var result := ReadAll(Stream("", 137)[..|MARKER| + 1]); result.ok && result.code == 1
  {
    assert Decimal(1) == "1" && Decimal(13) == "1" + "3" && Decimal(137) == "1" + "3" + "7";
    CutStream("", 137, |MARKER| + 1);
    assert Itoa(137)[..1] == Itoa(1);
    AtoiItoa(1);
  }

  // ---- the bytes on the wire ----

  /** The streams letter by letter: output, a break if it lacks one, and the
      marker; for a failure the message before a marker of -1. */
  lemma {:induction false} WireFormat()
    ensures Stream("hi", 0) == "hi" + "\n" + "EXIT_CODE: " + "0" + "\n"
    ensures Stream("hi\n", 7) == "hi\n" + "EXIT_CODE: " + "7" + "\n"
    ensures ErrorStream("", "boom") == "ERROR: " + "boom" + "\n" + "EXIT_CODE: " + "-1" + "\n"
  {
    assert Itoa(0) == "0" && Itoa(7) == "7" && Itoa(-1) == "-" + Decimal(1) && Decimal(1) == "1";
    assert "hi"[1] == 'i' && "hi\n"[2] == '\n';
    assert "-" + "1" == "-1";
  }
}
