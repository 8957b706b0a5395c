/** Server-sent events: the server's framing and the client's incremental reader. */
module Sse {
  import opened Text

  /** The characters that JavaScript's `trim` removes. */
  predicate IsSpace(c: char) {
    || c == ' ' || c == '\t' || c == '\n' || c == '\r' || c == '\U{000B}' || c == '\U{000C}'
    || c == '\U{00A0}' || c == '\U{1680}' || '\U{2000}' <= c <= '\U{200A}' || c == '\U{2028}' || c == '\U{2029}'
    || c == '\U{202F}' || c == '\U{205F}' || c == '\U{3000}' || c == '\U{FEFF}'
  }

  const SPACES :=
    " \t\n\r\U{000B}\U{000C}\U{00A0}\U{1680}\U{2000}\U{2001}\U{2002}\U{2003}\U{2004}\U{2005}\U{2006}\U{2007}" +
    "\U{2008}\U{2009}\U{200A}\U{2028}\U{2029}\U{202F}\U{205F}\U{3000}\U{FEFF}"

  lemma SpacesExactly(c: char)
    ensures IsSpace(c) <==> c in SPACES
  {
  }

  function TrimStart(s: string): string {
    if s != "" && IsSpace(s[0]) then TrimStart(s[1..]) else s
  }

  function TrimEnd(s: string): string {
    if s != "" && IsSpace(s[|s| - 1]) then TrimEnd(s[..|s| - 1]) else s
  }

  function Trim(s: string): string {
    TrimEnd(TrimStart(s))
  }

  /** Trimming removes the spaces at both ends and nothing else. */
  lemma {:induction false} TrimExactly(before: string, text: string, after: string)
    requires (forall i | 0 <= i < |before| :: IsSpace(before[i])) && (forall i | 0 <= i < |after| :: IsSpace(after[i]))
    requires text != "" ==> !IsSpace(text[0]) && !IsSpace(text[|text| - 1])
    ensures Trim(before + text + after) == text
    decreases |before|, |after|
  {
    hide IsSpace;
    var s := before + text + after;
    if before != "" {
      assert s[1..] == before[1..] + text + after;
      TrimExactly(before[1..], text, after);
    } else if text == "" {
      if after != "" {
        assert s[1..] == "" + text + after[1..];
        TrimExactly("", text, after[1..]);
      }
    } else {
      assert s == text + after;
      TrimsEnd(text, after);
    }
  }

  lemma {:induction false} TrimsEnd(text: string, after: string)
    requires text != "" && !IsSpace(text[|text| - 1]) && forall i | 0 <= i < |after| :: IsSpace(after[i])
    ensures TrimEnd(text + after) == text
  {
    hide IsSpace;
    if after == "" {
      assert text + after == text;
    } else {
      var n := |after| - 1;
      assert (text + after)[..|text| + n] == text + after[..n];
      TrimsEnd(text, after[..n]);
    }
  }

  /** Where the first blank line starts, as `indexOf("\n\n")` finds it. */
  function FirstBreak(s: string): (r: Option<nat>)
    ensures r.Some? ==> r.value + 2 <= |s|
  {
    if |s| < 2 then None
    else if s[0] == '\n' && s[1] == '\n' then Some(0)
    else
      match FirstBreak(s[1..])
      case None => None
      case Some(i) => Some(i + 1)
  }

  predicate BreakAt(s: string, i: int) {
    0 <= i && i + 2 <= |s| && s[i] == '\n' && s[i + 1] == '\n'
  }

  /** It is the first pair of line ends, and None only if there is no pair. */
  lemma {:induction false} FirstBreakExactly(s: string, i: nat)
    ensures FirstBreak(s) == Some(i) <==> BreakAt(s, i) && forall j | 0 <= j < i :: !BreakAt(s, j)
    ensures FirstBreak(s) == None <==> forall j :: !BreakAt(s, j)
  {
    if BreakAt(s, 0) {
      return;
    }
    if |s| >= 2 {
      var rest := s[1..];
      forall j | j > 0
        ensures BreakAt(s, j) <==> BreakAt(rest, j - 1)
      {
      }
      forall j
        ensures BreakAt(rest, j) <==> j >= 0 && BreakAt(s, j + 1)
      {
      }
      FirstBreakExactly(rest, if i > 0 then i - 1 else 0);
    }
  }

  const DATA := "data:"

  /** The first line that carries data. */
  function DataLine(frame: string): Option<string>
    decreases |frame|
  {
    match SplitOnce(frame, '\n')
    case None => if DATA <= frame then Some(frame) else None
    case Some((line, rest)) => if DATA <= line then Some(line) else DataLine(rest)
  }

  /** The payload text of a frame, before it is parsed as JSON; None when the frame is skipped. */
  function ParseFrame(frame: string): Option<string> {
    match DataLine(frame)
    case None => None
    case Some(line) =>
      (match SplitOnce(line, ':')
       case None => None
       case Some((_, value)) => if Trim(value) == "" then None else Some(Trim(value)))
  }

  /** Lines of a frame, each with its line end. */
  function Lines(lines: seq<string>): string {
    if lines == [] then "" else lines[0] + "\n" + Lines(lines[1..])
  }

  /** Lines that carry no data. */
  ghost predicate Dataless(lines: seq<string>) {
    forall i | 0 <= i < |lines| :: '\n' !in lines[i] && !("data:" <= lines[i])
  }

  lemma {:induction false} SkipsDataless(lines: seq<string>, rest: string)
    requires Dataless(lines)
    ensures DataLine(Lines(lines) + rest) == DataLine(rest)
  {
    if lines == [] {
      assert Lines(lines) + rest == rest;
    } else {
      var more := Lines(lines[1..]) + rest;
      assert Lines(lines) + rest == lines[0] + ['\n'] + more;
      SplitOnceInverse(lines[0], '\n', more);
      SkipsDataless(lines[1..], rest);
    }
  }

  /** A frame's payload is the trimmed value of its first data line; a blank value gives none. */
  lemma FirstDataLineCounts(skipped: seq<string>, value: string, tail: string)
    requires Dataless(skipped) && '\n' !in value && (tail == "" || tail[0] == '\n')
    ensures ParseFrame(Lines(skipped) + "data:" + value + tail) ==
            if Trim(value) == "" then None else Some(Trim(value))
  {
    hide Trim, Lines, DataLine, SplitOnce, Dataless;
    var line := "data:" + value;
    assert Lines(skipped) + "data:" + value + tail == Lines(skipped) + (line + tail);
    SkipsDataless(skipped, line + tail);
    IsDataLine(value, tail);
    assert line == "data" + [':'] + value;
    SplitOnceInverse("data", ':', value);
  }

  lemma IsDataLine(value: string, tail: string)
    requires '\n' !in value && (tail == "" || tail[0] == '\n')
    ensures DataLine("data:" + value + tail) == Some("data:" + value)
  {
    hide SplitOnce;
    var line := "data:" + value;
    assert '\n' !in line && DATA <= line;
    if tail == "" {
      assert line + tail == line;
      NoSplit(line, '\n');
    } else {
      assert line + tail == line + ['\n'] + tail[1..];
      SplitOnceInverse(line, '\n', tail[1..]);
    }
  }

  /** A frame without a data line is skipped. */
  lemma NoDataNoPayload(lines: seq<string>, last: string)
    requires Dataless(lines) && Dataless([last])
    ensures ParseFrame(Lines(lines) + last) == None
  {
    SkipsDataless(lines, last);
    assert last == [last][0];
    NoSplit(last, '\n');
  }

  /** The payloads of all complete frames of a text. */
  function Payloads(s: string): seq<string>
    decreases |s|
  {
    match FirstBreak(s)
    case None => []
    case Some(i) => OneOrNone(ParseFrame(s[..i])) + Payloads(s[i + 2..])
  }

  /** What is left after the last complete frame. */
  function Remainder(s: string): string
    decreases |s|
  {
    match FirstBreak(s)
    case None => s
    case Some(i) => Remainder(s[i + 2..])
  }

  function Concat(chunks: seq<string>): string {
    if chunks == [] then "" else Concat(chunks[..|chunks| - 1]) + chunks[|chunks| - 1]
  }

  lemma {:induction false} BreakStays(a: string, b: string)
    requires FirstBreak(a).Some?
    ensures FirstBreak(a + b) == FirstBreak(a)
  {
    if !(a[0] == '\n' && a[1] == '\n') {
      assert (a + b)[1..] == a[1..] + b;
      BreakStays(a[1..], b);
    }
  }

  lemma NoFrame(s: string)
    requires FirstBreak(s).None?
    ensures Payloads(s) == [] && Remainder(s) == s
  {
    hide FirstBreak;
  }

  lemma FrameStep(s: string, i: nat, b: string)
    requires FirstBreak(s) == Some(i) && FirstBreak(s + b) == Some(i)
    ensures Payloads(s) == OneOrNone(ParseFrame(s[..i])) + Payloads(s[i + 2..]) && Remainder(s) == Remainder(s[i + 2..])
    ensures Payloads(s + b) == OneOrNone(ParseFrame(s[..i])) + Payloads(s[i + 2..] + b)
    ensures Remainder(s + b) == Remainder(s[i + 2..] + b)
  {
    hide FirstBreak, ParseFrame;
    assert (s + b)[..i] == s[..i] && (s + b)[i + 2..] == s[i + 2..] + b;
  }

  /** Complete frames can be read before the rest of the text arrives. */
  lemma {:induction false} ReadAhead(a: string, b: string)
    ensures Payloads(a + b) == Payloads(a) + Payloads(Remainder(a) + b)
    ensures Remainder(a + b) == Remainder(Remainder(a) + b)
    decreases |a|
  {
    hide *;
    if FirstBreak(a).None? {
      NoFrame(a);
    } else {
      var i := FirstBreak(a).value;
      assert i + 2 <= |a|;
      BreakStays(a, b);
      FrameStep(a, i, b);
      ReadAhead(a[i + 2..], b);
      var first, rest := OneOrNone(ParseFrame(a[..i])), Payloads(a[i + 2..]);
      assert first + (rest + Payloads(Remainder(a) + b)) == (first + rest) + Payloads(Remainder(a) + b);
    }
  }

  /** The reader's result does not depend on how the text was cut into chunks. */
  method ReadSse(chunks: seq<string>) returns (events: seq<string>)
    ensures events == Payloads(Concat(chunks))
  {
    events := [];
    var buffer := "";
    for n := 0 to |chunks|
      invariant events == Payloads(Concat(chunks[..n])) && buffer == Remainder(Concat(chunks[..n]))
    {
      ghost var before := Concat(chunks[..n]);
      ReadAhead(before, chunks[n]);
      assert chunks[..n + 1][..n] == chunks[..n];
      buffer := buffer + chunks[n];
      events, buffer := DrainFrames(events, buffer);
    }
    assert chunks[..|chunks|] == chunks;
  }

  /** The inner loop: yields every complete frame of the buffer. */
  method DrainFrames(already: seq<string>, text: string) returns (events: seq<string>, buffer: string)
    ensures events == already + Payloads(text) && buffer == Remainder(text)
  {
    hide FirstBreak, ParseFrame;
    events, buffer := already, text;
    var boundary := FirstBreak(buffer);
    while boundary.Some?
      invariant boundary == FirstBreak(buffer)
      invariant events + Payloads(buffer) == already + Payloads(text)
      invariant Remainder(buffer) == Remainder(text)
      decreases |buffer|
    {
      var frame := buffer[..boundary.value];
      buffer := buffer[boundary.value + 2..];
      var event := ParseFrame(frame);
      if event.Some? {
        events := events + [event.value];
      }
      boundary := FirstBreak(buffer);
    }
  }

  // ---------------------------------------------------------------------------------------------
  // The server's framing is read back.
  // ---------------------------------------------------------------------------------------------

  /** A payload as the server sends it: one line of text without surrounding space. */
  predicate CleanPayload(p: string) {
    p != "" && '\n' !in p && !IsSpace(p[0]) && !IsSpace(p[|p| - 1])
  }

  function Framed(p: string): string {
    "data: " + p + "\n\n"
  }

  function Wire(payloads: seq<string>): string {
    if payloads == [] then "" else Framed(payloads[0]) + Wire(payloads[1..])
  }

  lemma {:induction false} BreakAfter(line: string, rest: string)
    requires '\n' !in line
    ensures FirstBreak(line + "\n\n" + rest) == Some(|line|)
  {
    var s := line + "\n\n" + rest;
    if line != "" {
      assert s[1..] == line[1..] + "\n\n" + rest;
      assert line == [line[0]] + line[1..];
      BreakAfter(line[1..], rest);
    }
  }

  lemma {:induction false} NoSplit(s: string, c: char)
    requires c !in s
    ensures SplitOnce(s, c) == None
  {
    if s != "" {
      assert s == [s[0]] + s[1..];
      NoSplit(s[1..], c);
    }
  }

  lemma FramedPayload(p: string)
    requires CleanPayload(p)
    ensures ParseFrame("data: " + p) == Some(p)
  {
    var line := "data: " + p;
    assert '\n' !in line;
    NoSplit(line, '\n');
    assert DATA <= line;
    assert line == "data" + [':'] + (" " + p);
    SplitOnceInverse("data", ':', " " + p);
    assert (" " + p)[1..] == p;
    assert TrimStart(" " + p) == p;
  }

  lemma FirstFrame(line: string, rest: string)
    requires '\n' !in line
    ensures Payloads(line + "\n\n" + rest) == OneOrNone(ParseFrame(line)) + Payloads(rest)
    ensures Remainder(line + "\n\n" + rest) == Remainder(rest)
  {
    BreakAfter(line, rest);
    hide FirstBreak, ParseFrame;
    var s := line + "\n\n" + rest;
    assert s[..|line|] == line && s[|line| + 2..] == rest;
  }

  /** Any sequence of clean payloads, framed by the server, is read back exactly and leaves nothing over. */
  lemma {:induction false} WireRoundTrip(payloads: seq<string>)
    requires forall i | 0 <= i < |payloads| :: CleanPayload(payloads[i])
    ensures Payloads(Wire(payloads)) == payloads && Remainder(Wire(payloads)) == ""
  {
    hide Payloads, Remainder, ParseFrame;
    if payloads == [] {
      NoFrame("") by { assert FirstBreak("").None?; }
    } else {
      var line, rest := "data: " + payloads[0], Wire(payloads[1..]);
      assert Wire(payloads) == line + "\n\n" + rest;
      FirstFrame(line, rest);
      FramedPayload(payloads[0]);
      WireRoundTrip(payloads[1..]);
      assert payloads == [payloads[0]] + payloads[1..];
    }
  }
}
