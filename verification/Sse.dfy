/**
  Server-sent events: the framing of ui/stream.go, read back by the event stream parser of
  sections 9.2.5 and 9.2.6 of the HTML standard.
 */
module Sse {

  predicate NoBreaks(s: string) {
    forall i :: 0 <= i < |s| ==> s[i] != '\n' && s[i] != '\r'
  }

  // ----- what the writer does -----

  /** The text without its carriage returns. */
  function StripCr(s: string): string {
    if s == [] then []
    else if s[0] == '\r' then StripCr(s[1..])
    else [s[0]] + StripCr(s[1..])
  }

  /** Every other character stays, in its place: the text is stripped piece by piece. */
  lemma {:induction false} StripCrPieces(s: string, t: string)
    ensures StripCr(s + t) == StripCr(s) + StripCr(t)
  {
    if s == [] {
      assert s + t == t;
    } else {
      assert (s + t)[1..] == s[1..] + t;
      StripCrPieces(s[1..], t);
    }
  }

  /** A carriage return goes and any other character is kept, wherever it stands. */
  lemma StripCrAt(s: string, c: char, t: string)
    ensures StripCr(s + [c] + t) == StripCr(s) + (if c == '\r' then [] else [c]) + StripCr(t)
  {
    StripCrPieces(s, [c]);
    StripCrPieces(s + [c], t);
    assert [c][1..] == [];
  }

  /** The lines of a text; there is always at least one. */
  function Split(s: string): (lines: seq<string>)
    ensures lines != []
  {
    if s == [] then [[]]
    else
      var rest := Split(s[1..]);
      if s[0] == '\n' then [[]] + rest else [[s[0]] + rest[0]] + rest[1..]
  }

  /** The lines, each with its newline. */
  function Terminated(lines: seq<string>): string {
    if lines == [] then [] else lines[0] + "\n" + Terminated(lines[1..])
  }

  lemma {:induction false} SplitTerminated(s: string)
    ensures Terminated(Split(s)) == s + "\n"
  {
    if s == [] {
      assert Terminated([[]]) == [] + "\n" + Terminated([]);
    } else {
      var rest := Split(s[1..]);
      SplitTerminated(s[1..]);
      assert s == [s[0]] + s[1..];
      if s[0] == '\n' {
        assert ([[]] + rest)[1..] == rest;
      } else {
        assert ([[s[0]] + rest[0]] + rest[1..])[1..] == rest[1..];
        assert Terminated(rest) == rest[0] + "\n" + Terminated(rest[1..]);
        assert Terminated(Split(s)) == [s[0]] + Terminated(rest);
      }
    }
  }

  lemma {:induction false} SplitNoBreaks(s: string)
    requires '\r' !in s
    ensures forall i :: 0 <= i < |Split(s)| ==> NoBreaks(Split(s)[i])
  {
    if s != [] {
      SplitNoBreaks(s[1..]);
      var rest := Split(s[1..]);
      assert s[0] in s && NoBreaks(rest[0]);
    }
  }

  lemma {:induction false} StripCrClean(s: string)
    ensures '\r' !in StripCr(s)
    ensures '\r' !in s ==> StripCr(s) == s
  {
    if s != [] {
      StripCrClean(s[1..]);
      assert s == [s[0]] + s[1..];
    }
  }

  function DataLine(line: string): string { "data: " + line + "\n" }

  function DataLines(lines: seq<string>): string {
    if lines == [] then [] else DataLine(lines[0]) + DataLines(lines[1..])
  }

  lemma {:induction false} DataLinesAppend(lines: seq<string>, line: string)
    ensures DataLines(lines + [line]) == DataLines(lines) + DataLine(line)
  {
    var d := DataLine(line);
    if lines == [] {
      assert lines + [line] == [line];
      assert DataLines([line]) == d + DataLines([]);
    } else {
      DataLinesAppend(lines[1..], line);
      assert (lines + [line])[1..] == lines[1..] + [line];
      var first, rest := DataLine(lines[0]), DataLines(lines[1..]);
      assert first + (rest + d) == first + rest + d;
    }
  }

  lemma Regroup(a: string, b: string, c: string, d: string)
    ensures a + (b + c) + d == a + (b + (c + d)) == a + (b + c + d)
  {
    assert b + c + d == b + (c + d);
  }

  datatype Message = Event(name: string, data: string) | Comment(text: string)

  /** The bytes one call puts on the wire. */
  function Frame(m: Message): string {
    match m
    case Event(name, data) => "event: " + name + "\n" + DataLines(Split(StripCr(data))) + "\n"
    case Comment(text) => ": " + text + "\n" + "\n"
  }

  function Wire(ms: seq<Message>): string {
    if ms == [] then [] else Wire(ms[..|ms| - 1]) + Frame(ms[|ms| - 1])
  }

  class SseWriter {
    var out: string
    var flushed: string
    var pending: nat
    ghost var written: seq<Message>

    ghost predicate Valid()
      reads this
    {
      && out == Wire(written)
      && flushed <= out
      && (pending == 0 ==> flushed == out)
    }

    constructor ()
      ensures Valid() && written == [] && pending == 0
    {
      out, flushed, pending, written := [], [], 0, [];
    }

    method Event(name: string, data: string)
      requires Valid()
      modifies this
      ensures Valid() && written == old(written) + [Message.Event(name, data)]
      ensures flushed == old(flushed) && pending == old(pending) + 1
    {
      ghost var before, head := out, "event: " + name + "\n";
      out := out + ("event: " + name + "\n");
      var lines := Split(StripCr(data));
      for i := 0 to |lines|
        invariant out == before + (head + DataLines(lines[..i]))
        invariant flushed == old(flushed) && pending == old(pending) && written == old(written)
      {
        var line := DataLine(lines[i]);
        DataLinesAppend(lines[..i], lines[i]);
        assert lines[..i + 1] == lines[..i] + [lines[i]];
        Regroup(before, head, DataLines(lines[..i]), line);
        out := out + line;
      }
      assert lines[..|lines|] == lines;
      Regroup(before, head, DataLines(lines), "\n");
      out := out + "\n";
      pending := pending + 1;
      Wrote(Message.Event(name, data));
    }

    method Comment(text: string)
      requires Valid()
      modifies this
      ensures Valid() && written == old(written) + [Message.Comment(text)]
      ensures flushed == old(flushed) && pending == old(pending) + 1
    {
      out := out + (": " + text + "\n" + "\n");
      pending := pending + 1;
      Wrote(Message.Comment(text));
    }

    ghost method Wrote(m: Message)
      requires out == Wire(written) + Frame(m)
      modifies this`written
      ensures written == old(written) + [m] && out == Wire(written)
    {
      assert (written + [m])[..|written|] == written;
      written := written + [m];
    }

    /** Everything written so far is on its way. */
    method Flush()
      requires Valid()
      modifies this
      ensures Valid() && flushed == out && pending == 0 && out == old(out) && written == old(written)
    {
      if pending > 0 {
        flushed := out;
        pending := 0;
      }
    }
  }

  // ----- what a client reads -----

  datatype Parser = Parser(line: string, afterCr: bool, kind: string, buffer: string)

  datatype Dispatched = Dispatched(kind: string, data: string)

  datatype Fed = Fed(parser: Parser, events: seq<Dispatched>)

  const IDLE := Parser([], false, [], [])

  /** Field name and value of a line: split at the first colon, one space dropped after it. */
  function Field(line: string): (string, string) {
    if line == [] then ([], [])
    else if line[0] == ':' then ([], if |line| > 1 && line[1] == ' ' then line[2..] else line[1..])
    else var rest := Field(line[1..]); ([line[0]] + rest.0, rest.1)
  }

  /** A blank line: hand over the event, unless there is no data. */
  function Dispatch(p: Parser): Fed {
    var reset := Parser([], p.afterCr, [], []);
    if p.buffer == [] then Fed(reset, [])
    else
      var data := if p.buffer[|p.buffer| - 1] == '\n' then p.buffer[..|p.buffer| - 1] else p.buffer;
      Fed(reset, [Dispatched(if p.kind == [] then "message" else p.kind, data)])
  }

  /** The end of a line. */
  function EndLine(p: Parser): Fed {
    var next := p.(line := []);
    if p.line == [] then Dispatch(p)
    else if p.line[0] == ':' then Fed(next, [])
    else
      Fed(Store(next, Field(p.line).0, Field(p.line).1), [])
  }

  function Store(p: Parser, field: string, value: string): Parser {
    if field == "event" then p.(kind := value)
    else if field == "data" then p.(buffer := p.buffer + value + "\n")
    else p
  }

  /** A line ends with a line feed, a carriage return, or the pair of them. */
  function Feed(p: Parser, c: char): Fed {
    if c == '\n' && p.afterCr then Fed(p.(afterCr := false), [])
    else if c == '\n' then EndLine(p)
    else if c == '\r' then EndLine(p.(afterCr := true))
    else Fed(p.(line := p.line + [c], afterCr := false), [])
  }

  function Drive(feed: (Parser, char) -> Fed, p: Parser, s: string): Fed
    decreases |s|
  {
    if s == [] then Fed(p, [])
    else
      var first := feed(p, s[0]);
      var rest := Drive(feed, first.parser, s[1..]);
      Fed(rest.parser, first.events + rest.events)
  }

  lemma {:induction false} DriveAppend(feed: (Parser, char) -> Fed, p: Parser, s: string, t: string)
    ensures var first := Drive(feed, p, s);
            var rest := Drive(feed, first.parser, t);
            Drive(feed, p, s + t) == Fed(rest.parser, first.events + rest.events)
    decreases |s|
  {
    if s == [] {
      assert s + t == t;
    } else {
      var first := feed(p, s[0]);
      DriveAppend(feed, first.parser, s[1..], t);
      assert (s + t)[1..] == s[1..] + t;
    }
  }

  function FeedAll(p: Parser, s: string): Fed {
    Drive(Feed, p, s)
  }

  /** The stream may arrive in any pieces. */
  lemma FeedAppend(p: Parser, s: string, t: string)
    ensures var first := FeedAll(p, s);
            var rest := FeedAll(first.parser, t);
            FeedAll(p, s + t) == Fed(rest.parser, first.events + rest.events)
  {
    DriveAppend(Feed, p, s, t);
  }

  lemma {:induction false} FeedText(p: Parser, s: string)
    requires NoBreaks(s) && !p.afterCr
    ensures FeedAll(p, s) == Fed(p.(line := p.line + s), [])
    decreases |s|
  {
    if s == [] {
      assert p.line + s == p.line;
    } else {
      FeedText(p.(line := p.line + [s[0]]), s[1..]);
      assert p.line + s == p.line + [s[0]] + s[1..];
    }
  }

  lemma FeedLine(p: Parser, line: string)
    requires NoBreaks(line) && !p.afterCr && p.line == []
    ensures FeedAll(p, line + "\n") == EndLine(p.(line := line))
  {
    FeedText(p, line);
    FeedAppend(p, line, "\n");
    var q := p.(line := line);
    assert p.line + line == line;
    assert FeedAll(q, "\n") == Fed(FeedAll(Feed(q, '\n').parser, []).parser, Feed(q, '\n').events + []);
  }

  lemma FeedField(p: Parser, field: string, value: string)
    requires NoBreaks(field) && field != [] && ':' !in field && NoBreaks(value) && !p.afterCr && p.line == []
    ensures FeedAll(p, field + ": " + value + "\n") == Fed(Store(p, field, value), [])
  {
    var line := field + ": " + value;
    FeedLine(p, line);
    FieldOf(field, value);
    assert line[0] == field[0] && field[0] in field;
  }

  lemma FeedEvent(p: Parser, name: string)
    requires NoBreaks(name) && !p.afterCr && p.line == []
    ensures FeedAll(p, "event: " + name + "\n") == Fed(p.(kind := name), [])
  {
    assert "event: " + name == "event" + ": " + name;
    FeedField(p, "event", name);
  }

  lemma FeedData(p: Parser, value: string)
    requires NoBreaks(value) && !p.afterCr && p.line == []
    ensures FeedAll(p, DataLine(value)) == Fed(p.(buffer := p.buffer + value + "\n"), [])
  {
    assert "data: " + value == "data" + ": " + value;
    FeedField(p, "data", value);
  }

  lemma {:induction false} FieldOf(name: string, value: string)
    requires ':' !in name
    ensures Field(name + ": " + value) == (name, value)
  {
    var line := name + ": " + value;
    if name == [] {
      assert line == ": " + value;
      assert line[2..] == value;
    } else {
      FieldOf(name[1..], value);
      assert line[1..] == name[1..] + ": " + value;
      assert name == [name[0]] + name[1..];
    }
  }

  lemma {:induction false} FeedDataLines(p: Parser, lines: seq<string>)
    requires !p.afterCr && p.line == [] && forall i :: 0 <= i < |lines| ==> NoBreaks(lines[i])
    ensures FeedAll(p, DataLines(lines)) == Fed(p.(buffer := p.buffer + Terminated(lines)), [])
    decreases |lines|
  {
    if lines == [] {
      assert p.buffer + Terminated(lines) == p.buffer;
    } else {
      var first := DataLine(lines[0]);
      var q := p.(buffer := p.buffer + lines[0] + "\n");
      FeedData(p, lines[0]);
      FeedDataLines(q, lines[1..]);
      FeedAppend(p, first, DataLines(lines[1..]));
      assert q.buffer + Terminated(lines[1..]) == p.buffer + Terminated(lines);
    }
  }

  /** What a message means to the client. */
  function Meaning(m: Message): seq<Dispatched> {
    match m
    case Event(name, data) => [Dispatched(if name == [] then "message" else name, StripCr(data))]
    case Comment(_) => []
  }

  function Meanings(ms: seq<Message>): seq<Dispatched> {
    if ms == [] then [] else Meanings(ms[..|ms| - 1]) + Meaning(ms[|ms| - 1])
  }

  lemma FeedBlank(p: Parser)
    requires !p.afterCr && p.line == []
    ensures FeedAll(p, "\n") == Dispatch(p)
  {
    FeedLine(p, []);
    assert [] + "\n" == "\n";
  }

  /** All data lines of a text add the text to the buffer. */
  lemma FeedBody(p: Parser, data: string)
    requires !p.afterCr && p.line == []
    ensures FeedAll(p, DataLines(Split(StripCr(data)))) == Fed(p.(buffer := p.buffer + (StripCr(data) + "\n")), [])
  {
    var text := StripCr(data);
    StripCrClean(data);
    SplitNoBreaks(text);
    SplitTerminated(text);
    FeedDataLines(p, Split(text));
  }

  /** An event frame is one event, whatever its data holds. */
  lemma EventRoundTrip(name: string, data: string)
    requires NoBreaks(name)
    ensures FeedAll(IDLE, Frame(Event(name, data))) == Fed(IDLE, Meaning(Event(name, data)))
  {
    var head, body := "event: " + name + "\n", DataLines(Split(StripCr(data)));
    var p := IDLE.(kind := name);
    var q := p.(buffer := [] + (StripCr(data) + "\n"));
    FeedEvent(IDLE, name);
    FeedBody(p, data);
    FeedAppend(IDLE, head, body);
    FeedBlank(q);
    assert q.buffer[..|q.buffer| - 1] == StripCr(data);
    FeedAppend(IDLE, head + body, "\n");
  }

  // ----- which names survive -----

  predicate CleanParser(p: Parser) {
    NoBreaks(p.line) && NoBreaks(p.kind)
  }

  lemma {:induction false} FieldNoBreaks(line: string)
    requires NoBreaks(line)
    ensures NoBreaks(Field(line).1)
  {
    if line != [] && line[0] != ':' { FieldNoBreaks(line[1..]); }
  }

  lemma {:induction false} KindsNoBreaks(p: Parser, s: string)
    requires CleanParser(p)
    ensures CleanParser(FeedAll(p, s).parser)
    ensures forall e :: e in FeedAll(p, s).events ==> NoBreaks(e.kind)
    decreases |s|
  {
    if s != [] {
      FieldNoBreaks(p.line);
      KindsNoBreaks(Feed(p, s[0]).parser, s[1..]);
    }
  }

  /** An event arrives as itself exactly when its name holds no line break. */
  lemma EventRoundTripIff(name: string, data: string)
    ensures FeedAll(IDLE, Frame(Event(name, data))).events == Meaning(Event(name, data)) <==> NoBreaks(name)
  {
    if NoBreaks(name) {
      EventRoundTrip(name, data);
    } else {
      KindsNoBreaks(IDLE, Frame(Event(name, data)));
      var e := Meaning(Event(name, data))[0];
      assert !NoBreaks(e.kind);
      assert e in Meaning(Event(name, data));
    }
  }

  // ----- which comments stay silent -----

  /** The lines of a text as the client breaks them, after `line` has been read. */
  function LinesFrom(line: string, afterCr: bool, s: string): (lines: seq<string>)
    ensures lines != []
    decreases |s|
  {
    if s == [] then [line]
    else if s[0] == '\n' && afterCr then LinesFrom(line, false, s[1..])
    else if s[0] == '\n' || s[0] == '\r' then [line] + LinesFrom([], s[0] == '\r', s[1..])
    else LinesFrom(line + [s[0]], false, s[1..])
  }

  predicate HasData(lines: seq<string>) {
    exists i :: 0 <= i < |lines| && Field(lines[i]).0 == "data"
  }

  /** No line of the text after the first is a data field. */
  predicate Silent(text: string) {
    !HasData(LinesFrom([], false, text)[1..])
  }

  /** Between two lines nothing has been read of the next. */
  predicate Tidy(p: Parser) { p.afterCr ==> p.line == [] }

  lemma {:induction false} StaysTidy(p: Parser, s: string)
    requires Tidy(p)
    ensures Tidy(FeedAll(p, s).parser)
    decreases |s|
  {
    if s != [] { StaysTidy(Feed(p, s[0]).parser, s[1..]); }
  }

  lemma FeedOne(p: Parser, c: char)
    ensures FeedAll(p, [c]) == Feed(p, c)
  {
    var first := Feed(p, c);
    assert [c][1..] == [];
    assert FeedAll(p, [c]) == Fed(FeedAll(first.parser, []).parser, first.events + []);
  }

  /** After a line feed the next line starts. */
  lemma Settles(p: Parser, s: string)
    requires Tidy(p)
    ensures var q := FeedAll(p, s + "\n").parser; q.line == [] && !q.afterCr
  {
    StaysTidy(p, s);
    FeedAppend(p, s, "\n");
    FeedOne(FeedAll(p, s).parser, '\n');
  }

  /** Something has been dispatched or is about to be. */
  predicate Loud(f: Fed) { f.events != [] || f.parser.buffer != [] }

  lemma EndLineLoud(p: Parser)
    ensures Loud(EndLine(p)) <==> p.buffer != [] || Field(p.line).0 == "data"
  {
  }

  lemma MoreData(line: string, lines: seq<string>)
    ensures HasData([line] + lines) <==> Field(line).0 == "data" || HasData(lines)
  {
    var all := [line] + lines;
    assert all[0] == line && forall i :: 0 <= i < |lines| ==> all[i + 1] == lines[i];
    if HasData(lines) {
      var i :| 0 <= i < |lines| && Field(lines[i]).0 == "data";
      assert Field(all[i + 1]).0 == "data";
    }
    if HasData(all) {
      var i :| 0 <= i < |all| && Field(all[i]).0 == "data";
      assert i == 0 || lines[i - 1] == all[i];
    }
  }

  /** A text makes itself heard exactly when something was there before or one of its lines is a data field. */
  lemma {:induction false} ReadsLoud(p: Parser, s: string)
    requires Tidy(p)
    ensures Loud(FeedAll(p, s + "\n")) <==> p.buffer != [] || HasData(LinesFrom(p.line, p.afterCr, s))
    decreases |s|
  {
    if s == [] {
      assert s + "\n" == ['\n'];
      FeedOne(p, '\n');
      MoreData(p.line, []);
      if !p.afterCr { EndLineLoud(p); }
    } else {
      var first := Feed(p, s[0]);
      assert (s + "\n")[1..] == s[1..] + "\n";
      ReadsLoud(first.parser, s[1..]);
      if s[0] == '\r' || (s[0] == '\n' && !p.afterCr) {
        EndLineLoud(p.(afterCr := s[0] == '\r'));
        MoreData(p.line, LinesFrom([], s[0] == '\r', s[1..]));
      }
    }
  }

  lemma {:induction false} PrefixFirst(pre: string, line: string, afterCr: bool, s: string)
    ensures var lines := LinesFrom(line, afterCr, s);
            LinesFrom(pre + line, afterCr, s) == [pre + lines[0]] + lines[1..]
    decreases |s|
  {
    if s != [] {
      if s[0] == '\n' && afterCr {
        PrefixFirst(pre, line, false, s[1..]);
      } else if s[0] != '\n' && s[0] != '\r' {
        PrefixFirst(pre, line + [s[0]], false, s[1..]);
        assert pre + (line + [s[0]]) == pre + line + [s[0]];
      }
    }
  }

  lemma FeedComment(text: string)
    ensures var f := FeedAll(IDLE, ": " + text + "\n");
            f.parser.line == [] && !f.parser.afterCr && (Loud(f) <==> !Silent(text))
  {
    var p, lines := IDLE.(line := ": "), LinesFrom([], false, text);
    FeedText(IDLE, ": ");
    assert [] + ": " == ": ";
    FeedAppend(IDLE, ": ", text + "\n");
    assert ": " + (text + "\n") == ": " + text + "\n";
    Settles(p, text);
    ReadsLoud(p, text);
    PrefixFirst(": ", [], false, text);
    assert ": " + [] == ": ";
    MoreData(": " + lines[0], lines[1..]);
  }

  /** A comment is read as no event exactly when it is silent, and leaves no trace in any case. */
  lemma CommentRoundTripIff(text: string)
    ensures FeedAll(IDLE, Frame(Comment(text))).events == [] <==> Silent(text)
    ensures FeedAll(IDLE, Frame(Comment(text))).parser == IDLE
  {
    var f := FeedAll(IDLE, ": " + text + "\n");
    FeedComment(text);
    FeedBlank(f.parser);
    FeedAppend(IDLE, ": " + text + "\n", "\n");
  }

  /** Without line breaks a comment is silent. */
  lemma {:induction false} OneLine(line: string, text: string)
    requires NoBreaks(text)
    ensures LinesFrom(line, false, text) == [line + text]
    decreases |text|
  {
    if text == [] {
      assert line + text == line;
    } else {
      OneLine(line + [text[0]], text[1..]);
      assert line + text == line + [text[0]] + text[1..];
    }
  }

  lemma CommentRoundTrip(text: string)
    requires NoBreaks(text)
    ensures Silent(text) && FeedAll(IDLE, Frame(Comment(text))) == Fed(IDLE, [])
  {
    OneLine([], text);
    CommentRoundTripIff(text);
  }

  // ----- the stream -----

  predicate Framable(m: Message) {
    if m.Event? then NoBreaks(m.name) else Silent(m.text)
  }

  predicate AllFramable(ms: seq<Message>) {
    ms == [] || (AllFramable(ms[..|ms| - 1]) && Framable(ms[|ms| - 1]))
  }

  /** Every frame leaves the client ready for the next, with no fewer events than were meant. */
  lemma FrameEnds(m: Message)
    ensures var f := FeedAll(IDLE, Frame(m)); f.parser == IDLE && |f.events| >= |Meaning(m)|
  {
    if m.Comment? {
      CommentRoundTripIff(m.text);
    } else {
      var head, body := "event: " + m.name + "\n", DataLines(Split(StripCr(m.data)));
      Settles(IDLE, "event: " + m.name);
      var p := FeedAll(IDLE, head).parser;
      FeedBody(p, m.data);
      FeedAppend(IDLE, head, body);
      FeedBlank(FeedAll(p, body).parser);
      FeedAppend(IDLE, head + body, "\n");
    }
  }

  lemma FrameIff(m: Message)
    ensures FeedAll(IDLE, Frame(m)).events == Meaning(m) <==> Framable(m)
  {
    if m.Event? { EventRoundTripIff(m.name, m.data); } else { CommentRoundTripIff(m.text); }
  }

  lemma {:induction false} StreamEnds(ms: seq<Message>)
    ensures var f := FeedAll(IDLE, Wire(ms)); f.parser == IDLE && |f.events| >= |Meanings(ms)|
    decreases |ms|
  {
    if ms != [] {
      StreamEnds(ms[..|ms| - 1]);
      FrameEnds(ms[|ms| - 1]);
      FeedAppend(IDLE, Wire(ms[..|ms| - 1]), Frame(ms[|ms| - 1]));
    }
  }

  /**
    The client reads exactly the events written, in order, if and only if every event
    name is free of line breaks and every comment is silent: no data can end, add or
    alter an event.
   */
  lemma {:induction false} StreamRoundTripIff(ms: seq<Message>)
    ensures FeedAll(IDLE, Wire(ms)).events == Meanings(ms) <==> AllFramable(ms)
    decreases |ms|
  {
    if ms != [] {
      var front, m := ms[..|ms| - 1], ms[|ms| - 1];
      StreamRoundTripIff(front);
      LastMessage(front, m);
      FrameIff(m);
      assert front + [m] == ms;
    }
  }

  lemma LastMessage(front: seq<Message>, m: Message)
    ensures FeedAll(IDLE, Wire(front + [m])).events == Meanings(front + [m])
            <==> FeedAll(IDLE, Wire(front)).events == Meanings(front) && FeedAll(IDLE, Frame(m)).events == Meaning(m)
  {
    assert (front + [m])[..|front|] == front;
    StreamEnds(front);
    FrameEnds(m);
    FeedAppend(IDLE, Wire(front), Frame(m));
    Halves(FeedAll(IDLE, Wire(front)).events, FeedAll(IDLE, Frame(m)).events, Meanings(front), Meaning(m));
  }

  lemma Halves<T>(a: seq<T>, b: seq<T>, c: seq<T>, d: seq<T>)
    requires |a| >= |c| && |b| >= |d|
    ensures a + b == c + d <==> a == c && b == d
  {
    if a + b == c + d {
      assert |a| == |c|;
      assert a == (a + b)[..|a|] && b == (a + b)[|a|..];
      assert c == (c + d)[..|c|] && d == (c + d)[|c|..];
    }
  }
}
