/** Framing of command output into lines that are redacted one by one
    (app/deployment/output.js:17-41).  What `redact` does to a line is left open. */
module LineRedactor {
  import opened Options

  const LIMIT: nat := 65536
  const MARKER := "[oversized output line omitted]"

  /** The output as it arrived: its characters, and where each chunk ended. */
  datatype Event = Ch(c: char) | Cut

  type History = seq<Event>

  function Chars(s: string): (h: History)
    ensures |h| == |s|
  {
    seq(|s|, i requires 0 <= i < |s| => Ch(s[i]))
  }

  function Last<T>(s: seq<T>): T
    requires s != []
  {
    s[|s| - 1]
  }

  function Front<T>(s: seq<T>): seq<T>
    requires s != []
  {
    s[..|s| - 1]
  }

  /** The lines of a history; the last one has not ended yet. */
  function Lines(h: History): (ls: seq<History>)
    ensures ls != []
  {
    if h == [] then [[]]
    else if Last(h) == Ch('\n') then Lines(Front(h)) + [[]]
    else Front(Lines(Front(h))) + [Last(Lines(Front(h))) + [Last(h)]]
  }

  function Text(h: History): string {
    if h == [] then "" else Text(Front(h)) + if Last(h).Ch? then [Last(h).c] else ""
  }

  /** Some chunk ended more than `LIMIT` characters into the line. */
  ghost predicate Overran(line: History) {
    exists i :: 0 <= i < |line| && line[i].Cut? && |Text(line[..i])| > LIMIT
  }

  /** What one line, cut into chunks in its own way, comes out as. */
  ghost function Emission(line: History, redact: string -> string): string {
    if Overran(line) then MARKER else redact(Text(line))
  }

  ghost function Emissions(lines: seq<History>, redact: string -> string): (r: seq<string>)
    ensures |r| == |lines|
  {
    seq(|lines|, i requires 0 <= i < |lines| => Emission(lines[i], redact))
  }

  /** One emission for each line that has ended; the marker of a line that overran comes
      before its end. */
  ghost function Expected(h: History, redact: string -> string): seq<string> {
    Emissions(Front(Lines(h)), redact) + if Overran(Last(Lines(h))) then [MARKER] else []
  }

  /** Everything that has come out when the output ends: a last line without a newline as
      well, unless it is empty. */
  ghost function Closed(h: History, redact: string -> string): seq<string> {
    var tail := Last(Lines(h));
    Emissions(Front(Lines(h)), redact) + if Text(tail) == "" && !Overran(tail) then [] else [Emission(tail, redact)]
  }

  lemma {:induction false} TextAppend(a: History, b: History)
    ensures Text(a + b) == Text(a) + Text(b)
  {
    if b == [] {
      assert a + b == a;
    } else {
      TextAppend(a, Front(b));
      assert Front(a + b) == a + Front(b) && Last(a + b) == Last(b);
    }
  }

  lemma {:induction false} TextOfChars(s: string)
    ensures Text(Chars(s)) == s
  {
    if s != "" {
      TextOfChars(s[..|s| - 1]);
      assert Front(Chars(s)) == Chars(s[..|s| - 1]);
    }
  }

  lemma LinesMore(h: History, e: Event)
    requires e != Ch('\n')
    ensures Lines(h + [e]) == Front(Lines(h)) + [Last(Lines(h)) + [e]]
  {
    assert Front(h + [e]) == h;
  }

  lemma {:induction false} LinesAppend(h: History, s: string)
    requires '\n' !in s
    ensures Lines(h + Chars(s)) == Front(Lines(h)) + [Last(Lines(h)) + Chars(s)]
  {
    hide Lines;
    if s == "" {
      assert h + Chars(s) == h;
      assert Last(Lines(h)) + Chars(s) == Last(Lines(h));
    } else {
      var t, c := s[..|s| - 1], s[|s| - 1];
      LinesAppend(h, t);
      LinesMore(h + Chars(t), Ch(c));
      assert h + Chars(s) == h + Chars(t) + [Ch(c)];
      assert Last(Lines(h)) + Chars(s) == (Last(Lines(h)) + Chars(t)) + [Ch(c)];
    }
  }

  lemma LinesNewline(h: History)
    ensures Lines(h + [Ch('\n')]) == Lines(h) + [[]]
  {
    assert Front(h + [Ch('\n')]) == h;
  }

  /** Characters alone do not make a line overrun; the end of a chunk may. */
  lemma OverranChars(line: History, s: string)
    ensures Overran(line + Chars(s)) <==> Overran(line)
  {
    var whole := line + Chars(s);
    if Overran(whole) {
      var i :| 0 <= i < |whole| && whole[i].Cut? && |Text(whole[..i])| > LIMIT;
      assert whole[..i] == line[..i];
    }
    if Overran(line) {
      var i :| 0 <= i < |line| && line[i].Cut? && |Text(line[..i])| > LIMIT;
      assert whole[..i] == line[..i];
    }
  }

  lemma OverranCut(line: History)
    ensures Overran(line + [Cut]) <==> Overran(line) || |Text(line)| > LIMIT
  {
    hide Text;
    var whole := line + [Cut];
    if Overran(whole) {
      var i :| 0 <= i < |whole| && whole[i].Cut? && |Text(whole[..i])| > LIMIT;
      assert whole[..i] == line[..i];
      assert line[..|line|] == line;
    }
    if Overran(line) {
      var i :| 0 <= i < |line| && line[i].Cut? && |Text(line[..i])| > LIMIT;
      assert whole[..i] == line[..i];
    }
    if |Text(line)| > LIMIT {
      assert whole[..|line|] == line && whole[|line|].Cut?;
    }
  }

  lemma TextCut(line: History)
    ensures Text(line + [Cut]) == Text(line)
  {
    assert Front(line + [Cut]) == line;
  }

  lemma EmissionsPush(lines: seq<History>, line: History, redact: string -> string)
    ensures Emissions(lines + [line], redact) == Emissions(lines, redact) + [Emission(line, redact)]
  {
  }

  /** Where the state of the redactor stands with respect to what arrived: `front` is the
      part of `pending` that belongs to the open line. */
  ghost predicate Tracks(h: History, front: string, discarding: bool, out: seq<string>, redact: string -> string) {
    && '\n' !in front
    && (discarding <==> Overran(Last(Lines(h))))
    && (!discarding ==> front == Text(Last(Lines(h))))
    && out == Expected(h, redact)
  }

  /** A whole line ends. */
  lemma LineEnds(h: History, front: string, s: string, discarding: bool, out: seq<string>, redact: string -> string)
    requires Tracks(h, front, discarding, out, redact) && '\n' !in s
    ensures Tracks(h + Chars(s) + [Ch('\n')], "", false, if discarding then out else out + [redact(front + s)], redact)
  {
    hide Lines, Overran, Text, Emissions;
    var line := Last(Lines(h)) + Chars(s);
    LinesAppend(h, s);
    LinesNewline(h + Chars(s));
    OverranChars(Last(Lines(h)), s);
    TextAppend(Last(Lines(h)), Chars(s));
    TextOfChars(s);
    assert Front(Lines(h + Chars(s)) + [[]]) == Lines(h + Chars(s));
    EmissionsPush(Front(Lines(h)), line, redact);
    EmptyLine();
  }

  lemma EmptyLine()
    ensures !Overran([]) && Text([]) == ""
  {
  }

  /** A chunk ends in the middle of a line. */
  lemma ChunkEnds(h: History, front: string, s: string, discarding: bool, out: seq<string>, redact: string -> string)
    requires Tracks(h, front, discarding, out, redact) && '\n' !in s
    ensures var h' := h + Chars(s) + [Cut];
            if discarding then Tracks(h', front + s, true, out, redact) && Tracks(h', "", true, out, redact)
            else if |front + s| > LIMIT then Tracks(h', "", true, out + [MARKER], redact)
            else Tracks(h', front + s, false, out, redact)
  {
    hide Lines, Overran, Text, Emissions;
    var line := Last(Lines(h)) + Chars(s);
    LinesAppend(h, s);
    LinesMore(h + Chars(s), Cut);
    OverranChars(Last(Lines(h)), s);
    OverranCut(line);
    TextAppend(Last(Lines(h)), Chars(s));
    TextOfChars(s);
    TextCut(line);
  }

  class Redactor {
    const redact: string -> string
    var pending: string
    var discarding: bool
    var emitted: seq<string>
    ghost var history: History

    ghost predicate Valid()
      reads this
    {
      Tracks(history, pending, discarding, emitted, redact)
    }

    constructor (redact: string -> string)
      ensures Valid() && history == [] && emitted == [] && this.redact == redact
    {
      this.redact := redact;
      pending, discarding, emitted, history := "", false, [], [];
      new;
      EmptyLine();
    }

    /** After any chunk the emissions are those of the lines so far. */
    method Write(chunk: string)
      requires Valid()
      modifies this
      ensures Valid() && history == old(history) + Chars(chunk) + [Cut]
      ensures emitted == Expected(history, redact)
    {
      hide Tracks, Expected, Chars;
      ghost var front := pending;
      ghost var h := history;
      ghost var rest := chunk;
      pending := pending + chunk;
      var newline := IndexOfNewline(pending);
      while newline.Some?
        invariant Tracks(h, front, discarding, emitted, redact) && pending == front + rest
        invariant history == old(history)
        invariant h + Chars(rest) == old(history) + Chars(chunk)
        invariant newline == IndexOfNewline(pending)
        decreases |pending|
      {
        FrontHasNone(h, front, discarding, emitted, redact);
        CutAtNewline(h, front, rest, newline.value);
        ghost var k := newline.value - |front|;
        var line := pending[..newline.value];
        pending := pending[newline.value + 1..];
        LineEnds(h, front, rest[..k], discarding, emitted, redact);
        if !discarding { emitted := emitted + [redact(line)]; }
        discarding := false;
        h, front, rest := h + Chars(rest[..k]) + [Ch('\n')], "", rest[k + 1..];
        newline := IndexOfNewline(pending);
      }
      FrontHasNone(h, front, discarding, emitted, redact);
      assert '\n' !in rest;
      history := history + Chars(chunk);
      CutChunk(h, front, rest);
      TracksMeans(history, pending, discarding, emitted, redact);
    }

    /** The end of a chunk: an open line over the limit is given up. */
    method CutChunk(ghost h: History, ghost front: string, ghost rest: string)
      requires Tracks(h, front, discarding, emitted, redact) && '\n' !in rest
      requires pending == front + rest && history == h + Chars(rest)
      modifies this
      ensures Valid() && history == old(history) + [Cut]
    {
      hide Tracks;
      ChunkEnds(h, front, rest, discarding, emitted, redact);
      history := history + [Cut];
      if |pending| > LIMIT {
        if !discarding { emitted := emitted + [MARKER]; }
        pending := "";
        discarding := true;
      }
    }

    /** A last line without a newline comes out too, unless it is empty. */
    method End()
      requires Valid()
      modifies this`pending, this`emitted
      ensures emitted == Closed(history, redact) && pending == ""
    {
      if pending != "" && !discarding { emitted := emitted + [redact(pending)]; }
      pending := "";
    }
  }

  function IndexOfNewline(s: string): (r: Option<nat>)
    ensures r.Some? ==> r.value < |s| && s[r.value] == '\n' && '\n' !in s[..r.value]
    ensures r.None? ==> '\n' !in s
  {
    if s == "" then None
    else if s[0] == '\n' then Some(0)
    else
      var r := IndexOfNewline(s[1..]);
      assert r.Some? ==> s[..r.value + 1] == [s[0]] + s[1..][..r.value];
      if r.Some? then Some(r.value + 1) else None
  }

  lemma CutAtNewline(h: History, front: string, rest: string, at: nat)
    requires '\n' !in front && at < |front + rest| && (front + rest)[at] == '\n' && '\n' !in (front + rest)[..at]
    ensures |front| <= at
    ensures var k := at - |front|;
            && (front + rest)[..at] == front + rest[..k] && '\n' !in rest[..k]
            && (front + rest)[at + 1..] == rest[k + 1..]
            && h + Chars(rest) == h + Chars(rest[..k]) + [Ch('\n')] + Chars(rest[k + 1..])
  {
    assert forall i :: 0 <= i < |front| ==> (front + rest)[i] == front[i] && front[i] in front;
    var k := at - |front|;
    assert rest == rest[..k] + ['\n'] + rest[k + 1..];
    assert (front + rest)[..at] == front + rest[..k];
    assert forall i :: 0 <= i < k ==> rest[i] == (front + rest)[..at][|front| + i];
  }

  lemma FrontHasNone(h: History, front: string, discarding: bool, out: seq<string>, redact: string -> string)
    requires Tracks(h, front, discarding, out, redact)
    ensures '\n' !in front
  {
  }

  lemma TracksMeans(h: History, front: string, discarding: bool, out: seq<string>, redact: string -> string)
    requires Tracks(h, front, discarding, out, redact)
    ensures out == Expected(h, redact)
  {
  }

  // ---------------------------------------------------------------- independent of the chunks

  /** The lines of a text; the last one has not ended. */
  function TextLines(s: string): (ls: seq<string>)
    ensures ls != []
  {
    if s == "" then [""]
    else if Last(s) == '\n' then TextLines(Front(s)) + [""]
    else Front(TextLines(Front(s))) + [Last(TextLines(Front(s))) + [Last(s)]]
  }

  lemma TextLinesPush(s: string, c: char)
    ensures TextLines(s + [c]) ==
            if c == '\n' then TextLines(s) + [""] else Front(TextLines(s)) + [Last(TextLines(s)) + [c]]
  {
    assert Front(s + [c]) == s;
  }

  lemma NoLines()
    ensures Lines([]) == [[]] && TextLines(Text([])) == [""] && Text([]) == ""
  {
  }

  lemma TextPush(h: History, e: Event)
    ensures Text(h + [e]) == if e.Ch? then Text(h) + [e.c] else Text(h)
  {
    assert Front(h + [e]) == h;
  }

  /** Cutting a text into chunks does not change its lines. */
  lemma {:induction false} LinesAreTheTexts(h: History)
    ensures |Lines(h)| == |TextLines(Text(h))|
    ensures forall i :: 0 <= i < |Lines(h)| ==> Text(Lines(h)[i]) == TextLines(Text(h))[i]
  {
    hide Lines, TextLines, Text;
    if h == [] {
      assert Lines([]) == [[]] && TextLines(Text([])) == [""] && Text([]) == "" by { NoLines(); }
    } else {
      var front, e := Front(h), Last(h);
      LinesAreTheTexts(front);
      assert h == front + [e];
      var ls := Lines(front);
      TextPush(front, e);
      if e.Ch? { TextLinesPush(Text(front), e.c); }
      if e == Ch('\n') {
        LinesNewline(front);
        EmptyLine();
      } else {
        LinesMore(front, e);
        TextPush(Last(ls), e);
      }
    }
  }

  lemma {:induction false} TextGrows(line: History, i: nat)
    requires i <= |line|
    ensures |Text(line[..i])| <= |Text(line)|
  {
    TextAppend(line[..i], line[i..]);
    assert line[..i] + line[i..] == line;
  }

  lemma ShortNeverOverruns(line: History)
    requires |Text(line)| <= LIMIT
    ensures !Overran(line)
  {
    forall i | 0 <= i < |line| && line[i].Cut? ensures |Text(line[..i])| <= LIMIT { TextGrows(line, i); }
  }

  /** Every emission is its line redacted, or the marker for a line over the limit. */
  lemma EachLineRedactedOrOmitted(h: History, redact: string -> string)
    ensures var texts, out := TextLines(Text(h)), Emissions(Lines(h), redact);
            && |out| == |texts|
            && forall i :: 0 <= i < |texts| ==> out[i] == redact(texts[i]) || (out[i] == MARKER && |texts[i]| > LIMIT)
  {
    hide Lines, TextLines, Text, Overran;
    LinesAreTheTexts(h);
    forall i | 0 <= i < |Lines(h)| ensures Overran(Lines(h)[i]) ==> |Text(Lines(h)[i])| > LIMIT {
      if |Text(Lines(h)[i])| <= LIMIT { ShortNeverOverruns(Lines(h)[i]); }
    }
  }

  function RedactAll(lines: seq<string>, redact: string -> string): seq<string> {
    seq(|lines|, i requires 0 <= i < |lines| => redact(lines[i]))
  }

  /** While no line is over the limit, what comes out depends on the text alone: any two
      ways of cutting it give the redaction of each line, in order. */
  lemma ShortLinesIgnoreChunks(h: History, redact: string -> string)
    requires forall i :: 0 <= i < |TextLines(Text(h))| ==> |TextLines(Text(h))[i]| <= LIMIT
    ensures Expected(h, redact) == RedactAll(Front(TextLines(Text(h))), redact)
    ensures !Overran(Last(Lines(h))) && Text(Last(Lines(h))) == Last(TextLines(Text(h)))
  {
    hide Lines, TextLines, Text, Overran;
    LinesAreTheTexts(h);
    forall i | 0 <= i < |Lines(h)| ensures !Overran(Lines(h)[i]) { ShortNeverOverruns(Lines(h)[i]); }
    var ls := Front(Lines(h));
    assert forall i :: 0 <= i < |ls| ==> ls[i] == Lines(h)[i];
  }

  /** The history of a sequence of writes. */
  function Arrived(chunks: seq<string>): History {
    if chunks == [] then [] else Arrived(Front(chunks)) + Chars(Last(chunks)) + [Cut]
  }

  function Whole(chunks: seq<string>): string {
    if chunks == [] then "" else Whole(Front(chunks)) + Last(chunks)
  }

  lemma {:induction false} ArrivedIsWhole(chunks: seq<string>)
    ensures Text(Arrived(chunks)) == Whole(chunks)
  {
    hide Text;
    if chunks == [] {
      EmptyLine();
    } else {
      ArrivedIsWhole(Front(chunks));
      TextAppend(Arrived(Front(chunks)), Chars(Last(chunks)));
      TextOfChars(Last(chunks));
      TextPush(Arrived(Front(chunks)) + Chars(Last(chunks)), Cut);
    }
  }

  /** What comes out of a text as a whole: each line redacted, and the rest when there is any. */
  function WholeRedacted(s: string, redact: string -> string): seq<string> {
    var lines := TextLines(s);
    RedactAll(Front(lines), redact) + if Last(lines) == "" then [] else [redact(Last(lines))]
  }

  lemma ShortLinesClosed(h: History, redact: string -> string)
    requires forall i :: 0 <= i < |TextLines(Text(h))| ==> |TextLines(Text(h))[i]| <= LIMIT
    ensures Closed(h, redact) == WholeRedacted(Text(h), redact)
  {
    hide Lines, TextLines, Text, Overran, Emissions, RedactAll;
    ShortLinesIgnoreChunks(h, redact);
    var front := Emissions(Front(Lines(h)), redact);
    assert front + [] == front;
  }

  /** Two ways of cutting one output with short lines give the same emissions, line by line
      while it arrives and with the last line once it has ended. */
  lemma FramingIgnoresChunks(a: seq<string>, b: seq<string>, redact: string -> string)
    requires Whole(a) == Whole(b)
    requires forall i :: 0 <= i < |TextLines(Whole(a))| ==> |TextLines(Whole(a))[i]| <= 65536
    ensures Expected(Arrived(a), redact) == Expected(Arrived(b), redact) == RedactAll(Front(TextLines(Whole(a))), redact)
    ensures Closed(Arrived(a), redact) == Closed(Arrived(b), redact) == WholeRedacted(Whole(a), redact)
  {
    hide Lines, TextLines, Text, Expected, Closed, WholeRedacted, RedactAll, Whole, Arrived;
    ArrivedIsWhole(a);
    ArrivedIsWhole(b);
    ShortLinesIgnoreChunks(Arrived(a), redact);
    ShortLinesIgnoreChunks(Arrived(b), redact);
    ShortLinesClosed(Arrived(a), redact);
    ShortLinesClosed(Arrived(b), redact);
  }

  lemma ArrivedTwo(a: string, b: string)
    ensures Arrived([b]) == Chars(b) + [Cut] && Arrived([a, b]) == Chars(a) + [Cut] + Chars(b) + [Cut]
    ensures Whole([b]) == b && Whole([a, b]) == a + b
  {
    assert Front([a, b]) == [a] && Front([a]) == [] && Front([b]) == [];
    assert [] + Chars(a) == Chars(a) && [] + Chars(b) == Chars(b) && "" + a == a && "" + b == b;
  }

  /** The newline of the only line, and the end of its chunk. */
  lemma LineCloses(h: History, redact: string -> string)
    requires Lines(h) == [h]
    ensures Expected(h + [Ch('\n')] + [Cut], redact) == [Emission(h, redact)]
  {
    hide Lines, Overran, Text;
    LinesNewline(h);
    LinesMore(h + [Ch('\n')], Cut);
    EmptyLine();
    OverranCut([]);
    assert Lines(h + [Ch('\n')] + [Cut]) == [h] + [[] + [Cut]];
    assert Front(Lines(h + [Ch('\n')] + [Cut])) == [h];
  }

  /** Over the limit the chunks do matter: a line whose newline arrives in a later chunk is
      omitted, and the same line is redacted whole when both arrive in one. */
  lemma LongLineDependsOnChunks(s: string, redact: string -> string)
    requires '\n' !in s && |s| > 65536
    ensures Whole([s, "\n"]) == Whole([s + "\n"]) == s + "\n"
    ensures Expected(Arrived([s, "\n"]), redact) == [MARKER]
    ensures Expected(Arrived([s + "\n"]), redact) == [redact(s)]
  {
    hide Lines, Overran, Text, Arrived, Whole, Expected;
    ArrivedTwo(s, "\n");
    ArrivedTwo(s, s + "\n");
    assert Chars(s + "\n") == Chars(s) + [Ch('\n')] && Chars("\n") == [Ch('\n')];
    NoLines();
    LinesAppend([], s);
    assert [] + Chars(s) == Chars(s);
    TextOfChars(s);
    OverranChars([], s);
    EmptyLine();
    OverranCut(Chars(s));
    LinesMore(Chars(s), Cut);
    LineCloses(Chars(s) + [Cut], redact);
    LineCloses(Chars(s), redact);
  }
}
