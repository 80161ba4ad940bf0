/**
 * Reassembling newline-delimited JSON events from a stream cut into arbitrary chunks.
 */
module EventStream {
  import opened Selections
  import opened Text

  /**
   * What a line can do once trimmed: `parse` is JSON.parse, None where it throws; `throws` says whether
   * the callback throws on an event, given the events it has had; `delta` is the text an event adds, if
   * it is a TEXT_MESSAGE_CONTENT event with a string delta.
   */
  datatype Session<!E> = Session(parse: string -> Option<E>, throws: (seq<E>, E) -> bool, delta: E -> Option<string>)

  datatype Output<E> = Output(events: seq<E>, text: string)

  function OnLine<E>(io: Session<E>, out: Output<E>, line: string): Output<E> {
    if Trim(line) == "" then out
    else match io.parse(Trim(line))
      case None => out
      case Some(event) =>
        Output(out.events + [event],
               out.text + if io.throws(out.events, event) then "" else io.delta(event).GetOr(""))
  }

  function OnLines<E>(io: Session<E>, out: Output<E>, lines: seq<string>): Output<E>
    decreases |lines|
  {
    if lines == [] then out else OnLines(io, OnLine(io, out, lines[0]), lines[1..])
  }

  function Concat(chunks: seq<string>): string {
    if chunks == [] then "" else Concat(chunks[..|chunks| - 1]) + chunks[|chunks| - 1]
  }

  /** The whole text split at once, every line handled in order. */
  function Whole<E>(io: Session<E>, text: string): Output<E> {
    OnLines(io, Output([], ""), Split(text, '\n'))
  }

  /** What has been handled when only complete lines of `text` have been. */
  function CompleteLines<E>(io: Session<E>, text: string): Output<E> {
    var lines := Split(text, '\n');
    OnLines(io, Output([], ""), lines[..|lines| - 1])
  }

  function OpenLine(text: string): string {
    var lines := Split(text, '\n');
    lines[|lines| - 1]
  }

  lemma {:induction false} OnLinesAppend<E>(io: Session<E>, out: Output<E>, a: seq<string>, b: seq<string>)
    ensures OnLines(io, out, a + b) == OnLines(io, OnLines(io, out, a), b)
    decreases |a|
  {
    if a == [] {
      assert a + b == b;
    } else {
      assert (a + b)[1..] == a[1..] + b;
      OnLinesAppend(io, OnLine(io, out, a[0]), a[1..], b);
    }
  }

  /** A further chunk completes the lines of the open line and the chunk, and nothing else. */
  lemma ChunkCompletesLines<E>(io: Session<E>, text: string, chunk: string)
    ensures var lines := Split(OpenLine(text) + chunk, '\n');
            && CompleteLines(io, text + chunk) == OnLines(io, CompleteLines(io, text), lines[..|lines| - 1])
            && OpenLine(text + chunk) == lines[|lines| - 1]
  {
    var head, all := Split(text, '\n'), Split(text + chunk, '\n');
    var lines := Split(OpenLine(text) + chunk, '\n');
    assert all == head[..|head| - 1] + lines by {
      SplitResumes(text, chunk, '\n');
    }
    CompleteLinesCompose(io, head, lines, all);
  }

  lemma CompleteLinesCompose<E>(io: Session<E>, head: seq<string>, lines: seq<string>, all: seq<string>)
    requires head != [] && lines != [] && all == head[..|head| - 1] + lines
    ensures all[|all| - 1] == lines[|lines| - 1]
    ensures OnLines(io, Output([], ""), all[..|all| - 1]) ==
            OnLines(io, OnLines(io, Output([], ""), head[..|head| - 1]), lines[..|lines| - 1])
  {
    assert all[..|all| - 1] == head[..|head| - 1] + lines[..|lines| - 1];
    OnLinesAppend(io, Output([], ""), head[..|head| - 1], lines[..|lines| - 1]);
  }

  /** The values of the lines that are not blank and parse, in order. */
  function Parsed<E>(io: Session<E>, lines: seq<string>): seq<E> {
    if lines == [] then []
    else
      var event := if Trim(lines[0]) == "" then None else io.parse(Trim(lines[0]));
      (if event.Some? then [event.value] else []) + Parsed(io, lines[1..])
  }

  /** The lines that deliver an event: not all spaces, and JSON once trimmed. */
  ghost function Delivers<E>(io: Session<E>): string -> bool {
    line => !AllSpaces(line) && io.parse(Trim(line)).Some?
  }

  lemma {:induction false} ParsedAppend<E>(io: Session<E>, lines: seq<string>, line: string)
    ensures Parsed(io, lines + [line]) ==
            Parsed(io, lines) + if Delivers(io)(line) then [io.parse(Trim(line)).value] else []
  {
    TrimsToNothing(line);
    if lines == [] {
      assert lines + [line] == [line];
    } else {
      assert (lines + [line])[1..] == lines[1..] + [line];
      ParsedAppend(io, lines[1..], line);
    }
  }

  lemma {:induction false} ParsedAreDelivering<E>(io: Session<E>, lines: seq<string>)
    ensures var found := Selected(lines, Delivers(io));
            && |Parsed(io, lines)| == |found|
            && forall i :: 0 <= i < |found| ==> io.parse(Trim(found[i])) == Some(Parsed(io, lines)[i])
  {
    if lines != [] {
      var before, line := lines[..|lines| - 1], lines[|lines| - 1];
      ParsedAreDelivering(io, before);
      SelectedOneMore(lines, Delivers(io));
      assert lines == before + [line];
      ParsedAppend(io, before, line);
    }
  }

  /** The parsed lines are the values of the delivering ones, each once and in order. */
  lemma ParsedSelects<E>(io: Session<E>, lines: seq<string>) returns (found: seq<string>)
    ensures IsSelection(lines, found, Delivers(io))
    ensures |Parsed(io, lines)| == |found|
    ensures forall i :: 0 <= i < |found| ==> io.parse(Trim(found[i])) == Some(Parsed(io, lines)[i])
  {
    found := Selected(lines, Delivers(io));
    SelectedIsSelection(lines, Delivers(io));
    ParsedAreDelivering(io, lines);
  }

  /** Every parsed line reaches the callback exactly once and in order, whether or not it throws. */
  lemma {:induction false} EveryParsedLineIsDelivered<E>(io: Session<E>, out: Output<E>, lines: seq<string>)
    ensures OnLines(io, out, lines).events == out.events + Parsed(io, lines)
    decreases |lines|
  {
    if lines != [] {
      EveryParsedLineIsDelivered(io, OnLine(io, out, lines[0]), lines[1..]);
    }
  }

  /** What an event adds to the text: its delta, if it has one and the callback did not throw on it. */
  function PieceOf<E>(io: Session<E>, before: seq<E>, event: E): string {
    if !io.throws(before, event) && io.delta(event).Some? then io.delta(event).value else ""
  }

  /** What each of these events adds, given the ones before it. */
  function Pieces<E>(io: Session<E>, events: seq<E>): (pieces: seq<string>)
    ensures |pieces| == |events|
    ensures forall i :: 0 <= i < |events| && !io.throws(events[..i], events[i]) && io.delta(events[i]).Some? ==>
              pieces[i] == io.delta(events[i]).value
    ensures forall i :: 0 <= i < |events| && (io.throws(events[..i], events[i]) || io.delta(events[i]).None?) ==>
              pieces[i] == ""
  {
    seq(|events|, i requires 0 <= i < |events| => PieceOf(io, events[..i], events[i]))
  }

  lemma PieceAppended<E>(io: Session<E>, events: seq<E>, event: E)
    ensures Concat(Pieces(io, events + [event])) == Concat(Pieces(io, events)) + PieceOf(io, events, event)
  {
    var more := events + [event];
    forall i | 0 <= i < |events| ensures Pieces(io, more)[i] == Pieces(io, events)[i] {
      assert more[..i] == events[..i];
    }
    assert more[..|events|] == events;
    assert Pieces(io, more)[..|events|] == Pieces(io, events);
  }

  lemma {:induction false} TextIsPieces<E>(io: Session<E>, out: Output<E>, lines: seq<string>)
    requires out.text == Concat(Pieces(io, out.events))
    ensures OnLines(io, out, lines).text == Concat(Pieces(io, OnLines(io, out, lines).events))
    decreases |lines|
  {
    if lines != [] {
      var line := Trim(lines[0]);
      if line != "" && io.parse(line).Some? {
        PieceAppended(io, out.events, io.parse(line).value);
      }
      TextIsPieces(io, OnLine(io, out, lines[0]), lines[1..]);
    }
  }

  /**
   * However a stream was chunked, its events are its parsed lines, and the text is the deltas of those
   * events that have one and whose callback did not throw, in the order of delivery.
   */
  lemma StreamDeliversParsedLines<E>(io: Session<E>, chunks: seq<string>)
    ensures var out := Whole(io, Concat(chunks));
            && out.events == Parsed(io, Split(Concat(chunks), '\n'))
            && out.text == Concat(Pieces(io, out.events))
  {
    EveryParsedLineIsDelivered(io, Output([], ""), Split(Concat(chunks), '\n'));
    TextIsPieces(io, Output([], ""), Split(Concat(chunks), '\n'));
  }

  method HandleLine<E>(io: Session<E>, out: Output<E>, line: string) returns (r: Output<E>)
    ensures r == OnLine(io, out, line)
    ensures !Delivers(io)(line) ==> r == out
    ensures Delivers(io)(line) ==>
              var event := io.parse(Trim(line)).value;
              r.events == out.events + [event] && r.text == out.text + PieceOf(io, out.events, event)
  {
    TrimsToNothing(line);
    r := out;
    var trimmed := Trim(line);
    if |trimmed| == 0 {
      return;
    }
    var parsed := io.parse(trimmed);
    if parsed.Some? {
      r := r.(events := out.events + [parsed.value]);
      if !io.throws(out.events, parsed.value) {
        var delta := io.delta(parsed.value);
        if delta.Some? {
          r := r.(text := out.text + delta.value);
        }
      }
    }
  }

  /** However the text is cut into chunks, the output is that of splitting it whole. */
  method ReadStream<E>(io: Session<E>, chunks: seq<string>) returns (out: Output<E>)
    ensures out == Whole(io, Concat(chunks))
    ensures out.events == Parsed(io, Split(Concat(chunks), '\n'))
    ensures out.text == Concat(Pieces(io, out.events))
  {
    out := Output([], "");
    var buffer := "";
    var n := 0;
    while n < |chunks|
      invariant 0 <= n <= |chunks|
      invariant out == CompleteLines(io, Concat(chunks[..n])) && buffer == OpenLine(Concat(chunks[..n]))
    {
      ChunkCompletesLines(io, Concat(chunks[..n]), chunks[n]);
      assert chunks[..n + 1][..n] == chunks[..n];
      buffer := buffer + chunks[n];
      var lines := Split(buffer, '\n');
      buffer := lines[|lines| - 1];
      lines := lines[..|lines| - 1];
      var i := 0;
      while i < |lines|
        invariant 0 <= i <= |lines|
        invariant OnLines(io, out, lines[i..]) == OnLines(io, CompleteLines(io, Concat(chunks[..n])), lines)
      {
        out := HandleLine(io, out, lines[i]);
        i := i + 1;
      }
      n := n + 1;
    }
    assert chunks[..n] == chunks;
    FlushFinishes(io, Concat(chunks));
    if |Trim(buffer)| > 0 {
      out := HandleLine(io, out, buffer);
    }
    StreamDeliversParsedLines(io, chunks);
  }

  lemma FlushFinishes<E>(io: Session<E>, text: string)
    ensures Whole(io, text) == OnLine(io, CompleteLines(io, text), OpenLine(text))
  {
    var lines := Split(text, '\n');
    assert lines == lines[..|lines| - 1] + [OpenLine(text)];
    OnLinesAppend(io, Output([], ""), lines[..|lines| - 1], [OpenLine(text)]);
    assert [OpenLine(text)][1..] == [];
  }
}
