/**
  Newline framing of the Codex app-server's output. Bytes arrive in buffers of any size; the lines must not
  depend on where the buffers were cut.
*/
module Framing {
  import opened Prelude
  import opened Utf8

  const MAX_JSONL_MESSAGE_BYTES: nat := 10 * 1024 * 1024
  const NEWLINE: Byte := 0x0A

  datatype Line = Line(bytes: seq<Byte>) | EndOfStream | TooLong

  function Flatten(chunks: seq<seq<Byte>>): seq<Byte> {
    if chunks == [] then [] else chunks[0] + Flatten(chunks[1..])
  }

  lemma FlattenFirst(chunks: seq<seq<Byte>>)
    requires chunks != []
    ensures Flatten(chunks) == chunks[0] + Flatten(chunks[1..])
  {
  }

  /** The position of the first newline, or the length when there is none. */
  function LineEnd(stream: seq<Byte>): (end: nat)
    ensures end <= |stream|
    ensures NEWLINE !in stream[..end]
    ensures end < |stream| ==> stream[end] == NEWLINE
  {
    if stream == [] || stream[0] == NEWLINE then 0 else 1 + LineEnd(stream[1..])
  }

  lemma LineEndMeaning(stream: seq<Byte>)
    ensures forall i :: 0 <= i < LineEnd(stream) ==> stream[i] != NEWLINE
  {
    var end := LineEnd(stream);
    assert forall i :: 0 <= i < end ==> stream[..end][i] == stream[i];
  }

  lemma LineEndUnique(stream: seq<Byte>, end: nat)
    requires end <= |stream|
    requires forall i :: 0 <= i < end ==> stream[i] != NEWLINE
    requires end < |stream| ==> stream[end] == NEWLINE
    ensures LineEnd(stream) == end
  {
    LineEndMeaning(stream);
  }

  /** The first line of a stream. */
  function FirstLine(stream: seq<Byte>): Line {
    if stream == [] then EndOfStream
    else if LineEnd(stream) > MAX_JSONL_MESSAGE_BYTES then TooLong
    else Line(stream[..LineEnd(stream)])
  }

  /** The stream behind its first line and that line's newline. */
  function AfterLine(stream: seq<Byte>): seq<Byte> {
    if LineEnd(stream) < |stream| then stream[LineEnd(stream) + 1..] else []
  }

  class LineReader {
    /** The buffers not yet consumed, as the operating system will deliver them. */
    var chunks: seq<seq<Byte>>

    ghost predicate Valid()
      reads this
    {
      forall i :: 0 <= i < |chunks| ==> chunks[i] != []
    }

    ghost function Stream(): seq<Byte>
      reads this
    {
      Flatten(chunks)
    }

    constructor (chunks: seq<seq<Byte>>)
      requires forall i :: 0 <= i < |chunks| ==> chunks[i] != []
      ensures Valid() && this.chunks == chunks
    {
      this.chunks := chunks;
    }

    method FillBuf() returns (buffer: seq<Byte>)
      requires Valid()
      ensures buffer == if chunks == [] then [] else chunks[0]
      ensures buffer == [] <==> Stream() == []
    {
      buffer := if chunks == [] then [] else chunks[0];
    }

    method Consume(amount: nat)
      requires Valid()
      requires chunks != [] && amount <= |chunks[0]|
      modifies this
      ensures Valid()
      ensures Stream() == old(Stream())[amount..]
    {
      var rest := chunks[0][amount..];
      assert Flatten(chunks)[amount..] == rest + Flatten(chunks[1..]);
      chunks := if rest == [] then chunks[1..] else [rest] + chunks[1..];
    }

    /** The next line, its newline removed. Its result is a function of the bytes, not of the buffers. */
    method ReadLine() returns (r: Line)
      requires Valid()
      modifies this
      ensures Valid()
      ensures r == FirstLine(old(Stream()))
      ensures r.Line? ==> Stream() == AfterLine(old(Stream())) && |Stream()| < |old(Stream())|
      ensures r.EndOfStream? ==> Stream() == []
    {
      hide Flatten, LineEnd, FirstLine, AfterLine;
      var line: seq<Byte> := [];
      ghost var stream := Stream();
      while true
        invariant Valid()
        invariant stream == line + Stream()
        invariant |line| <= MAX_JSONL_MESSAGE_BYTES && |line| <= LineEnd(stream)
        decreases |Stream()|
      {
        var buffer := FillBuf();
        if buffer == [] {
          LastLine(stream, line);
          return if line == [] then EndOfStream else Line(line);
        }
        var payloadLen := LineEnd(buffer);
        FlattenFirst(chunks);
        NextBuffer(stream, line, buffer, Flatten(chunks[1..]));
        if |line| + payloadLen > MAX_JSONL_MESSAGE_BYTES {
          return TooLong;
        }
        var complete := payloadLen < |buffer|;
        line := line + buffer[..payloadLen];
        Consume(payloadLen + if complete then 1 else 0);
        if complete {
          return Line(line);
        }
      }
    }
  }

  lemma SplitStream(line: seq<Byte>, buffer: seq<Byte>, rest: seq<Byte>, payload: nat)
    requires payload <= |buffer|
    ensures line + (buffer + rest) == line + buffer[..payload] + (buffer + rest)[payload..]
    ensures (line + (buffer + rest))[..|line| + payload] == line + buffer[..payload]
    ensures payload < |buffer| ==> (line + (buffer + rest))[|line| + payload + 1..] == (buffer + rest)[payload + 1..]
  {
  }

  /** Where the line ends, seen from one buffer: in it, or behind it. */
  lemma LineEndInBuffer(stream: seq<Byte>, line: seq<Byte>, buffer: seq<Byte>, rest: seq<Byte>)
    requires stream == line + (buffer + rest)
    requires |line| <= LineEnd(stream)
    ensures |line| + LineEnd(buffer) <= LineEnd(stream)
    ensures LineEnd(buffer) < |buffer| ==> LineEnd(stream) == |line| + LineEnd(buffer)
  {
    var payload, end := LineEnd(buffer), LineEnd(stream);
    LineEndMeaning(buffer);
    LineEndMeaning(stream);
    assert forall i :: 0 <= i < |buffer| ==> stream[|line| + i] == buffer[i];
    assert end < |line| + |buffer| ==> buffer[end - |line|] == NEWLINE;
  }

  /** At the end of the stream what was read of the line is the line. */
  lemma LastLine(stream: seq<Byte>, line: seq<Byte>)
    requires stream == line + [] && |line| <= MAX_JSONL_MESSAGE_BYTES && |line| <= LineEnd(stream)
    ensures FirstLine(stream) == if line == [] then EndOfStream else Line(line)
    ensures AfterLine(stream) == []
  {
    assert stream == line == stream[..|line|];
  }

  /**
    What one buffer tells about the current line: that it is too long, that it ends here, or that it goes on; and how
    the stream splits there.
  */
  lemma NextBuffer(stream: seq<Byte>, line: seq<Byte>, buffer: seq<Byte>, rest: seq<Byte>)
    requires stream == line + (buffer + rest) && buffer != []
    requires |line| <= LineEnd(stream)
    ensures LineEnd(buffer) <= |buffer| && |line| + LineEnd(buffer) <= LineEnd(stream)
    ensures stream == line + buffer[..LineEnd(buffer)] + (buffer + rest)[LineEnd(buffer)..]
    ensures |line| + LineEnd(buffer) > MAX_JSONL_MESSAGE_BYTES ==> FirstLine(stream) == TooLong
    ensures |line| + LineEnd(buffer) <= MAX_JSONL_MESSAGE_BYTES && LineEnd(buffer) < |buffer| ==>
              && FirstLine(stream) == Line(line + buffer[..LineEnd(buffer)])
              && AfterLine(stream) == (buffer + rest)[LineEnd(buffer) + 1..]
  {
    assert LineEnd(buffer) <= |buffer|;
    hide LineEnd;
    LineEndInBuffer(stream, line, buffer, rest);
    SplitStream(line, buffer, rest, LineEnd(buffer));
  }

  // ---- Whole streams

  /** Every line of a stream, of any length; a last line without newline counts when it is not empty. */
  function Lines(stream: seq<Byte>): seq<seq<Byte>>
    decreases |stream|
  {
    if stream == [] then [] else [stream[..LineEnd(stream)]] + Lines(AfterLine(stream))
  }

  /** The lines before the first that is too long, and whether there was none. */
  function WithinLimit(lines: seq<seq<Byte>>): (seq<seq<Byte>>, bool) {
    if lines == [] then ([], true)
    else if |lines[0]| > MAX_JSONL_MESSAGE_BYTES then ([], false)
    else
      var (rest, ok) := WithinLimit(lines[1..]);
      ([lines[0]] + rest, ok)
  }

  /** Reading fails exactly when some line is too long, and then every line before the first such one was read. */
  lemma {:induction false} WithinLimitMeaning(lines: seq<seq<Byte>>)
    ensures WithinLimit(lines).0 <= lines
    ensures WithinLimit(lines).1 <==> forall i :: 0 <= i < |lines| ==> |lines[i]| <= MAX_JSONL_MESSAGE_BYTES
    ensures WithinLimit(lines).1 ==> WithinLimit(lines).0 == lines
    ensures !WithinLimit(lines).1 ==>
              var n := |WithinLimit(lines).0|;
              && n < |lines| && |lines[n]| > MAX_JSONL_MESSAGE_BYTES
              && forall i :: 0 <= i < n ==> |lines[i]| <= MAX_JSONL_MESSAGE_BYTES
  {
    if lines != [] && |lines[0]| <= MAX_JSONL_MESSAGE_BYTES {
      WithinLimitMeaning(lines[1..]);
      assert lines == [lines[0]] + lines[1..];
    }
  }

  /** One line read is one line of the frame. */
  lemma FirstLineFrames(stream: seq<Byte>)
    ensures var frames := WithinLimit(Lines(stream));
            match FirstLine(stream)
            case EndOfStream => frames == ([], true)
            case TooLong => frames == ([], false)
            case Line(bytes) =>
              var rest := WithinLimit(Lines(AfterLine(stream)));
              frames == ([bytes] + rest.0, rest.1)
  {
    if stream != [] {
      assert Lines(stream)[1..] == Lines(AfterLine(stream));
    }
  }

  /** Reads until the stream ends or a line is refused: exactly the stream's lines, however it was cut. */
  method ReadAll(reader: LineReader) returns (lines: seq<seq<Byte>>, ok: bool)
    requires reader.Valid()
    modifies reader
    ensures lines == WithinLimit(Lines(old(reader.Stream()))).0
    ensures ok == WithinLimit(Lines(old(reader.Stream()))).1
  {
    hide Lines, WithinLimit, FirstLine, AfterLine, Flatten;
    lines := [];
    ghost var whole := WithinLimit(Lines(reader.Stream()));
    ghost var left := whole;
    assert whole.0 == lines + left.0;
    while true
      invariant reader.Valid()
      invariant left == WithinLimit(Lines(reader.Stream()))
      invariant whole.0 == lines + left.0 && whole.1 == left.1
      decreases |reader.Stream()|
    {
      FirstLineFrames(reader.Stream());
      var line := reader.ReadLine();
      if !line.Line? {
        assert lines + [] == lines;
        return lines, line.EndOfStream?;
      }
      ghost var rest := WithinLimit(Lines(reader.Stream()));
      assert lines + ([line.bytes] + rest.0) == lines + [line.bytes] + rest.0;
      lines, left := lines + [line.bytes], rest;
    }
  }

  /** `lines`, each followed by a newline, spell `stream`; the last newline may be missing after a nonempty line. */
  predicate Spells(lines: seq<seq<Byte>>, stream: seq<Byte>) {
    if lines == [] then stream == []
    else
      || (|lines| == 1 && lines[0] == stream != [])
      || (lines[0] + [NEWLINE] <= stream && Spells(lines[1..], stream[|lines[0]| + 1..]))
  }

  predicate NoNewline(line: seq<Byte>) {
    forall i :: 0 <= i < |line| ==> line[i] != NEWLINE
  }

  predicate NoNewlines(lines: seq<seq<Byte>>) {
    forall i :: 0 <= i < |lines| ==> NoNewline(lines[i])
  }

  lemma LinesCons(first: seq<Byte>, stream: seq<Byte>)
    requires NoNewline(first) && first + [NEWLINE] <= stream
    ensures Lines(stream) == [first] + Lines(stream[|first| + 1..])
  {
    var end := |first|;
    assert stream[end] == (first + [NEWLINE])[end];
    assert stream[..end] == first;
    assert forall j :: 0 <= j < end ==> stream[j] == first[j];
    LineEndUnique(stream, end);
  }

  lemma LinesLast(last: seq<Byte>)
    requires NoNewline(last) && last != []
    ensures Lines(last) == [last]
  {
    LineEndUnique(last, |last|);
    assert last[..|last|] == last;
    assert Lines([]) == [];
  }

  /** Any newline-free lines that spell a stream are its lines. */
  lemma {:induction false} LinesUnique(lines: seq<seq<Byte>>, stream: seq<Byte>)
    requires NoNewlines(lines) && Spells(lines, stream)
    ensures Lines(stream) == lines
    decreases |lines|
  {
    if lines != [] {
      assert NoNewline(lines[0]) && lines == [lines[0]] + lines[1..];
      if |lines| == 1 && lines[0] == stream {
        LinesLast(stream);
      } else {
        LinesCons(lines[0], stream);
        LinesUnique(lines[1..], stream[|lines[0]| + 1..]);
      }
    }
  }

  lemma SpellsCons(first: seq<Byte>, more: seq<seq<Byte>>, stream: seq<Byte>)
    requires first + [NEWLINE] <= stream && Spells(more, stream[|first| + 1..])
    ensures Spells([first] + more, stream)
  {
    assert ([first] + more)[1..] == more;
  }

  /** A stream is spelled by its lines: nothing is lost, invented or moved. */
  lemma {:induction false} LinesSpell(stream: seq<Byte>)
    ensures Spells(Lines(stream), stream)
    decreases |stream|
  {
    if stream != [] {
      var end := LineEnd(stream);
      if end == |stream| {
        assert stream[..end] == stream;
        assert Lines(AfterLine(stream)) == [];
      } else {
        LinesSpell(AfterLine(stream));
        assert stream[..end] + [NEWLINE] == stream[..end + 1];
        SpellsCons(stream[..end], Lines(AfterLine(stream)), stream);
      }
    }
  }

  lemma {:induction false} LinesHaveNoNewlines(stream: seq<Byte>)
    ensures NoNewlines(Lines(stream))
    decreases |stream|
  {
    if stream != [] {
      LinesHaveNoNewlines(AfterLine(stream));
      var first := stream[..LineEnd(stream)];
      assert NoNewline(first) by { assert forall i :: 0 <= i < |first| ==> first[i] in first; }
      assert Lines(stream) == [first] + Lines(AfterLine(stream));
    }
  }
}
