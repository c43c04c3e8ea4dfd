/** The parser of server-sent events: fields of a frame, and the incremental parser. */
module SseParser {
  import opened Json
  import opened EventFraming

  const EventName := "fluxfast"

  // ----- Lines -----

  function LineEnd(s: string): (i: nat)
    ensures i <= |s| && (i < |s| ==> s[i] == '\r' || s[i] == '\n')
    ensures forall j :: 0 <= j < i ==> s[j] != '\r' && s[j] != '\n'
  {
    if s == "" || s[0] == '\r' || s[0] == '\n' then 0 else 1 + LineEnd(s[1..])
  }

  /** A text split at each CR LF, CR or LF. */
  function Lines(s: string): (lines: seq<string>)
    ensures |lines| >= 1
    decreases |s|
  {
    var i := LineEnd(s);
    if i == |s| then [s]
    else if i + 2 <= |s| && s[i] == '\r' && s[i + 1] == '\n' then [s[..i]] + Lines(s[i + 2..])
    else [s[..i]] + Lines(s[i + 1..])
  }

  function Colon(line: string): (i: nat)
    ensures i <= |line| && (i < |line| ==> line[i] == ':')
    ensures forall j :: 0 <= j < i ==> line[j] != ':'
  {
    if line == "" || line[0] == ':' then 0 else 1 + Colon(line[1..])
  }

  function FieldName(line: string): string {
    line[..Colon(line)]
  }

  /** What follows the colon, less one leading space. */
  function FieldValue(line: string): string {
    if Colon(line) == |line| then ""
    else
      var value := line[Colon(line) + 1..];
      if value != "" && value[0] == ' ' then value[1..] else value
  }

  // ----- Fields of a frame -----

  datatype Fields = Fields(event: Option<string>, data: seq<string>)

  function AddLine(f: Fields, line: string): Fields {
    if line == "" || line[0] == ':' then f
    else if FieldName(line) == "event" then f.(event := Some(FieldValue(line)))
    else if FieldName(line) == "data" then f.(data := f.data + [FieldValue(line)])
    else f
  }

  function FieldsOf(lines: seq<string>): Fields {
    if lines == [] then Fields(None, []) else AddLine(FieldsOf(lines[..|lines| - 1]), lines[|lines| - 1])
  }

  function Join(data: seq<string>): string {
    if data == [] then "" else if |data| == 1 then data[0] else Join(data[..|data| - 1]) + "\n" + data[|data| - 1]
  }

  /** What a frame means. Decoding and validating the payload is up to `decode`. */
  function Meaning<E>(f: Fields, decode: string -> Option<E>): Parsed<E> {
    if f.event.None? && f.data == [] then Skipped
    else if f.event != Some(EventName) || f.data == [] then Malformed
    else
      match decode(Join(f.data))
      case None => Malformed
      case Some(e) => Event(e)
  }

  function FrameParser<E>(decode: string -> Option<E>): string -> Parsed<E> {
    frame => Meaning(FieldsOf(Lines(frame)), decode)
  }

  method ParseFrame<E>(frame: string, decode: string -> Option<E>) returns (parsed: Parsed<E>)
    ensures parsed == FrameParser(decode)(frame)
  {
    var eventName: Option<string> := None;
    var data: seq<string> := [];
    var lines := Lines(frame);
    for i := 0 to |lines|
      invariant Fields(eventName, data) == FieldsOf(lines[..i])
    {
      assert lines[..i + 1][..i] == lines[..i];
      var line := lines[i];
      if line == "" || line[0] == ':' {
        continue;
      }
      if FieldName(line) == "event" {
        eventName := Some(FieldValue(line));
      }
      if FieldName(line) == "data" {
        data := data + [FieldValue(line)];
      }
    }
    assert lines[..|lines|] == lines;
    if eventName == None && data == [] {
      return Skipped;
    }
    if eventName != Some(EventName) || data == [] {
      return Malformed;
    }
    var event := decode(Join(data));
    return if event.Some? then Event(event.value) else Malformed;
  }

  // ----- A frame that needs all the room -----

  function Colons(n: nat): (s: string)
    ensures |s| == n && forall i :: 0 <= i < n ==> s[i] == ':'
  {
    seq(n, i => ':')
  }

  lemma {:induction false} ColonBytes(n: nat)
    ensures Bytes(Colons(n)) == n
  {
    if n > 0 {
      ColonBytes(n - 1);
      assert Colons(n)[..n - 1] == Colons(n - 1);
    }
  }

  lemma NoLineEnd(s: string)
    requires forall i :: 0 <= i < |s| ==> s[i] == ':'
    ensures LineEnd(s) == |s|
  {
  }

  lemma CommentIsSkipped<E>(decode: string -> Option<E>, frame: string)
    requires frame != "" && forall i :: 0 <= i < |frame| ==> frame[i] == ':'
    ensures FrameParser(decode)(frame) == Skipped
  {
    NoLineEnd(frame);
    var lines := [frame];
    assert Lines(frame) == lines && lines[..0] == [];
    assert FieldsOf(lines) == AddLine(FieldsOf(lines[..0]), frame);
  }

  /** A comment of the largest size allowed: it parses when it arrives at once with its separator,
      it is not roomy, and one character at a time the same text fails. */
  lemma FullFrameIsNotRoomy<E(!new)>(decode: string -> Option<E>)
    ensures var text := Colons(MaxEventBytes) + "\n\n";
            && Fed(FrameParser(decode), "", [text]) == Ok([], "")
            && !Roomy(text)
            && Fed(FrameParser(decode), "", Singles(text)).Failed?
  {
    var n := MaxEventBytes;
    var text := Colons(n) + "\n\n";
    FullFrame(n);
    ColonBytes(n);
    CommentIsSkipped(decode, Colons(n));
    assert "" + text == text;
    OneSkippedFrame(FrameParser(decode), text);
    if Fed(FrameParser(decode), "", Singles(text)).Ok? {
      SinglesNeedRoom(FrameParser(decode), "", text);
    }
  }

  lemma FullFrame(n: nat)
    ensures var text := Colons(n) + "\n\n";
            !Settled(text) && Frame(text) == Colons(n) && After(text) == "" && SeparatorAt(text, Find(text)) == 2
  {
    var text := Colons(n) + "\n\n";
    assert forall i :: 0 <= i < n ==> text[i] == ':';
    assert text[n] == '\n' && text[n + 1] == '\n' && |text| == n + 2;
    assert SeparatorAt(text, n) == 2;
    assert forall i :: 0 <= i < n ==> SeparatorAt(text, i) == 0;
    assert Find(text) == n;
  }

  // ----- The incremental parser -----

  class FluxSseParser<E> {
    var buffer: string
    const parse: string -> Parsed<E>

    constructor (parse: string -> Parsed<E>)
      ensures buffer == "" && this.parse == parse
    {
      this.parse, buffer := parse, "";
    }

    method TakeFrame(frame: string) returns (events: seq<E>, failure: Option<Failure>)
      ensures Reports(events, failure, Taken(parse, frame))
    {
      if !Fits(frame) {
        return [], Some(TooLarge);
      }
      match parse(frame)
      case Malformed => return [], Some(BadFrame);
      case Skipped => return [], None;
      case Event(e) => return [e], None;
    }

    /** Takes complete frames off the buffer. After a failure the stream is given up. */
    method TakeFrames() returns (events: seq<E>, failure: Option<Failure>)
      modifies this`buffer
      ensures Reports(events, failure, Drained(parse, old(buffer)))
      ensures failure == None ==> buffer == Drained(parse, old(buffer)).rest
    {
      events := [];
      PrependTwice([], [], Drained(parse, buffer));
      while !Settled(buffer)
        invariant Drained(parse, old(buffer)) == Prepend(events, Drained(parse, buffer))
        decreases |buffer|
      {
        DrainedOnce(parse, buffer, events);
        var frame := Frame(buffer);
        buffer := After(buffer);
        var more, failed := TakeFrame(frame);
        if failed != None {
          return [], failed;
        }
        events := events + more;
      }
      return events, None;
    }

    method Push(chunk: string) returns (events: seq<E>, failure: Option<Failure>)
      modifies this`buffer
      ensures Reports(events, failure, Pushed(parse, old(buffer) + chunk))
      ensures failure == None ==> buffer == Pushed(parse, old(buffer) + chunk).rest
    {
      buffer := buffer + chunk;
      events, failure := TakeFrames();
      if failure == None && !Fits(buffer) {
        return [], Some(TooLarge);
      }
    }

    method Finish() returns (events: seq<E>, failure: Option<Failure>)
      modifies this`buffer
      ensures Reports(events, failure, Finished(parse, old(buffer)))
      ensures failure == None ==> buffer == ""
    {
      events, failure := TakeFrames();
      if failure == None && buffer != "" {
        var frame := buffer;
        buffer := "";
        var last, failed := TakeFrame(frame);
        if failed != None {
          return [], failed;
        }
        events := events + last;
      }
    }
  }

  /** These are the events of a result, or its failure. */
  ghost predicate Reports<E>(events: seq<E>, failure: Option<Failure>, r: Result<E>) {
    match r
    case Failed(f) => failure == Some(f)
    case Ok(all, _) => failure == None && events == all
  }

  /** Reads a whole connection, yielding the events of each chunk. However the network cuts a
      roomy text, the outcome is that of the text as a whole; before a failure, the events are those
      of the frames completed by earlier chunks. */
  method ReadAll<E>(parse: string -> Parsed<E>, chunks: seq<string>) returns (events: seq<E>, failure: Option<Failure>)
    ensures Reports(events, failure, Fed(parse, "", chunks))
    ensures Roomy(Concat(chunks)) ==> Reports(events, failure, Finished(parse, Concat(chunks)))
    ensures events == Handed(parse, "", chunks)
  {
    if Roomy(Concat(chunks)) {
      assert "" + Concat(chunks) == Concat(chunks);
      ChunksDoNotMatter(parse, "", chunks);
    }
    var parser := new FluxSseParser(parse);
    events := [];
    PrependTwice([], [], Fed(parse, "", chunks));
    assert chunks[0..] == chunks;
    for i := 0 to |chunks|
      invariant parser.parse == parse
      invariant Fed(parse, "", chunks) == Prepend(events, Fed(parse, parser.buffer, chunks[i..]))
      invariant Handed(parse, "", chunks) == events + Handed(parse, parser.buffer, chunks[i..])
    {
      FedOnce(parse, parser.buffer, chunks, i, events);
      var more, failed := parser.Push(chunks[i]);
      if failed != None {
        return events, failed;
      }
      events := events + more;
    }
    var last, failed := parser.Finish();
    return if failed == None then events + last else events, failed;
  }
}
