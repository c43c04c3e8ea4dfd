/** How a decoded event stream is cut into frames, and why the cuts of the network do not matter. */
module EventFraming {

  const MaxEventBytes: nat := 1024 * 1024

  /** What becomes of a frame: an event, nothing (a comment, say), or an error. */
  datatype Parsed<E> = Event(event: E) | Skipped | Malformed

  datatype Failure = TooLarge | BadFrame

  datatype Result<E> = Ok(events: seq<E>, rest: string) | Failed(failure: Failure)

  // ----- Sizes -----

  /** Length of a character in UTF-8. */
  function CharBytes(c: char): (n: nat)
    ensures 1 <= n <= 4
  {
    if c as int < 0x80 then 1 else if c as int < 0x800 then 2 else if c as int < 0x1_0000 then 3 else 4
  }

  function Bytes(s: string): (n: nat)
    ensures n >= |s|
  {
    if s == [] then 0 else Bytes(s[..|s| - 1]) + CharBytes(s[|s| - 1])
  }

  lemma {:induction false} BytesOfConcat(s: string, t: string)
    ensures Bytes(s + t) == Bytes(s) + Bytes(t)
  {
    if t == [] {
      assert s + t == s;
    } else {
      assert (s + t)[..|s + t| - 1] == s + t[..|t| - 1];
      BytesOfConcat(s, t[..|t| - 1]);
    }
  }

  predicate Fits(s: string) {
    Bytes(s) <= MaxEventBytes
  }

  // ----- Separators -----

  /** Length of the separator at position `i`, or zero where there is none. */
  function SeparatorAt(s: string, i: nat): (n: nat)
    ensures n == 0 || (n >= 2 && i + n <= |s|)
  {
    if i + 4 <= |s| && s[i] == '\r' && s[i + 1] == '\n' && s[i + 2] == '\r' && s[i + 3] == '\n' then 4
    else if i + 2 <= |s| && s[i] == '\n' && s[i + 1] == '\n' then 2
    else if i + 2 <= |s| && s[i] == '\r' && s[i + 1] == '\r' then 2
    else 0
  }

  /** Position of the first separator at or after `from`, or the length of the text. */
  function FindFrom(s: string, from: nat): (i: nat)
    requires from <= |s|
    ensures from <= i <= |s| && (i < |s| ==> SeparatorAt(s, i) > 0)
    ensures forall j :: from <= j < i ==> SeparatorAt(s, j) == 0
    decreases |s| - from
  {
    if from == |s| || SeparatorAt(s, from) > 0 then from else FindFrom(s, from + 1)
  }

  function Find(s: string): (i: nat)
    ensures i <= |s| && (i < |s| ==> SeparatorAt(s, i) > 0)
    ensures forall j :: 0 <= j < i ==> SeparatorAt(s, j) == 0
  {
    FindFrom(s, 0)
  }

  /** No complete frame. */
  predicate Settled(s: string) {
    Find(s) == |s|
  }

  /** A separator found in a prefix of a text is the one found in the whole text. */
  lemma FoundEarly(p: string, q: string)
    requires Find(p) < |p|
    ensures Find(p + q) == Find(p) && SeparatorAt(p + q, Find(p)) == SeparatorAt(p, Find(p))
  {
    var i, t := Find(p), p + q;
    assert t[i] == p[i] && t[i + 1] == p[i + 1];
    assert SeparatorAt(t, i) == SeparatorAt(p, i) by {
      if SeparatorAt(p, i) == 4 {
        assert t[i + 2] == p[i + 2] && t[i + 3] == p[i + 3];
      }
    }
    forall j | 0 <= j < i ensures SeparatorAt(t, j) == 0 {
      assert SeparatorAt(p, j) == 0;
      assert t[j] == p[j] && t[j + 1] == p[j + 1];
      if j + 4 <= |p| {
        assert t[j + 2] == p[j + 2] && t[j + 3] == p[j + 3];
      } else {
        assert j == i - 1 && t[j + 2] == p[j + 2];
      }
    }
  }

  /** The first complete frame of a buffer and what follows its separator. */
  function Frame(b: string): string {
    b[..Find(b)]
  }

  function After(b: string): (rest: string)
    requires !Settled(b)
    ensures |rest| < |b|
  {
    b[Find(b) + SeparatorAt(b, Find(b))..]
  }

  lemma ChoppedEarly(p: string, q: string)
    requires !Settled(p)
    ensures !Settled(p + q) && Frame(p + q) == Frame(p) && After(p + q) == After(p) + q
    ensures SeparatorAt(p + q, Find(p + q)) == SeparatorAt(p, Find(p))
  {
    FoundEarly(p, q);
  }

  // ----- Draining a buffer -----

  function Prepend<E>(events: seq<E>, r: Result<E>): Result<E> {
    if r.Ok? then Ok(events + r.events, r.rest) else r
  }

  lemma PrependTwice<E>(x: seq<E>, y: seq<E>, r: Result<E>)
    ensures Prepend(x, Prepend(y, r)) == Prepend(x + y, r)
    ensures Prepend([], r) == r
  {
    if r.Ok? {
      assert x + (y + r.events) == (x + y) + r.events;
    }
  }

  /** What one frame yields. */
  function Taken<E>(parse: string -> Parsed<E>, frame: string): Result<E> {
    if !Fits(frame) then Failed(TooLarge)
    else
      match parse(frame)
      case Malformed => Failed(BadFrame)
      case Skipped => Ok([], "")
      case Event(e) => Ok([e], "")
  }

  /** All complete frames of a buffer, in order; the rest stays. */
  function Drained<E>(parse: string -> Parsed<E>, b: string): Result<E>
    decreases |b|
  {
    if Settled(b) then Ok([], b)
    else
      var first := Taken(parse, Frame(b));
      if first.Failed? then first else Prepend(first.events, Drained(parse, After(b)))
  }

  /** A push: the complete frames, provided that the rest may still become a frame. */
  function Pushed<E>(parse: string -> Parsed<E>, b: string): Result<E> {
    var r := Drained(parse, b);
    if r.Ok? && !Fits(r.rest) then Failed(TooLarge) else r
  }

  /** The end of the stream: the rest counts as a last frame. */
  function Finished<E>(parse: string -> Parsed<E>, b: string): Result<E> {
    match Drained(parse, b)
    case Failed(f) => Failed(f)
    case Ok(events, rest) => Prepend(events, if rest == "" then Ok([], "") else Taken(parse, rest))
  }

  /** A whole stream arriving in chunks. */
  function Fed<E>(parse: string -> Parsed<E>, b: string, chunks: seq<string>): Result<E>
    decreases |chunks|
  {
    if chunks == [] then Finished(parse, b)
    else
      match Pushed(parse, b + chunks[0])
      case Failed(f) => Failed(f)
      case Ok(events, rest) => Prepend(events, Fed(parse, rest, chunks[1..]))
  }

  function Concat(chunks: seq<string>): string {
    if chunks == [] then "" else chunks[0] + Concat(chunks[1..])
  }

  // ----- Independence of the chunks -----

  /** Every frame of the text is small enough for a buffer that also holds all but the last
      character of its separator. */
  predicate Roomy(t: string)
    decreases |t|
  {
    if Settled(t) then Fits(t)
    else Bytes(Frame(t)) + SeparatorAt(t, Find(t)) - 1 <= MaxEventBytes && Roomy(After(t))
  }

  /** What is left of a buffer holds no complete frame. */
  lemma {:induction false} RestIsSettled<E>(parse: string -> Parsed<E>, b: string)
    requires Drained(parse, b).Ok?
    ensures Settled(Drained(parse, b).rest)
    decreases |b|
  {
    if !Settled(b) {
      RestIsSettled(parse, After(b));
    }
  }

  /** Draining a prefix first makes no difference. */
  lemma {:induction false} DrainedInParts<E>(parse: string -> Parsed<E>, p: string, q: string)
    ensures Drained(parse, p + q) ==
            match Drained(parse, p)
            case Failed(f) => Failed(f)
            case Ok(events, rest) => Prepend(events, Drained(parse, rest + q))
    decreases |p|
  {
    if Settled(p) {
      PrependTwice([], [], Drained(parse, p + q));
    } else {
      ChoppedEarly(p, q);
      DrainedInParts(parse, After(p), q);
      var first, others := Taken(parse, Frame(p)), Drained(parse, After(p));
      if first.Ok? && others.Ok? {
        PrependTwice(first.events, others.events, Drained(parse, others.rest + q));
      }
    }
  }

  lemma FinishedInParts<E>(parse: string -> Parsed<E>, p: string, q: string)
    ensures Finished(parse, p + q) ==
            match Drained(parse, p)
            case Failed(f) => Failed(f)
            case Ok(events, rest) => Prepend(events, Finished(parse, rest + q))
  {
    DrainedInParts(parse, p, q);
    var r := Drained(parse, p);
    if r.Ok? {
      var more := Drained(parse, r.rest + q);
      if more.Ok? {
        PrependTwice(r.events, more.events, if more.rest == "" then Ok([], "") else Taken(parse, more.rest));
      }
    }
  }

  /** Room is left for the rest of a buffer, and for what follows it. */
  lemma {:induction false} RoomForRest<E>(parse: string -> Parsed<E>, p: string, q: string)
    requires Roomy(p + q) && Drained(parse, p).Ok?
    ensures Roomy(Drained(parse, p).rest + q) && Fits(Drained(parse, p).rest)
    decreases |p|
  {
    if Settled(p) {
      RoomForPart(p, q);
    } else {
      ChoppedEarly(p, q);
      RoomForRest(parse, After(p), q);
    }
  }

  lemma RoomForPart(p: string, q: string)
    requires Roomy(p + q) && Settled(p)
    ensures Fits(p)
  {
    var t := p + q;
    if Settled(t) {
      BytesOfConcat(p, q);
    } else {
      var n := SeparatorAt(t, Find(t));
      if Find(t) + n <= |p| {
        SeparatorInside(p, q, Find(t));
      }
      HeadBytes(t);
      PrefixBytes(p, t[..Find(t) + n - 1]);
    }
  }

  /** A frame with all but the last character of its separator. */
  lemma HeadBytes(t: string)
    requires !Settled(t)
    ensures Bytes(t[..Find(t) + SeparatorAt(t, Find(t)) - 1]) == Bytes(Frame(t)) + SeparatorAt(t, Find(t)) - 1
  {
    var i, n := Find(t), SeparatorAt(t, Find(t)) - 1;
    assert t[..i + n] == t[..i] + t[i..i + n];
    BytesOfConcat(t[..i], t[i..i + n]);
    SeparatorBytes(t, i, n);
  }

  lemma PrefixBytes(p: string, t: string)
    requires p <= t
    ensures Bytes(p) <= Bytes(t)
  {
    assert t == p + t[|p|..];
    BytesOfConcat(p, t[|p|..]);
  }

  lemma SeparatorInside(p: string, q: string, i: nat)
    requires SeparatorAt(p + q, i) > 0 && i + SeparatorAt(p + q, i) <= |p|
    ensures SeparatorAt(p, i) > 0
  {
    var t := p + q;
    assert t[i] == p[i] && t[i + 1] == p[i + 1];
    if SeparatorAt(t, i) == 4 {
      assert t[i + 2] == p[i + 2] && t[i + 3] == p[i + 3];
    }
  }

  lemma {:induction false} SeparatorBytes(t: string, i: nat, n: nat)
    requires n < SeparatorAt(t, i)
    ensures Bytes(t[i..i + n]) == n
  {
    if n > 0 {
      assert t[i..i + n][..n - 1] == t[i..i + n - 1];
      SeparatorBytes(t, i, n - 1);
    }
  }

  /** A roomy text gives the same result however it is cut into chunks: the result of finishing
      with all of it in the buffer, be that events or the first error. */
  lemma {:induction false} ChunksDoNotMatter<E>(parse: string -> Parsed<E>, b: string, chunks: seq<string>)
    requires Settled(b) && Roomy(b + Concat(chunks))
    ensures Fed(parse, b, chunks) == Finished(parse, b + Concat(chunks))
    decreases |chunks|
  {
    if chunks == [] {
      assert b + Concat(chunks) == b;
    } else {
      var p, q := b + chunks[0], Concat(chunks[1..]);
      assert b + Concat(chunks) == p + q;
      FinishedInParts(parse, p, q);
      if Drained(parse, p).Ok? {
        RestIsSettled(parse, p);
        RoomForRest(parse, p, q);
        ChunksDoNotMatter(parse, Drained(parse, p).rest, chunks[1..]);
      }
    }
  }

  function Singles(t: string): (chunks: seq<string>)
  {
    if t == "" then [] else [t[..1]] + Singles(t[1..])
  }

  lemma {:induction false} SinglesConcat(t: string)
    ensures Concat(Singles(t)) == t
  {
    if t != "" {
      SinglesConcat(t[1..]);
      assert t == t[..1] + t[1..];
      assert Singles(t)[1..] == Singles(t[1..]);
    }
  }

  /** A text that survives arriving one character at a time is roomy. */
  lemma {:induction false} SinglesNeedRoom<E>(parse: string -> Parsed<E>, b: string, t: string)
    requires Settled(b) && Fits(b) && Fed(parse, b, Singles(t)).Ok?
    ensures Roomy(b + t)
    decreases |t|
  {
    if t == "" {
      assert b + t == b;
    } else {
      var p := b + t[..1];
      assert b + t == p + t[1..];
      FirstOfFed(parse, b, t[..1], Singles(t[1..]));
      if Settled(p) {
        SinglesNeedRoom(parse, p, t[1..]);
      } else {
        CompletedFrame(b, t[..1]);
        ChoppedEarly(p, t[1..]);
        RestIsLast(parse, p);
        SinglesNeedRoom(parse, "", t[1..]);
        assert "" + t[1..] == t[1..];
      }
    }
  }

  lemma FirstOfFed<E>(parse: string -> Parsed<E>, b: string, c: string, chunks: seq<string>)
    requires Fed(parse, b, [c] + chunks).Ok?
    ensures Drained(parse, b + c).Ok? && Fits(Drained(parse, b + c).rest)
            && Fed(parse, Drained(parse, b + c).rest, chunks).Ok?
  {
    assert ([c] + chunks)[1..] == chunks;
  }

  lemma RestIsLast<E>(parse: string -> Parsed<E>, p: string)
    requires !Settled(p) && After(p) == "" && Drained(parse, p).Ok?
    ensures Drained(parse, p).rest == ""
  {
    assert Settled("");
  }

  /** A frame that one more character completes fits with all but that character. */
  lemma CompletedFrame(b: string, c: string)
    requires Settled(b) && |c| == 1 && !Settled(b + c)
    ensures After(b + c) == ""
    ensures Bytes(Frame(b + c)) + SeparatorAt(b + c, Find(b + c)) - 1 == Bytes(b)
  {
    var p := b + c;
    LastSeparator(b, c, Find(p));
    assert b == p[..Find(p) + SeparatorAt(p, Find(p)) - 1];
    HeadBytes(p);
  }

  /** A separator that one more character completes ends with it. */
  lemma LastSeparator(b: string, c: string, i: nat)
    requires Settled(b) && |c| == 1 && SeparatorAt(b + c, i) > 0
    ensures i + SeparatorAt(b + c, i) == |b| + 1
  {
    if i + SeparatorAt(b + c, i) <= |b| {
      SeparatorInside(b, c, i);
    }
  }

  /** For a text that parses when it arrives at once, the chunks never matter exactly when it is
      roomy: otherwise the same text fails when it arrives one character at a time. */
  lemma ExactlyWhenRoomy<E(!new)>(parse: string -> Parsed<E>, t: string)
    requires Fed(parse, "", [t]).Ok?
    ensures Roomy(t) <==> forall chunks: seq<string> :: Concat(chunks) == t ==>
              Fed(parse, "", chunks) == Fed(parse, "", [t])
  {
    if Roomy(t) {
      assert Concat([t]) == t && "" + t == t;
      ChunksDoNotMatter(parse, "", [t]);
      forall chunks: seq<string> | Concat(chunks) == t ensures Fed(parse, "", chunks) == Fed(parse, "", [t]) {
        ChunksDoNotMatter(parse, "", chunks);
      }
    }
    if Fed(parse, "", Singles(t)).Ok? {
      SinglesNeedRoom(parse, "", t);
      assert "" + t == t;
    }
    SinglesConcat(t);
  }

  /** One more chunk of a stream. */
  lemma FedOnce<E>(parse: string -> Parsed<E>, b: string, chunks: seq<string>, i: nat, before: seq<E>)
    requires i < |chunks|
    ensures Prepend(before, Fed(parse, b, chunks[i..])) ==
            match Pushed(parse, b + chunks[i])
            case Failed(f) => Failed(f)
            case Ok(events, rest) => Prepend(before + events, Fed(parse, rest, chunks[i + 1..]))
    ensures before + Handed(parse, b, chunks[i..]) ==
            match Pushed(parse, b + chunks[i])
            case Failed(_) => before
            case Ok(events, rest) => before + events + Handed(parse, rest, chunks[i + 1..])
  {
    assert chunks[i..][1..] == chunks[i + 1..];
    var r := Pushed(parse, b + chunks[i]);
    if r.Ok? {
      PrependTwice(before, r.events, Fed(parse, r.rest, chunks[i + 1..]));
    }
  }

  /** One more frame of a buffer. */
  lemma DrainedOnce<E>(parse: string -> Parsed<E>, b: string, before: seq<E>)
    requires !Settled(b)
    ensures Prepend(before, Drained(parse, b)) ==
            match Taken(parse, Frame(b))
            case Failed(f) => Failed(f)
            case Ok(events, _) => Prepend(before + events, Drained(parse, After(b)))
  {
    var first := Taken(parse, Frame(b));
    if first.Ok? {
      PrependTwice(before, first.events, Drained(parse, After(b)));
    }
  }

  /** A text that is one frame of allowed size, which the parser skips. */
  lemma OneSkippedFrame<E>(parse: string -> Parsed<E>, text: string)
    requires !Settled(text) && After(text) == "" && Fits(Frame(text)) && parse(Frame(text)).Skipped?
    ensures Fed(parse, "", [text]) == Ok([], "")
  {
    assert "" + text == text && [text][1..] == [] && Settled("");
    assert Drained(parse, "") == Ok([], "");
    assert Drained(parse, text) == Ok([], "");
    assert Pushed(parse, text) == Ok([], "") && Fed(parse, "", []) == Ok([], "");
  }

  // ----- What a reader was handed before a failure -----

  /** The events of the chunks before the one that fails; what the failing chunk completes first is
      lost with it. */
  function Handed<E>(parse: string -> Parsed<E>, b: string, chunks: seq<string>): seq<E>
    decreases |chunks|
  {
    if chunks == [] then (match Finished(parse, b) case Ok(events, _) => events case Failed(_) => [])
    else
      match Pushed(parse, b + chunks[0])
      case Failed(_) => []
      case Ok(events, rest) => events + Handed(parse, rest, chunks[1..])
  }

  /** The first `k` chunks went through, and the next step fails. */
  ghost predicate FailsAfter<E>(parse: string -> Parsed<E>, b: string, chunks: seq<string>, k: nat) {
    && k <= |chunks| && Drained(parse, b + Concat(chunks[..k])).Ok?
    && var rest := Drained(parse, b + Concat(chunks[..k])).rest;
       if k < |chunks| then Pushed(parse, rest + chunks[k]).Failed? else Finished(parse, rest).Failed?
  }

  /** All events, unless there is a failure; otherwise the events of all frames that are complete
      before the chunk that fails. */
  lemma {:induction false} HandedMeans<E>(parse: string -> Parsed<E>, b: string, chunks: seq<string>) returns (k: nat)
    requires Settled(b)
    ensures Fed(parse, b, chunks).Ok? ==> Handed(parse, b, chunks) == Fed(parse, b, chunks).events
    ensures Fed(parse, b, chunks).Failed? ==>
              && FailsAfter(parse, b, chunks, k)
              && Handed(parse, b, chunks) == Drained(parse, b + Concat(chunks[..k])).events
    decreases |chunks|
  {
    if chunks != [] && Pushed(parse, b + chunks[0]).Ok? {
      RestIsSettled(parse, b + chunks[0]);
      var n := HandedMeans(parse, Drained(parse, b + chunks[0]).rest, chunks[1..]);
      k := n + 1;
      if Fed(parse, Drained(parse, b + chunks[0]).rest, chunks[1..]).Failed? {
        FailsLater(parse, b, chunks, n);
      }
    } else {
      k := 0;
      assert b + Concat(chunks[..0]) == b;
    }
  }

  lemma FailsLater<E>(parse: string -> Parsed<E>, b: string, chunks: seq<string>, n: nat)
    requires chunks != [] && Drained(parse, b + chunks[0]).Ok?
    requires FailsAfter(parse, Drained(parse, b + chunks[0]).rest, chunks[1..], n)
    ensures FailsAfter(parse, b, chunks, n + 1)
    ensures Drained(parse, b + Concat(chunks[..n + 1])).events ==
            Drained(parse, b + chunks[0]).events
            + Drained(parse, Drained(parse, b + chunks[0]).rest + Concat(chunks[1..][..n])).events
  {
    var p, q := b + chunks[0], Concat(chunks[1..][..n]);
    DrainedInParts(parse, p, q);
    FirstChunks(b, chunks, n);
  }

  lemma FirstChunks(b: string, chunks: seq<string>, n: nat)
    requires n < |chunks|
    ensures b + Concat(chunks[..n + 1]) == b + chunks[0] + Concat(chunks[1..][..n])
  {
    assert chunks[..n + 1][1..] == chunks[1..][..n];
  }

  /** Where the cut lies decides what is handed out before the same failure. */
  lemma CutDecides<E>(parse: string -> Parsed<E>, p: string, q: string)
    requires Pushed(parse, p).Ok? && Pushed(parse, Pushed(parse, p).rest + q).Failed?
    ensures Handed(parse, "", [p, q]) == Pushed(parse, p).events
    ensures Handed(parse, "", [p + q]) == []
  {
    DrainedInParts(parse, p, q);
    assert "" + p == p && "" + (p + q) == p + q && [p, q][1..] == [q];
    assert Pushed(parse, p).events + [] == Pushed(parse, p).events;
  }
}
