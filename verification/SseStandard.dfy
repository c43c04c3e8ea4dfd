/** The event stream as section 9.2.6 of the WHATWG HTML Standard reads it, and when the frames of
    the parser come to the same. */
module SseStandard {
  import opened Json
  import opened EventFraming
  import opened SseParser

  // ----- The standard -----

  datatype Buffers = Buffers(eventType: string, data: string)

  datatype Dispatch = Dispatch(eventType: string, data: string)

  /** A line that is not blank adds to the buffers. */
  function Process(b: Buffers, line: string): Buffers {
    if line != "" && line[0] == ':' then b
    else if FieldName(line) == "event" then b.(eventType := FieldValue(line))
    else if FieldName(line) == "data" then b.(data := b.data + FieldValue(line) + "\n")
    else b
  }

  /** Without data nothing is dispatched; otherwise the last line feed is stripped. */
  function Fire(b: Buffers): seq<Dispatch> {
    if b.data == "" then [] else [Dispatch(b.eventType, b.data[..|b.data| - 1])]
  }

  /** Line by line: a blank line dispatches the event and empties the buffers. What a stream leaves
      in the buffers at its end is discarded. */
  function Dispatches(b: Buffers, lines: seq<string>): seq<Dispatch>
    decreases |lines|
  {
    if lines == [] then []
    else if lines[0] == "" then Fire(b) + Dispatches(Buffers("", ""), lines[1..])
    else Dispatches(Process(b, lines[0]), lines[1..])
  }

  // ----- Blocks of lines -----

  /** The lines between blank lines; empty blocks are left out. */
  function Blocks(lines: seq<string>): (blocks: seq<seq<string>>)
    ensures lines != [] && lines[0] != "" ==> blocks != []
  {
    if lines == [] then []
    else if lines[0] == "" then Blocks(lines[1..])
    else if |lines| == 1 || lines[1] == "" then [[lines[0]]] + Blocks(lines[1..])
    else
      var others := Blocks(lines[1..]);
      [[lines[0]] + others[0]] + others[1..]
  }

  function ProcessAll(b: Buffers, lines: seq<string>): Buffers
    decreases |lines|
  {
    if lines == [] then b else ProcessAll(Process(b, lines[0]), lines[1..])
  }

  function FireAll(blocks: seq<seq<string>>): seq<Dispatch> {
    if blocks == [] then [] else Fire(ProcessAll(Buffers("", ""), blocks[0])) + FireAll(blocks[1..])
  }

  /** A stream that is closed by a blank line dispatches its blocks, one by one. */
  lemma {:induction false} BlocksAreDispatched(b: Buffers, lines: seq<string>)
    ensures Dispatches(b, lines + [""]) ==
            if lines == [] || lines[0] == "" then Fire(b) + FireAll(Blocks(lines))
            else Fire(ProcessAll(b, Blocks(lines)[0])) + FireAll(Blocks(lines)[1..])
    decreases |lines|
  {
    if lines == [] {
      assert Dispatches(Buffers("", ""), [""][1..]) == [];
    } else {
      assert (lines + [""])[1..] == lines[1..] + [""];
      if lines[0] == "" {
        BlocksAreDispatched(Buffers("", ""), lines[1..]);
        assert Fire(Buffers("", "")) == [];
      } else {
        var next := Process(b, lines[0]);
        BlocksAreDispatched(next, lines[1..]);
        if |lines| == 1 || lines[1] == "" {
          assert ProcessAll(next, [lines[0]][1..]) == next;
        } else {
          assert ([lines[0]] + Blocks(lines[1..])[0])[1..] == Blocks(lines[1..])[0];
        }
      }
    }
  }

  // ----- The parser -----

  function NonBlank(lines: seq<string>): seq<string> {
    if lines == [] then [] else (if lines[0] == "" then [] else [lines[0]]) + NonBlank(lines[1..])
  }

  /** The lines of a frame are one block, whatever blank lines it has. */
  function FrameBlock(frame: string): seq<seq<string>> {
    if NonBlank(Lines(frame)) == [] then [] else [NonBlank(Lines(frame))]
  }

  /** The blocks of all frames; what is left at the end counts as the last one. */
  function FrameBlocks(t: string): seq<seq<string>>
    decreases |t|
  {
    if Settled(t) then FrameBlock(t) else FrameBlock(Frame(t)) + FrameBlocks(After(t))
  }

  lemma {:induction false} OneBlock(lines: seq<string>)
    ensures |Blocks(lines)| <= 1 ==> Blocks(lines) == if NonBlank(lines) == [] then [] else [NonBlank(lines)]
    ensures NonBlank(lines) == [] <==> Blocks(lines) == []
    decreases |lines|
  {
    if lines != [] {
      OneBlock(lines[1..]);
      assert [lines[0]] + lines[1..] == lines;
      HeadBlock(lines[0], lines[1..]);
      OneBlockMore(lines[0], Blocks(lines[1..]), NonBlank(lines[1..]));
      assert NonBlank(lines) == if lines[0] == "" then NonBlank(lines[1..]) else [lines[0]] + NonBlank(lines[1..]);
    }
  }

  lemma OneBlockMore(line: string, others: seq<seq<string>>, more: seq<string>)
    requires more == [] <==> others == []
    requires |others| <= 1 ==> others == if more == [] then [] else [more]
    ensures others == [] ==> [[line]] + others == [[line] + more]
    ensures |others| == 1 ==> [[line] + others[0]] + others[1..] == [[line] + more]
  {
    assert [line] + [] == [line];
  }

  // ----- Where a text is cut -----

  predicate Unbroken(line: string) {
    forall i :: 0 <= i < |line| ==> line[i] != '\r' && line[i] != '\n'
  }

  /** `end` is a line end where `rest` follows. */
  predicate Ends(end: string, rest: string) {
    end == "\r\n" || end == "\n" || (end == "\r" && (rest == "" || rest[0] != '\n'))
  }

  lemma LineEndAfter(line: string, more: string)
    requires Unbroken(line) && (more == "" || more[0] == '\r' || more[0] == '\n')
    ensures LineEnd(line + more) == |line|
  {
    var t := line + more;
    assert forall i :: 0 <= i < |line| ==> t[i] == line[i];
    assert more != "" ==> t[|line|] == more[0];
  }

  /** A text that starts with this line. */
  predicate Starts(t: string, line: string, end: string, rest: string) {
    t == line + end + rest && Unbroken(line) && Ends(end, rest)
  }

  lemma LinesCons(t: string, line: string, end: string, rest: string)
    requires Starts(t, line, end, rest)
    ensures Lines(t) == [line] + Lines(rest)
  {
    assert t == line + (end + rest);
    LineEndAfter(line, end + rest);
    assert t[..|line|] == line && t[|line| + |end|..] == rest;
    assert t[|line|] == end[0];
    if end == "\r\n" {
      assert t[|line| + 1] == '\n';
    } else if rest != "" {
      assert t[|line| + 1] == rest[0];
    }
  }

  lemma LinesLast(line: string)
    requires Unbroken(line)
    ensures Lines(line) == [line]
  {
    LineEndAfter(line, "");
    assert line + "" == line;
  }

  /** A text is a single line or starts with one. */
  lemma SplitLine(t: string) returns (line: string, end: string, rest: string)
    requires !Unbroken(t)
    ensures Starts(t, line, end, rest) && |rest| < |t|
  {
    var i := LineEnd(t);
    line := t[..i];
    if i == |t| {
      assert Unbroken(t);
    }
    if t[i] == '\r' && i + 1 < |t| && t[i + 1] == '\n' {
      end, rest := "\r\n", t[i + 2..];
    } else {
      end, rest := t[i..i + 1], t[i + 1..];
    }
  }

  /** A line before a blank line is a block of its own; before another line it joins its block. */
  lemma HeadBlock(line: string, rest: seq<string>)
    ensures line == "" ==> Blocks([line] + rest) == Blocks(rest)
    ensures line != "" && (rest == [] || rest[0] == "") ==> Blocks([line] + rest) == [[line]] + Blocks(rest)
    ensures line != "" && rest != [] && rest[0] != "" ==>
              Blocks([line] + rest) == [[line] + Blocks(rest)[0]] + Blocks(rest)[1..]
  {
    assert ([line] + rest)[1..] == rest;
  }

  lemma HeadBlocks(line: string, whole: seq<string>, part: seq<string>, more: seq<seq<string>>)
    requires whole != [] && part != [] && whole[0] == part[0] && Blocks(whole) == Blocks(part) + more
    ensures Blocks([line] + whole) == Blocks([line] + part) + more
  {
    HeadBlock(line, whole);
    HeadBlock(line, part);
    BlocksConcat(line, Blocks(part), more);
  }

  lemma BlocksConcat(line: string, x: seq<seq<string>>, more: seq<seq<string>>)
    ensures [[line]] + (x + more) == ([[line]] + x) + more
    ensures x != [] ==> [[line] + (x + more)[0]] + (x + more)[1..] == ([[line] + x[0]] + x[1..]) + more
  {
  }

  predicate IsEnd(end: string) {
    end == "\r\n" || end == "\n" || end == "\r"
  }

  /** A line end right after a line end is a blank line. */
  lemma BlankLine(t: string, end: string, a: string)
    requires IsEnd(end) && t == end + a
    ensures Lines(t)[0] == "" && Blocks(Lines(t)) == Blocks(Lines(a))
  {
    if end == "\r" && a != "" && a[0] == '\n' {
      var rest := a[1..];
      LinesCons(t, "", "\r\n", rest);
      LinesCons(a, "", "\n", rest);
      HeadBlock("", Lines(rest));
    } else {
      LinesCons(t, "", end, a);
      HeadBlock("", Lines(a));
    }
  }

  /** A text cut at a separator, which is twice the same line end. */
  predicate CutAt(t: string, f: string, end: string, a: string) {
    IsEnd(end) && t == f + (end + (end + a))
  }

  /** Cutting at a separator leaves the blocks on both sides whole. */
  lemma {:induction false} CutsBetweenBlocks(t: string, f: string, end: string, a: string)
    requires CutAt(t, f, end, a)
    ensures Lines(t)[0] == Lines(f)[0]
    ensures Blocks(Lines(t)) == Blocks(Lines(f)) + Blocks(Lines(a))
    decreases |f|
  {
    if Unbroken(f) {
      CutAfterLine(t, f, end, a);
    } else {
      var line, e, rest := SplitLine(f);
      if e == "\r" && rest == "" && end == "\n" {
        CutInLineEnd(t, f, line, a);
      } else {
        var more := CutMore(t, f, end, a, line, e, rest);
        CutsBetweenBlocks(more, rest, end, a);
        CutLater(t, f, line, e, rest, more, Blocks(Lines(a)));
      }
    }
  }

  lemma CutMore(t: string, f: string, end: string, a: string, line: string, e: string, rest: string)
    returns (more: string)
    requires CutAt(t, f, end, a) && Starts(f, line, e, rest) && !(e == "\r" && rest == "" && end == "\n")
    ensures CutAt(more, rest, end, a) && Starts(t, line, e, more)
  {
    more := rest + (end + (end + a));
    assert more != "" && more[0] == if rest == "" then end[0] else rest[0];
  }

  lemma CutAfterLine(t: string, f: string, end: string, a: string)
    requires CutAt(t, f, end, a) && Unbroken(f)
    ensures Lines(t)[0] == Lines(f)[0]
    ensures Blocks(Lines(t)) == Blocks(Lines(f)) + Blocks(Lines(a))
  {
    var next := end + a;
    BlankLine(next, end, a);
    LinesLast(f);
    LinesCons(t, f, end, next);
    AloneBefore(f, Lines(next), Lines(a));
  }

  /** A line before a blank line. */
  lemma AloneBefore(line: string, blank: seq<string>, more: seq<string>)
    requires blank != [] && blank[0] == "" && Blocks(blank) == Blocks(more)
    ensures Blocks([line] + blank) == Blocks([line]) + Blocks(more)
  {
    HeadBlock(line, blank);
    HeadBlock(line, []);
    assert [line] + [] == [line];
  }

  /** The frame ends with the first half of a CR LF. */
  lemma CutInLineEnd(t: string, f: string, line: string, a: string)
    requires Unbroken(line) && f == line + "\r" && CutAt(t, f, "\n", a)
    ensures Lines(t)[0] == Lines(f)[0]
    ensures Blocks(Lines(t)) == Blocks(Lines(f)) + Blocks(Lines(a))
  {
    var next := "\n" + a;
    BlankLine(next, "\n", a);
    LinesCons(f, line, "\r", "");
    LinesCons(t, line, "\r\n", next);
    LinesLast("");
    HeadBlocks(line, Lines(next), [""], Blocks(Lines(a)));
  }

  lemma CutLater(t: string, f: string, line: string, e: string, rest: string, more: string, blocks: seq<seq<string>>)
    requires Starts(f, line, e, rest) && Starts(t, line, e, more)
    requires Lines(more)[0] == Lines(rest)[0] && Blocks(Lines(more)) == Blocks(Lines(rest)) + blocks
    ensures Lines(t)[0] == Lines(f)[0]
    ensures Blocks(Lines(t)) == Blocks(Lines(f)) + blocks
  {
    LinesCons(f, line, e, rest);
    LinesCons(t, line, e, more);
    HeadBlocks(line, Lines(more), Lines(rest), blocks);
  }

  // ----- Line ends of two kinds -----

  predicate Newline(c: char) {
    c == '\r' || c == '\n'
  }

  /** At least one blank line by the standard, and no separator. */
  predicate Blurred(run: string) {
    run == "\n\r" || run == "\n\r\n" || run == "\r\n\r" || run == "\n\r\n\r"
  }

  /** Such line ends between two lines that are not blank. */
  predicate Blurs(t: string, u: string, run: string, w: string) {
    && t == u + run + w && Blurred(run)
    && u != "" && !Newline(u[|u| - 1]) && w != "" && !Newline(w[0])
  }

  ghost predicate Mixed(t: string) {
    exists u, run, w :: Blurs(t, u, run, w)
  }

  predicate OnlyNewlines(t: string) {
    forall i :: 0 <= i < |t| ==> Newline(t[i])
  }

  lemma {:induction false} NoBlocks(t: string)
    ensures Blocks(Lines(t)) == [] <==> OnlyNewlines(t)
    decreases |t|
  {
    if Unbroken(t) {
      LinesLast(t);
      HeadBlock(t, []);
      assert [t] + [] == [t];
      if t != "" {
        assert !Newline(t[0]);
      }
    } else {
      var line, e, rest := SplitLine(t);
      LinesCons(t, line, e, rest);
      HeadBlock(line, Lines(rest));
      NoBlocks(rest);
      NewlinesSplit(t, line, e, rest);
    }
  }

  lemma NewlinesSplit(t: string, line: string, e: string, rest: string)
    requires Starts(t, line, e, rest)
    ensures OnlyNewlines(t) <==> line == "" && OnlyNewlines(rest)
  {
    NewlinesConcat(line + e, rest);
    NewlinesConcat(line, e);
    if line != "" {
      assert !Newline(line[0]);
    }
  }

  lemma NewlinesConcat(x: string, y: string)
    ensures OnlyNewlines(x + y) <==> OnlyNewlines(x) && OnlyNewlines(y)
  {
    if OnlyNewlines(x + y) {
      assert forall i :: 0 <= i < |x| ==> (x + y)[i] == x[i];
      assert forall i :: 0 <= i < |y| ==> (x + y)[|x| + i] == y[i];
    }
  }

  lemma BlursAfter(t: string, head: string, rest: string, u: string, run: string, w: string) returns (v: string)
    requires t == head + rest && Blurs(t, u, run, w) && |u| > |head|
    ensures Blurs(rest, v, run, w)
  {
    v := u[|head|..];
    assert t[..|u|] == u && t[|head|..] == rest;
    assert t[|head|..] == v + run + w;
  }

  lemma BlursBefore(t: string, head: string, rest: string, u: string, run: string, w: string)
    requires t == head + rest && Blurs(rest, u, run, w)
    ensures Blurs(t, head + u, run, w)
  {
  }

  /** A text that does not start with the blurred line ends has them in its rest, if at all. */
  lemma MixedLater(t: string, head: string, rest: string)
    requires t == head + rest && head != ""
    requires forall u, run, w :: Blurs(t, u, run, w) ==> |u| > |head|
    ensures Mixed(t) <==> Mixed(rest)
  {
    if u, run, w :| Blurs(t, u, run, w) {
      var v := BlursAfter(t, head, rest, u, run, w);
    }
    if u, run, w :| Blurs(rest, u, run, w) {
      BlursBefore(t, head, rest, u, run, w);
    }
  }

  /** Where the blurred line ends begin. */
  lemma BlursFrom(t: string, u: string, run: string, w: string, line: string, e: string, rest: string)
    requires Blurs(t, u, run, w) && Starts(t, line, e, rest)
    ensures |u| == |line| || |u| > |line| + |e|
    ensures line == "" ==> |u| > |e|
    ensures |u| == |line| ==> rest != "" && Newline(rest[0])
  {
    assert t[|u| - 1] == u[|u| - 1] && t[|u|] == run[0] && t[|u| + 1] == run[1];
    assert forall i :: 0 <= i < |line| ==> t[i] == line[i];
    assert forall i :: 0 <= i < |e| ==> t[|line| + i] == e[i];
    if |u| == |line| {
      assert t[|u| + |run|] == w[0];
      assert |run| > 2 ==> t[|u| + 2] == run[2];
      assert rest != "" ==> t[|line| + |e|] == rest[0];
    }
  }

  /** The line ends after a line, where no separator cuts them. */
  lemma RunAfter(t: string, line: string, e: string, rest: string) returns (run: string, w: string)
    requires Starts(t, line, e, rest) && rest != "" && Newline(rest[0]) && Settled(t)
    ensures t == line + run + w && Blurred(run) && (w != "" ==> !Newline(w[0]))
  {
    var i := |line|;
    var n := if i + 2 == |t| || !Newline(t[i + 2]) then 2 else if i + 3 == |t| || !Newline(t[i + 3]) then 3 else 4;
    assert t == line + (e + rest);
    assert t[i] == e[0] && t[i + |e|] == rest[0];
    assert |e| == 2 ==> t[i + 1] == e[1];
    assert SeparatorAt(t, i) == 0 && SeparatorAt(t, i + 1) == 0;
    if i + 2 < |t| {
      assert SeparatorAt(t, i + 2) == 0;
    }
    if i + 3 < |t| {
      assert SeparatorAt(t, i + 3) == 0;
    }
    run, w := t[i..i + n], t[i + n..];
    assert t == line + run + w;
  }

  lemma SettledRest(t: string, head: string, rest: string)
    requires t == head + rest && Settled(t)
    ensures Settled(rest)
  {
    forall j: nat | j < |rest| ensures SeparatorAt(rest, j) == SeparatorAt(t, |head| + j) {
      SeparatorShift(t, head, rest, j);
    }
  }

  lemma SeparatorShift(t: string, head: string, rest: string, j: nat)
    requires t == head + rest
    ensures SeparatorAt(rest, j) == SeparatorAt(t, |head| + j)
  {
    assert forall i :: 0 <= i < |rest| ==> rest[i] == t[|head| + i];
    if j + 1 < |rest| {
      assert rest[j + 1] == t[|head| + j + 1];
    }
    if j + 3 < |rest| {
      assert rest[j + 2] == t[|head| + j + 2] && rest[j + 3] == t[|head| + j + 3];
    }
  }

  lemma BlursAt(t: string, u: string, run: string, w: string)
    requires Blurs(t, u, run, w)
    ensures 0 < |u| && |u| + |run| < |t| && !Newline(t[|u| - 1]) && !Newline(t[|u| + |run|])
    ensures Newline(t[|u|])
  {
    assert t[|u| - 1] == u[|u| - 1] && t[|u| + |run|] == w[0] && t[|u|] == run[0];
  }

  lemma UnbrokenIsPure(t: string)
    requires Unbroken(t)
    ensures !Mixed(t) && |Blocks(Lines(t))| <= 1
  {
    LinesLast(t);
    HeadBlock(t, []);
    assert [t] + [] == [t];
    if u, run, w :| Blurs(t, u, run, w) {
      BlursAt(t, u, run, w);
    }
  }

  /** A text without separators is more than one block exactly if it has blurred line ends. */
  lemma {:induction false} MixedMeans(t: string)
    requires Settled(t)
    ensures |Blocks(Lines(t))| >= 2 <==> Mixed(t)
    decreases |t|
  {
    if Unbroken(t) {
      UnbrokenIsPure(t);
    } else {
      var line, e, rest := SplitLine(t);
      LinesCons(t, line, e, rest);
      HeadBlock(line, Lines(rest));
      FirstLine(rest);
      if line != "" && rest != "" && Newline(rest[0]) {
        MixedHere(t, line, e, rest);
      } else if line != "" && rest == "" {
        NoBlocks(rest);
        EndsPure(t, line, e);
      } else {
        assert t == (line + e) + rest;
        SettledRest(t, line + e, rest);
        MixedMeans(rest);
        forall u, run, w | Blurs(t, u, run, w) ensures |u| > |line + e| {
          BlursFrom(t, u, run, w, line, e, rest);
        }
        MixedLater(t, line + e, rest);
      }
    }
  }

  lemma FirstLine(t: string)
    ensures Lines(t)[0] == "" <==> t == "" || Newline(t[0])
  {
    if Unbroken(t) {
      LinesLast(t);
      assert t != "" ==> !Newline(t[0]);
    } else {
      var line, e, rest := SplitLine(t);
      LinesCons(t, line, e, rest);
      assert t[0] == (line + e)[0];
    }
  }

  lemma EndsPure(t: string, line: string, e: string)
    requires Starts(t, line, e, "")
    ensures !Mixed(t)
  {
    if u, run, w :| Blurs(t, u, run, w) {
      BlursAt(t, u, run, w);
      BlursFrom(t, u, run, w, line, e, "");
    }
  }

  /** The first line is followed by blurred line ends, and these by another block or the end. */
  lemma MixedHere(t: string, line: string, e: string, rest: string)
    requires Starts(t, line, e, rest) && line != "" && rest != "" && Newline(rest[0]) && Settled(t)
    ensures Mixed(t) <==> Blocks(Lines(rest)) != []
  {
    var run, w := RunAfter(t, line, e, rest);
    NoBlocks(rest);
    RestOfRun(t, line, e, rest, run, w);
    if w != "" {
      assert !Newline(line[|line| - 1]) && !Newline(w[0]);
      assert Blurs(t, line, run, w);
    } else {
      NothingAfter(t, line, run);
    }
  }

  lemma RestOfRun(t: string, line: string, e: string, rest: string, run: string, w: string)
    requires Starts(t, line, e, rest) && t == line + run + w && Blurred(run)
    ensures OnlyNewlines(rest) <==> OnlyNewlines(w)
  {
    assert t[|line|..] == e + rest && t[|line|..] == run + w;
    assert OnlyNewlines(e) && OnlyNewlines(run);
    NewlinesConcat(e, rest);
    NewlinesConcat(run, w);
  }

  lemma NothingAfter(t: string, line: string, run: string)
    requires Unbroken(line) && t == line + run && OnlyNewlines(run)
    ensures !Mixed(t)
  {
    assert forall i :: 0 <= i < |line| ==> !Newline(line[i]) && t[i] == line[i];
    forall i | |line| <= i < |t| ensures Newline(t[i]) {
      assert t[i] == run[i - |line|];
    }
    if u, r, x :| Blurs(t, u, r, x) {
      BlursAt(t, u, r, x);
    }
  }

  // ----- The frames of a text -----

  lemma SeparatorPrefix(p: string, q: string, j: nat)
    ensures SeparatorAt(p, j) > 0 ==> SeparatorAt(p + q, j) > 0
  {
    if SeparatorAt(p, j) > 0 {
      assert (p + q)[j] == p[j] && (p + q)[j + 1] == p[j + 1];
      if SeparatorAt(p, j) == 4 {
        assert (p + q)[j + 2] == p[j + 2] && (p + q)[j + 3] == p[j + 3];
      }
    }
  }

  /** A frame holds no separator, and one follows it. */
  lemma FrameCut(t: string) returns (end: string)
    requires !Settled(t)
    ensures CutAt(t, Frame(t), end, After(t)) && Settled(Frame(t))
  {
    end := SeparatorEnd(t, Find(t));
    var f, q := Frame(t), t[Find(t)..];
    assert t == f + q;
    forall j: nat | j < |f| ensures SeparatorAt(f, j) == 0 {
      SeparatorPrefix(f, q, j);
    }
  }

  lemma SeparatorEnd(t: string, i: nat) returns (end: string)
    requires SeparatorAt(t, i) > 0
    ensures CutAt(t, t[..i], end, t[i + SeparatorAt(t, i)..])
  {
    var n := SeparatorAt(t, i);
    end := t[i..i + n / 2];
    if n == 4 {
      assert end == "\r\n" && t[i + 2..i + 4] == "\r\n";
    } else {
      assert end == [t[i]] && t[i + 1..i + 2] == [t[i + 1]];
    }
    assert t[i + n / 2..i + n] == end;
    assert t == t[..i] + (end + (end + t[i + n..]));
  }

  /** Blurred line ends lie on one side of a separator. */
  lemma MixedOnOneSide(t: string, f: string, end: string, a: string)
    requires CutAt(t, f, end, a)
    ensures Mixed(t) <==> Mixed(f) || Mixed(a)
  {
    var head := f + (end + end);
    assert t == head + a && t == f + (end + end + a);
    if u, run, w :| Blurs(t, u, run, w) {
      if |u| > |head| {
        var v := BlursAfter(t, head, a, u, run, w);
      } else {
        BlursInFrame(t, f, end, a, u, run, w);
      }
    }
    if u, run, w :| Blurs(f, u, run, w) {
      assert t == u + run + (w + (end + (end + a)));
      assert Blurs(t, u, run, w + (end + (end + a)));
    }
    if u, run, w :| Blurs(a, u, run, w) {
      BlursBefore(t, head, a, u, run, w);
    }
  }

  lemma BlursInFrame(t: string, f: string, end: string, a: string, u: string, run: string, w: string)
    requires CutAt(t, f, end, a) && Blurs(t, u, run, w) && |u| <= |f| + 2 * |end|
    ensures Mixed(f)
  {
    BlursAt(t, u, run, w);
    var d := |f|;
    assert forall i :: d <= i < d + 2 * |end| ==> Newline(t[i]);
    assert |u| <= d;
    assert forall i :: 0 <= i < |run| ==> t[|u| + i] == run[i];
    assert t[d] == end[0] && t[d + |end|] == end[0];
    assert |u| + |run| < d;
    var x := f[|u| + |run|..];
    assert t[..d] == f && x[0] == w[0];
    assert f == u + run + x;
    assert Blurs(f, u, run, x);
  }

  lemma FrameAsBlock(f: string)
    requires Settled(f)
    ensures !Mixed(f) ==> FrameBlock(f) == Blocks(Lines(f))
    ensures Mixed(f) ==> |FrameBlock(f)| < |Blocks(Lines(f))|
  {
    MixedMeans(f);
    OneBlock(Lines(f));
  }

  /** Frame by frame, blocks are merged where the line ends are blurred, and only there. */
  lemma {:induction false} FramesMerge(t: string)
    ensures !Mixed(t) ==> FrameBlocks(t) == Blocks(Lines(t))
    ensures Mixed(t) ==> |FrameBlocks(t)| < |Blocks(Lines(t))|
    decreases |t|
  {
    if Settled(t) {
      FrameAsBlock(t);
    } else {
      var end := FrameCut(t);
      FrameAsBlock(Frame(t));
      FramesMerge(After(t));
      CutsBetweenBlocks(t, Frame(t), end, After(t));
      MixedOnOneSide(t, Frame(t), end, After(t));
    }
  }

  /** The frames of a text hold the standard's blocks exactly if no line ends are blurred. */
  lemma FramesFollowStandard(t: string)
    ensures FrameBlocks(t) == Blocks(Lines(t)) <==> !Mixed(t)
  {
    FramesMerge(t);
  }

  /** A line feed and a CR LF: the standard has a blank line, the parser no separator. */
  lemma BlurredExample(t: string)
    requires t == "a\n\r\nb"
    ensures Settled(t) && FrameBlocks(t) == [["a", "b"]] && Blocks(Lines(t)) == [["a"], ["b"]]
  {
    assert forall i: nat :: i < |t| ==> SeparatorAt(t, i) == 0;
    var rest, last := "\r\nb", "b";
    LinesCons(t, "a", "\n", rest);
    LinesCons(rest, "", "\r\n", last);
    LinesLast(last);
    ExampleBlocks(Lines(t));
  }

  lemma ExampleBlocks(lines: seq<string>)
    requires lines == ["a", "", "b"]
    ensures Blocks(lines) == [["a"], ["b"]] && NonBlank(lines) == ["a", "b"]
  {
    var rest, last := lines[1..], lines[2..];
    assert lines[1..][1..] == last && last == ["b"] && last[1..] == [];
    assert NonBlank(last) == ["b"] && Blocks(last) == [["b"]];
  }

  /** Line ends of a single kind: LF, CR or CR LF. */
  predicate OneKind(t: string) {
    || (forall i :: 0 <= i < |t| ==> t[i] != '\r')
    || (forall i :: 0 <= i < |t| ==> t[i] != '\n')
    || (&& (forall i :: 0 <= i < |t| && t[i] == '\r' ==> i + 1 < |t| && t[i + 1] == '\n')
        && (forall i :: 0 <= i < |t| && t[i] == '\n' ==> i > 0 && t[i - 1] == '\r'))
  }

  lemma OneKindIsPure(t: string)
    requires OneKind(t)
    ensures !Mixed(t)
  {
    if u, run, w :| Blurs(t, u, run, w) {
      BlursAt(t, u, run, w);
      BlurredHasBoth(t, u, run, w);
    }
  }

  lemma BlurredHasBoth(t: string, u: string, run: string, w: string)
    requires Blurs(t, u, run, w)
    ensures || (t[|u|] == '\n' && t[|u| + 1] == '\r')
            || (t[|u|] == '\r' && t[|u| + 1] == '\n' && t[|u| + 2] == '\r' && |run| == 3)
  {
    assert forall i :: 0 <= i < |run| ==> t[|u| + i] == run[i];
  }

  // ----- Events -----

  lemma {:induction false} NonBlankConcat(x: seq<string>, y: seq<string>)
    ensures NonBlank(x + y) == NonBlank(x) + NonBlank(y)
  {
    if x == [] {
      assert x + y == y;
    } else {
      assert (x + y)[1..] == x[1..] + y;
      NonBlankConcat(x[1..], y);
    }
  }

  /** Blank lines do not matter to the fields of a frame. */
  lemma {:induction false} BlankLinesAddNothing(lines: seq<string>)
    ensures FieldsOf(NonBlank(lines)) == FieldsOf(lines)
  {
    if lines != [] {
      var init, last := lines[..|lines| - 1], lines[|lines| - 1];
      BlankLinesAddNothing(init);
      assert lines == init + [last];
      NonBlankConcat(init, [last]);
      var kept := NonBlank(init);
      assert NonBlank(lines) == if last == "" then kept else kept + [last];
      assert (kept + [last])[..|kept|] == kept;
    }
  }

  function Terminated(data: seq<string>): string {
    if data == [] then "" else Terminated(data[..|data| - 1]) + data[|data| - 1] + "\n"
  }

  lemma {:induction false} JoinedIsStripped(data: seq<string>)
    requires data != []
    ensures Terminated(data) == Join(data) + "\n"
  {
    if |data| == 1 {
      assert Terminated(data[..0]) == "";
    } else {
      JoinedIsStripped(data[..|data| - 1]);
    }
  }

  lemma {:induction false} ProcessLast(b: Buffers, lines: seq<string>, last: string)
    ensures ProcessAll(b, lines + [last]) == Process(ProcessAll(b, lines), last)
    decreases |lines|
  {
    if lines == [] {
      assert [last][1..] == [] && lines + [last] == [last];
    } else {
      assert (lines + [last])[1..] == lines[1..] + [last];
      ProcessLast(Process(b, lines[0]), lines[1..], last);
    }
  }

  lemma {:induction false} ProcessedFields(lines: seq<string>)
    ensures var b, f := ProcessAll(Buffers("", ""), lines), FieldsOf(lines);
            && b.data == Terminated(f.data)
            && b.eventType == match f.event case None => "" case Some(e) => e
  {
    if lines != [] {
      var init, last := lines[..|lines| - 1], lines[|lines| - 1];
      assert lines == init + [last];
      ProcessedFields(init);
      ProcessLast(Buffers("", ""), init, last);
      var data, value := FieldsOf(init).data, FieldValue(last);
      assert (data + [value])[..|data|] == data;
    }
  }

  /** A block yields an event exactly when the standard would dispatch one of this type with a
      payload that decodes, with the same payload; what is skipped is not dispatched either. */
  lemma BlockFollowsStandard<E>(block: seq<string>, decode: string -> Option<E>)
    ensures var fired := Fire(ProcessAll(Buffers("", ""), block));
            && (forall e :: Meaning(FieldsOf(block), decode) == Event(e) <==>
                  |fired| == 1 && fired[0].eventType == EventName && decode(fired[0].data) == Some(e))
            && (Meaning(FieldsOf(block), decode).Skipped? ==> fired == [])
  {
    ProcessedFields(block);
    var data := FieldsOf(block).data;
    if data != [] {
      JoinedIsStripped(data);
      var b := ProcessAll(Buffers("", ""), block);
      assert b.data[..|b.data| - 1] == Join(data);
    }
  }

  /** The events of the blocks, unless one of them is malformed. */
  function EventsOf<E>(decode: string -> Option<E>, blocks: seq<seq<string>>): Option<seq<E>> {
    if blocks == [] then Some([])
    else
      match Meaning(FieldsOf(blocks[0]), decode)
      case Malformed => None
      case Skipped => EventsOf(decode, blocks[1..])
      case Event(e) =>
        match EventsOf(decode, blocks[1..])
        case None => None
        case Some(events) => Some([e] + events)
  }

  /** The parser ends well with exactly the events of the blocks of its frames. */
  lemma {:induction false} FinishedIsRead<E>(decode: string -> Option<E>, t: string)
    requires Finished(FrameParser(decode), t).Ok?
    ensures EventsOf(decode, FrameBlocks(t)) == Some(Finished(FrameParser(decode), t).events)
    decreases |t|
  {
    var parse := FrameParser(decode);
    if Settled(t) {
      LastFrameIsRead(decode, t);
    } else {
      FinishedOnce(parse, t);
      FinishedIsRead(decode, After(t));
      FrameIsRead(decode, Frame(t), FrameBlocks(After(t)));
    }
  }

  lemma FinishedOnce<E>(parse: string -> Parsed<E>, t: string)
    requires !Settled(t) && Finished(parse, t).Ok?
    ensures Taken(parse, Frame(t)).Ok? && Finished(parse, After(t)).Ok?
    ensures Finished(parse, t).events == Taken(parse, Frame(t)).events + Finished(parse, After(t)).events
  {
  }

  function Yielded<E>(parsed: Parsed<E>): seq<E> {
    if parsed.Event? then [parsed.event] else []
  }

  lemma BlockIsRead<E>(decode: string -> Option<E>, block: seq<string>, others: seq<seq<string>>)
    requires !Meaning(FieldsOf(block), decode).Malformed? && EventsOf(decode, others).Some?
    ensures EventsOf(decode, (if block == [] then [] else [block]) + others) ==
            Some(Yielded(Meaning(FieldsOf(block), decode)) + EventsOf(decode, others).value)
  {
    var rest := EventsOf(decode, others).value;
    assert [] + rest == rest;
    if block == [] {
      assert [] + others == others;
    } else {
      assert ([block] + others)[1..] == others;
    }
  }

  lemma FrameIsTaken<E>(decode: string -> Option<E>, f: string)
    requires Taken(FrameParser(decode), f).Ok?
    ensures var parsed := Meaning(FieldsOf(Lines(f)), decode);
            !parsed.Malformed? && Taken(FrameParser(decode), f).events == Yielded(parsed)
  {
    assert FrameParser(decode)(f) == Meaning(FieldsOf(Lines(f)), decode);
  }

  lemma FrameIsRead<E>(decode: string -> Option<E>, f: string, others: seq<seq<string>>)
    requires Taken(FrameParser(decode), f).Ok? && EventsOf(decode, others).Some?
    ensures EventsOf(decode, FrameBlock(f) + others) ==
            Some(Taken(FrameParser(decode), f).events + EventsOf(decode, others).value)
  {
    var lines := Lines(f);
    FrameIsTaken(decode, f);
    BlankLinesAddNothing(lines);
    BlockIsRead(decode, NonBlank(lines), others);
  }

  lemma LastFrameIsRead<E>(decode: string -> Option<E>, t: string)
    requires Settled(t) && Finished(FrameParser(decode), t).Ok?
    ensures EventsOf(decode, FrameBlock(t)) == Some(Finished(FrameParser(decode), t).events)
  {
    if t == "" {
      LinesLast(t);
      assert NonBlank([""]) == [];
    } else {
      LastTaken(FrameParser(decode), t);
      FrameIsRead(decode, t, []);
      assert FrameBlock(t) + [] == FrameBlock(t);
    }
  }

  lemma LastTaken<E>(parse: string -> Parsed<E>, t: string)
    requires Settled(t) && t != "" && Finished(parse, t).Ok?
    ensures Taken(parse, t).Ok? && Finished(parse, t).events == Taken(parse, t).events + []
  {
    assert Drained(parse, t) == Ok([], t);
  }

  /** These are the events that decode what is dispatched. */
  ghost predicate Tells<E>(decode: string -> Option<E>, events: seq<E>, dispatches: seq<Dispatch>) {
    && |events| == |dispatches|
    && forall i :: 0 <= i < |events| ==>
         dispatches[i].eventType == EventName && decode(dispatches[i].data) == Some(events[i])
  }

  lemma {:induction false} BlocksTell<E>(decode: string -> Option<E>, blocks: seq<seq<string>>)
    requires EventsOf(decode, blocks).Some?
    ensures Tells(decode, EventsOf(decode, blocks).value, FireAll(blocks))
  {
    if blocks != [] {
      BlockFollowsStandard(blocks[0], decode);
      BlocksTell(decode, blocks[1..]);
    }
  }

  /** Unless line ends are blurred, a text that the parser accepts yields exactly the events that
      the standard dispatches for the same text, closed by a blank line. */
  lemma StreamFollowsStandard<E>(decode: string -> Option<E>, t: string)
    requires !Mixed(t) && Finished(FrameParser(decode), t).Ok?
    ensures Tells(decode, Finished(FrameParser(decode), t).events, Dispatches(Buffers("", ""), Lines(t) + [""]))
  {
    FinishedIsRead(decode, t);
    FramesMerge(t);
    BlocksTell(decode, Blocks(Lines(t)));
    StandardFires(Lines(t));
  }

  lemma StandardFires(lines: seq<string>)
    ensures Dispatches(Buffers("", ""), lines + [""]) == FireAll(Blocks(lines))
  {
    BlocksAreDispatched(Buffers("", ""), lines);
  }
}
