/** Splitting the decoded bridge output into frames, chunk by chunk. */
module BridgeStream {
  import opened Options
  import opened TextLines

  /** What a complete line amounts to once trimmed, parsed and handled: nothing, a frame, or a failure. */
  datatype Reading<V> = Blank | Frame(value: V) | Bad

  predicate HasLine(text: string) {
    LineEnd(text) < |text|
  }

  /** The frames delivered and the buffer left by one round of splitting; a bad line ends the round. */
  function Consume<V>(read: string -> Reading<V>, buffer: string): (seq<V>, string)
    decreases |buffer|
  {
    if !HasLine(buffer) then ([], buffer)
    else
      var end := LineEnd(buffer);
      match read(buffer[..end])
      case Bad => ([], buffer[end + 1..])
      case Blank => Consume(read, buffer[end + 1..])
      case Frame(value) =>
        var (frames, left) := Consume(read, buffer[end + 1..]);
        ([value] + frames, left)
  }

  /** Feeding chunks one after another to a buffer. */
  function Feed<V>(read: string -> Reading<V>, buffer: string, chunks: seq<string>): (seq<V>, string)
    decreases chunks
  {
    if chunks == [] then ([], buffer)
    else
      var (frames, left) := Consume(read, buffer + chunks[0]);
      var (more, left') := Feed(read, left, chunks[1..]);
      (frames + more, left')
  }

  lemma ConsumeStep<V>(read: string -> Reading<V>, buffer: string)
    ensures !HasLine(buffer) ==> Consume(read, buffer) == ([], buffer) && FirstBad(read, buffer).None?
    ensures HasLine(buffer) ==>
              var rest := buffer[LineEnd(buffer) + 1..];
              var line := read(buffer[..LineEnd(buffer)]);
              && (line.Bad? ==> Consume(read, buffer) == ([], rest) && FirstBad(read, buffer).Some?)
              && (line.Blank? ==> Consume(read, buffer) == Consume(read, rest))
              && (line.Frame? ==>
                    Consume(read, buffer) == ([line.value] + Consume(read, rest).0, Consume(read, rest).1))
              && (!line.Bad? ==> FirstBad(read, buffer) == FirstBad(read, rest))
  {
  }

  class OutputBuffer<V(==)> {
    var stdout: string

    constructor ()
      ensures stdout == ""
    {
      stdout := "";
    }

    method ConsumeOutput(read: string -> Reading<V>, chunk: string) returns (frames: seq<V>, failed: bool)
      modifies this
      ensures (frames, stdout) == Consume(read, old(stdout) + chunk)
      ensures failed <==> FirstBad(read, old(stdout) + chunk).Some?
    {
      hide Consume, FirstBad, LineEnd;
      stdout := stdout + chunk;
      ghost var all := stdout;
      frames := [];
      assert frames + Consume(read, stdout).0 == Consume(read, stdout).0;
      while HasLine(stdout)
        invariant Consume(read, all) == (frames + Consume(read, stdout).0, Consume(read, stdout).1)
        invariant FirstBad(read, all).Some? <==> FirstBad(read, stdout).Some?
        decreases |stdout|
      {
        ConsumeStep(read, stdout);
        var newline := LineEnd(stdout);
        var line := stdout[..newline];
        stdout := stdout[newline + 1..];
        match read(line) {
          case Blank =>
          case Frame(value) =>
            assert frames + ([value] + Consume(read, stdout).0) == frames + [value] + Consume(read, stdout).0;
            frames := frames + [value];
          case Bad =>
            assert frames + [] == frames;
            return frames, true;
        }
      }
      ConsumeStep(read, stdout);
      assert frames + Consume(read, stdout).0 == frames;
      return frames, false;
    }
  }

  /** What follows the first bad complete line. */
  function FirstBad<V>(read: string -> Reading<V>, text: string): Option<string>
    decreases |text|
  {
    if !HasLine(text) then None
    else
      var end := LineEnd(text);
      if read(text[..end]).Bad? then Some(text[end + 1..]) else FirstBad(read, text[end + 1..])
  }

  /** The reference split: every complete line that is a frame, and the text after the last line feed. */
  function Frames<V>(read: string -> Reading<V>, text: string): seq<V>
    decreases |text|
  {
    if !HasLine(text) then []
    else
      var end := LineEnd(text);
      var line := read(text[..end]);
      (if line.Frame? then [line.value] else []) + Frames(read, text[end + 1..])
  }

  function Tail(text: string): string
    decreases |text|
  {
    if !HasLine(text) then text else Tail(text[LineEnd(text) + 1..])
  }

  /** At most the last complete line is bad. */
  predicate OnlyLastLineBad<V>(read: string -> Reading<V>, text: string) {
    var rest := FirstBad(read, text);
    rest.Some? ==> !HasLine(rest.value)
  }

  function Concat(chunks: seq<string>): string {
    if chunks == [] then "" else chunks[0] + Concat(chunks[1..])
  }

  // ----- Lines of a concatenation -----

  lemma LineEndOfPrefix(a: string, b: string)
    requires HasLine(a)
    ensures LineEnd(a + b) == LineEnd(a)
    ensures HasLine(a + b)
    ensures (a + b)[..LineEnd(a)] == a[..LineEnd(a)] && (a + b)[LineEnd(a) + 1..] == a[LineEnd(a) + 1..] + b
  {
    var end := LineEnd(a);
    assert (a + b)[end] == '\n';
    assert forall i | 0 <= i < end :: (a + b)[i] == a[i];
  }

  lemma {:induction false} TailHasNoLine(text: string)
    ensures !HasLine(Tail(text))
    decreases |text|
  {
    if HasLine(text) {
      TailHasNoLine(text[LineEnd(text) + 1..]);
    }
  }

  /** One step of the reference split. */
  lemma SplitStep<V>(read: string -> Reading<V>, text: string)
    ensures !HasLine(text) ==> Frames(read, text) == [] && Tail(text) == text && FirstBad(read, text) == None
    ensures HasLine(text) ==>
              var line, rest := read(text[..LineEnd(text)]), text[LineEnd(text) + 1..];
              && Frames(read, text) == (if line.Frame? then [line.value] else []) + Frames(read, rest)
              && Tail(text) == Tail(rest)
              && FirstBad(read, text) == if line.Bad? then Some(rest) else FirstBad(read, rest)
  {
  }

  /** Splitting a concatenation is splitting the first part and going on with its tail. */
  lemma {:induction false} SplitConcat<V>(read: string -> Reading<V>, a: string, b: string)
    ensures Frames(read, a + b) == Frames(read, a) + Frames(read, Tail(a) + b)
    ensures Tail(a + b) == Tail(Tail(a) + b)
    ensures FirstBad(read, a + b) ==
            if FirstBad(read, a).Some? then Some(FirstBad(read, a).value + b) else FirstBad(read, Tail(a) + b)
    decreases |a|
  {
    hide Frames, Tail, FirstBad, LineEnd;
    SplitStep(read, a);
    if HasLine(a) {
      LineEndOfPrefix(a, b);
      SplitStep(read, a + b);
      SplitConcat(read, a[LineEnd(a) + 1..], b);
    }
  }

  /** One round is the reference split as long as only the last complete line may be bad. */
  lemma {:induction false} ConsumeIsSplit<V>(read: string -> Reading<V>, text: string)
    requires OnlyLastLineBad(read, text)
    ensures Consume(read, text) == (Frames(read, text), Tail(text))
    decreases |text|
  {
    if HasLine(text) {
      var rest := text[LineEnd(text) + 1..];
      assert [] + Frames(read, rest) == Frames(read, rest);
      if !read(text[..LineEnd(text)]).Bad? {
        ConsumeIsSplit(read, rest);
      }
    }
  }

  lemma {:induction false} FeedIsSplit<V>(read: string -> Reading<V>, buffer: string, chunks: seq<string>)
    requires !HasLine(buffer) && OnlyLastLineBad(read, buffer + Concat(chunks))
    ensures Feed(read, buffer, chunks) == (Frames(read, buffer + Concat(chunks)), Tail(buffer + Concat(chunks)))
    decreases chunks
  {
    if chunks == [] {
      assert buffer + Concat(chunks) == buffer;
    } else {
      var head, rest := buffer + chunks[0], Concat(chunks[1..]);
      assert buffer + Concat(chunks) == head + rest;
      SplitConcat(read, head, rest);
      if FirstBad(read, head).Some? && HasLine(FirstBad(read, head).value) {
        LineEndOfPrefix(FirstBad(read, head).value, rest);
      }
      ConsumeIsSplit(read, head);
      TailHasNoLine(head);
      if FirstBad(read, head).Some? {
        TailAfterBad(read, head);
        NoBadAfter(read, head, rest);
      }
      FeedIsSplit(read, Tail(head), chunks[1..]);
    }
  }

  /** After a last bad line the buffer is exactly what follows it. */
  lemma {:induction false} TailAfterBad<V>(read: string -> Reading<V>, text: string)
    requires FirstBad(read, text).Some? && !HasLine(FirstBad(read, text).value)
    ensures Tail(text) == FirstBad(read, text).value
    decreases |text|
  {
    if !read(text[..LineEnd(text)]).Bad? {
      TailAfterBad(read, text[LineEnd(text) + 1..]);
    }
  }

  lemma NoBadAfter<V>(read: string -> Reading<V>, head: string, rest: string)
    requires FirstBad(read, head).Some? && !HasLine(FirstBad(read, head).value + rest)
    ensures !HasLine(FirstBad(read, head).value)
    ensures OnlyLastLineBad(read, FirstBad(read, head).value + rest)
  {
    if HasLine(FirstBad(read, head).value) {
      LineEndOfPrefix(FirstBad(read, head).value, rest);
    }
  }

  // ----- Chunking does not matter, exactly when -----

  ghost predicate ChunkingIrrelevant<V(!new)>(read: string -> Reading<V>, text: string) {
    forall a, b | Concat(a) == text && Concat(b) == text :: Feed(read, "", a) == Feed(read, "", b)
  }

  /** When no complete line is bad, frames and leftover are those of the whole text, however it was cut. */
  lemma FramesDependOnTextOnly<V>(read: string -> Reading<V>, chunks: seq<string>)
    requires FirstBad(read, Concat(chunks)).None?
    ensures Feed(read, "", chunks) == (Frames(read, Concat(chunks)), Tail(Concat(chunks)))
  {
    assert "" + Concat(chunks) == Concat(chunks);
    FeedIsSplit(read, "", chunks);
  }

  /** A round that meets a bad line leaves everything after it unread. */
  lemma {:induction false} ConsumeStopsAtBad<V>(read: string -> Reading<V>, text: string)
    requires FirstBad(read, text).Some?
    ensures Consume(read, text).1 == FirstBad(read, text).value
    decreases |text|
  {
    if !read(text[..LineEnd(text)]).Bad? {
      ConsumeStopsAtBad(read, text[LineEnd(text) + 1..]);
    }
  }

  lemma {:induction false} ConsumeLeavesSuffix<V>(read: string -> Reading<V>, text: string)
    ensures |Consume(read, text).1| <= |text|
    ensures HasLine(text) ==> |Consume(read, text).1| < |text|
    decreases |text|
  {
    if HasLine(text) {
      ConsumeLeavesSuffix(read, text[LineEnd(text) + 1..]);
    }
  }

  /** The part of the text up to and including the first bad line. */
  lemma {:induction false} UpToFirstBad<V>(read: string -> Reading<V>, text: string) returns (head: string)
    requires FirstBad(read, text).Some?
    ensures text == head + FirstBad(read, text).value
    ensures FirstBad(read, head) == Some("")
    decreases |text|
  {
    hide Frames, Tail, FirstBad, LineEnd;
    SplitStep(read, text);
    var end := LineEnd(text);
    var line, rest := text[..end + 1], text[end + 1..];
    assert text == line + rest;
    LineEndExact(line, end);
    assert line[..end] == text[..end] && line[end + 1..] == "";
    if read(text[..end]).Bad? {
      head := line;
      SplitStep(read, head);
    } else {
      var head' := UpToFirstBad(read, rest);
      head := line + head';
      LineEndOfPrefix(line, head');
      SplitStep(read, head);
      assert "" + head' == head';
    }
  }

  lemma FeedOne<V>(read: string -> Reading<V>, buffer: string, text: string)
    ensures Concat([text]) == text
    ensures Feed(read, buffer, [text]) == Consume(read, buffer + text)
  {
    hide Consume;
    assert [text][1..] == [] && text + "" == text;
    assert Consume(read, buffer + text).0 + [] == Consume(read, buffer + text).0;
  }

  lemma FeedTwo<V>(read: string -> Reading<V>, first: string, second: string)
    ensures Concat([first, second]) == first + second
    ensures Feed(read, "", [first, second]).1 == Consume(read, Consume(read, first).1 + second).1
  {
    hide Consume;
    assert [first, second][1..] == [second] && "" + first == first;
    FeedOne(read, Consume(read, first).1, second);
  }

  /** Cutting just after the bad line lets the next round read what one round leaves behind. */
  lemma CutAfterBadLine<V>(read: string -> Reading<V>, text: string) returns (a: seq<string>, b: seq<string>)
    requires !OnlyLastLineBad(read, text)
    ensures Concat(a) == text && Concat(b) == text && Feed(read, "", a) != Feed(read, "", b)
  {
    var rest := FirstBad(read, text).value;
    var head := UpToFirstBad(read, text);
    a, b := [text], [head, rest];
    FeedOne(read, "", text);
    FeedTwo(read, head, rest);
    assert "" + text == text;
    ConsumeStopsAtBad(read, text);
    ConsumeStopsAtBad(read, head);
    ConsumeLeavesSuffix(read, rest);
    assert "" + rest == rest;
  }

  /** How the text was cut is irrelevant if and only if no complete line follows a bad one. */
  lemma ChunkingIrrelevantExactly<V(!new)>(read: string -> Reading<V>, text: string)
    ensures ChunkingIrrelevant(read, text) <==> OnlyLastLineBad(read, text)
  {
    if OnlyLastLineBad(read, text) {
      forall a, b | Concat(a) == text && Concat(b) == text ensures Feed(read, "", a) == Feed(read, "", b) {
        assert "" + text == text;
        FeedIsSplit(read, "", a);
        FeedIsSplit(read, "", b);
      }
    } else {
      var a, b := CutAfterBadLine(read, text);
    }
  }

  /** Two cuts of the same text that leave different buffers behind. */
  lemma ChunkingCanMatter(read: string -> Reading<string>)
    requires read("bad").Bad?
    ensures !ChunkingIrrelevant(read, "bad\ngood\n")
  {
    LineEndExact("bad\ngood\n", 3);
    LineEndExact("good\n", 4);
    assert "bad\ngood\n"[..3] == "bad" && "bad\ngood\n"[4..] == "good\n";
    ChunkingIrrelevantExactly(read, "bad\ngood\n");
  }
}
