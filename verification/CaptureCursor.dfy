/**
  The transcript cursor: which complete lines of an append-only file have been consumed, how the next
  batch is read, and when the file at hand is still the one the cursor was made for.  Digests are taken
  as injective, so a digest is the line itself.
 */
module CaptureCursor {
  import opened Wrappers

  type Bytes = string

  datatype File = File(dev: nat, ino: nat, data: Bytes)

  datatype Cursor = Cursor(dev: nat, ino: nat, generation: nat, offset: nat, lineIndex: nat,
                           first: Option<Bytes>, lastOffset: nat, last: Option<Bytes>)

  datatype FileState = Ok | Missing | New | Replaced | Truncated | Rewritten

  /** Where a line read at `i` ends: after the next newline, or at the end of the file. */
  function LineEnd(data: Bytes, i: nat): (end: nat)
    requires i <= |data|
    ensures i <= end <= |data| && (i < |data| ==> i < end)
    decreases |data| - i
  {
    if i == |data| then i
    else if data[i] == '\n' then i + 1
    else LineEnd(data, i + 1)
  }

  function ReadLine(data: Bytes, i: nat): Bytes
    requires i <= |data|
  {
    data[i..LineEnd(data, i)]
  }

  predicate Terminated(line: Bytes) {
    line != [] && line[|line| - 1] == '\n'
  }

  /** A complete line: one newline, at its end. */
  predicate IsLine(line: Bytes) {
    Terminated(line) && (forall k :: 0 <= k < |line| - 1 ==> line[k] != '\n')
  }

  /** All complete lines from `i` on; a partly written last line is not one. */
  function LinesFrom(data: Bytes, i: nat): seq<Bytes>
    requires i <= |data|
    decreases |data| - i
  {
    if i == |data| || !Terminated(ReadLine(data, i)) then []
    else [ReadLine(data, i)] + LinesFrom(data, LineEnd(data, i))
  }

  /** The lines stand one after another in the file, from `i` to `end`. */
  predicate Chain(data: Bytes, i: nat, lines: seq<Bytes>, end: nat) {
    if lines == [] then i == end <= |data|
    else
      var last := lines[|lines| - 1];
      && IsLine(last) && |last| <= end <= |data| && data[end - |last|..end] == last
      && Chain(data, i, lines[..|lines| - 1], end - |last|)
  }

  lemma {:induction false} LineAt(data: Bytes, i: nat, line: Bytes)
    requires i + |line| <= |data| && data[i..i + |line|] == line && IsLine(line)
    ensures ReadLine(data, i) == line && LineEnd(data, i) == i + |line|
    decreases |line|
  {
    assert forall k :: 0 <= k < |line| ==> data[i + k] == line[k];
    LineEndAt(data, i, i + |line| - 1);
  }

  lemma {:induction false} LineEndAt(data: Bytes, i: nat, newline: nat)
    requires i <= newline < |data| && data[newline] == '\n'
    requires forall k :: i <= k < newline ==> data[k] != '\n'
    ensures LineEnd(data, i) == newline + 1
    decreases newline - i
  {
    if i < newline {
      LineEndAt(data, i + 1, newline);
    }
  }

  lemma {:induction false} ReadLineIsLine(data: Bytes, i: nat)
    requires i < |data| && Terminated(ReadLine(data, i))
    ensures IsLine(ReadLine(data, i))
    decreases |data| - i
  {
    NoNewlineBefore(data, i);
  }

  lemma {:induction false} NoNewlineBefore(data: Bytes, i: nat)
    requires i <= |data|
    ensures forall k :: i <= k < LineEnd(data, i) - 1 ==> data[k] != '\n'
    decreases |data| - i
  {
    if i < |data| && data[i] != '\n' {
      NoNewlineBefore(data, i + 1);
    }
  }

  lemma {:induction false} ChainGrown(data: Bytes, more: Bytes, i: nat, lines: seq<Bytes>, end: nat)
    requires Chain(data, i, lines, end)
    ensures Chain(data + more, i, lines, end)
  {
    if lines != [] {
      var last := lines[|lines| - 1];
      ChainGrown(data, more, i, lines[..|lines| - 1], end - |last|);
      assert (data + more)[end - |last|..end] == data[end - |last|..end];
    }
  }

  lemma {:induction false} ChainAppend(data: Bytes, i: nat, a: seq<Bytes>, mid: nat, b: seq<Bytes>, end: nat)
    requires Chain(data, i, a, mid) && Chain(data, mid, b, end)
    ensures Chain(data, i, a + b, end)
    decreases |b|
  {
    if b == [] {
      assert a + b == a;
    } else {
      ChainAppend(data, i, a, mid, b[..|b| - 1], end - |b[|b| - 1]|);
      assert (a + b)[..|a + b| - 1] == a + b[..|b| - 1];
    }
  }

  lemma {:induction false} ChainBounds(data: Bytes, i: nat, lines: seq<Bytes>, end: nat)
    requires Chain(data, i, lines, end)
    ensures i <= end <= |data|
      && (lines != [] ==> i + |lines[0]| <= end && data[i..i + |lines[0]|] == lines[0] && IsLine(lines[0]))
  {
    if lines != [] {
      ChainBounds(data, i, lines[..|lines| - 1], end - |lines[|lines| - 1]|);
      if |lines| == 1 {
        assert lines[..0] == [];
      } else {
        assert lines[..|lines| - 1][0] == lines[0];
      }
    }
  }

  lemma FirstLineRead(data: Bytes, i: nat, line: Bytes)
    requires i + |line| <= |data| && data[i..i + |line|] == line && IsLine(line)
    ensures LinesFrom(data, i) == [line] + LinesFrom(data, i + |line|)
  {
    LineAt(data, i, line);
  }

  lemma Reassociate<T>(front: seq<T>, last: T, rest: seq<T>)
    ensures front + ([last] + rest) == (front + [last]) + rest
  {
  }

  /** A chain is exactly what reading line by line from its start gives. */
  lemma {:induction false} ChainIsRead(data: Bytes, i: nat, lines: seq<Bytes>, end: nat)
    requires Chain(data, i, lines, end)
    ensures i <= end <= |data| && LinesFrom(data, i) == lines + LinesFrom(data, end)
  {
    ChainBounds(data, i, lines, end);
    if lines == [] {
      assert [] + LinesFrom(data, end) == LinesFrom(data, end);
    } else {
      var front, last := lines[..|lines| - 1], lines[|lines| - 1];
      ChainIsRead(data, i, front, end - |last|);
      ExtendRead(data, i, front, last, end);
      assert lines == front + [last];
    }
  }

  lemma ExtendRead(data: Bytes, i: nat, front: seq<Bytes>, last: Bytes, end: nat)
    requires |last| <= end <= |data| && data[end - |last|..end] == last && IsLine(last)
    requires i <= |data| && LinesFrom(data, i) == front + LinesFrom(data, end - |last|)
    ensures LinesFrom(data, i) == (front + [last]) + LinesFrom(data, end)
  {
    FirstLineRead(data, end - |last|, last);
    Reassociate(front, last, LinesFrom(data, end));
  }

  // ---- the cursor --------------------------------------------------------

  /** The cursor stands after exactly these complete lines of the file. */
  ghost predicate Matches(data: Bytes, c: Cursor, consumed: seq<Bytes>) {
    && Chain(data, 0, consumed, c.offset)
    && c.lineIndex == |consumed|
    && (consumed == [] ==> c.first == None)
    && (consumed != [] ==>
          && c.first == Some(consumed[0]) && c.last == Some(consumed[|consumed| - 1])
          && c.lastOffset + |consumed[|consumed| - 1]| == c.offset)
  }

  /** The constant-time check: same file, not shorter, and its first and last consumed lines in place. */
  function CursorState(file: Option<File>, cursor: Option<Cursor>): FileState {
    if file.None? then Missing
    else if cursor.None? then New
    else
      var f, c := file.value, cursor.value;
      if (f.dev, f.ino) != (c.dev, c.ino) then Replaced
      else if |f.data| < c.offset then Truncated
      else if c.offset > 0 && Some(ReadLine(f.data, 0)) != c.first then Rewritten
      else if c.offset > 0 && (c.lastOffset > |f.data| || Some(ReadLine(f.data, c.lastOffset)) != c.last
                               || LineEnd(f.data, c.lastOffset) != c.offset) then Rewritten
      else Ok
  }

  function NewGeneration(file: File, cursor: Option<Cursor>): Cursor {
    Cursor(file.dev, file.ino, if cursor.Some? then cursor.value.generation + 1 else 0, 0, 0, None, 0, None)
  }

  lemma NewGenerationMatches(file: File, cursor: Option<Cursor>)
    ensures Matches(file.data, NewGeneration(file, cursor), [])
    ensures CursorState(Some(file), Some(NewGeneration(file, cursor))) == Ok
    ensures cursor.Some? ==> cursor.value.generation < NewGeneration(file, cursor).generation
  {
  }

  lemma MatchesGrown(data: Bytes, more: Bytes, c: Cursor, consumed: seq<Bytes>)
    requires Matches(data, c, consumed)
    ensures Matches(data + more, c, consumed)
  {
    ChainGrown(data, more, 0, consumed, c.offset);
  }

  /** Append-only growth always reads as `ok`: no new generation is ever started for it. */
  lemma GrowthIsOk(file: File, more: Bytes, c: Cursor, consumed: seq<Bytes>)
    requires Matches(file.data, c, consumed) && file.dev == c.dev && file.ino == c.ino
    ensures CursorState(Some(file.(data := file.data + more)), Some(c)) == Ok
  {
    MatchesGrown(file.data, more, c, consumed);
    MatchIsOk(file.(data := file.data + more), c, consumed);
  }

  lemma MatchIsOk(file: File, c: Cursor, consumed: seq<Bytes>)
    requires Matches(file.data, c, consumed) && file.dev == c.dev && file.ino == c.ino
    ensures CursorState(Some(file), Some(c)) == Ok
  {
    ChainBounds(file.data, 0, consumed, c.offset);
    if consumed != [] {
      LineAt(file.data, 0, consumed[0]);
      LineAt(file.data, c.lastOffset, consumed[|consumed| - 1]);
    }
  }

  /** The check says ok exactly of the same file, not shorter than the offset, in which the first and the last line
      consumed stand where they were; otherwise it says which of these fails first. */
  lemma StateMeans(was: Bytes, file: File, c: Cursor, consumed: seq<Bytes>)
    requires Matches(was, c, consumed)
    ensures consumed != [] ==> |consumed[0]| <= c.offset && c.lastOffset <= c.offset
    ensures CursorState(Some(file), Some(c)) ==
      if file.dev != c.dev || file.ino != c.ino then Replaced
      else if |file.data| < c.offset then Truncated
      else if consumed == []
              || (file.data[..|consumed[0]|] == consumed[0]
                  && file.data[c.lastOffset..c.offset] == consumed[|consumed| - 1]) then Ok
      else Rewritten
  {
    ChainBounds(was, 0, consumed, c.offset);
    if consumed != [] && file.dev == c.dev && file.ino == c.ino && c.offset <= |file.data| {
      var first, last := consumed[0], consumed[|consumed| - 1];
      if file.data[..|first|] == first {
        LineAt(file.data, 0, first);
      }
      if file.data[c.lastOffset..c.offset] == last {
        LineAt(file.data, c.lastOffset, last);
      }
    }
  }

  // ---- reading a batch ---------------------------------------------------

  function Raws(lines: seq<(nat, Bytes)>): (raws: seq<Bytes>)
    ensures |raws| == |lines|
  {
    seq(|lines|, k requires 0 <= k < |lines| => lines[k].1)
  }

  /** The batch is a chain from `offset`, and its last start is where its last line begins. */
  ghost predicate Follow(data: Bytes, offset: nat, lines: seq<(nat, Bytes)>) {
    Chain(data, offset, Raws(lines), EndOf(offset, lines))
  }

  function EndOf(offset: nat, lines: seq<(nat, Bytes)>): nat {
    if lines == [] then offset else lines[|lines| - 1].0 + |lines[|lines| - 1].1|
  }

  /** Complete lines from `offset`, within the batch limits; a partly written last line waits. */
  method ReadLines(data: Bytes, offset: nat, maxLines: nat, maxBytes: nat) returns (lines: seq<(nat, Bytes)>)
    requires offset <= |data|
    ensures Follow(data, offset, lines) && |lines| <= maxLines
    ensures lines == [] && 0 < maxLines && 0 < maxBytes ==> LinesFrom(data, offset) == []
  {
    lines := [];
    var total, at := 0, offset;
    while |lines| < maxLines && total < maxBytes
      invariant Follow(data, offset, lines) && |lines| <= maxLines
      invariant at == EndOf(offset, lines) <= |data|
      invariant lines == [] ==> total == 0
      decreases maxLines - |lines|
    {
      var line := ReadLine(data, at);
      if !Terminated(line) {
        break;
      }
      ReadLineIsLine(data, at);
      var next := lines + [(at, line)];
      assert Raws(next)[..|Raws(next)| - 1] == Raws(lines);
      lines := next;
      total := total + |line|;
      at := at + |line|;
    }
  }

  function Advance(c: Cursor, lines: seq<(nat, Bytes)>): Cursor
    requires lines != []
  {
    var (start, line) := lines[|lines| - 1];
    c.(first := if c.first.Some? then c.first else if c.offset == 0 then Some(lines[0].1) else c.first,
       offset := start + |line|, lineIndex := c.lineIndex + |lines|, lastOffset := start, last := Some(line))
  }

  /** Ingesting a batch moves the cursor over exactly the batch's lines. */
  lemma AdvanceMatches(data: Bytes, c: Cursor, consumed: seq<Bytes>, lines: seq<(nat, Bytes)>)
    requires Matches(data, c, consumed) && lines != [] && Follow(data, c.offset, lines)
    ensures Matches(data, Advance(c, lines), consumed + Raws(lines))
    ensures Advance(c, lines).dev == c.dev && Advance(c, lines).ino == c.ino
      && Advance(c, lines).generation == c.generation
  {
    ChainAppend(data, 0, consumed, c.offset, Raws(lines), EndOf(c.offset, lines));
  }

  /** A drain looks at the file once.  If the file is rewritten in place between two of its batches, every later look
      takes it for unchanged exactly when its first line is still the one consumed first. */
  lemma RewriteUnseen(was: Bytes, file: File, c: Cursor, consumed: seq<Bytes>, lines: seq<(nat, Bytes)>)
    requires Matches(was, c, consumed) && consumed != [] && file.dev == c.dev && file.ino == c.ino
    requires lines != [] && Follow(file.data, c.offset, lines)
    ensures CursorState(Some(file), Some(Advance(c, lines))) == Ok <==> ReadLine(file.data, 0) == consumed[0]
  {
    var (start, last) := lines[|lines| - 1];
    ChainBounds(was, 0, consumed, c.offset);
    assert Raws(lines)[|lines| - 1] == last;
    LineAt(file.data, start, last);
  }

  /** Such a rewrite costs a line: the second line changes after it was consumed, a look before the next batch would
      see it, and once that batch is in, none does. */
  lemma RewriteCosts()
    ensures var was, now, c := "a\nb\nc\n", File(1, 1, "a\nx\nc\n"), Cursor(1, 1, 0, 4, 2, Some("a\n"), 2, Some("b\n"));
      && Matches(was, c, ["a\n", "b\n"]) && CursorState(Some(now), Some(c)) == Rewritten
      && Follow(now.data, c.offset, [(4, "c\n")])
      && CursorState(Some(now), Some(Advance(c, [(4, "c\n")]))) == Ok
      && "x\n" in LinesFrom(now.data, 0) && LinesFrom(now.data, Advance(c, [(4, "c\n")]).offset) == []
  {
    var was, now, c := "a\nb\nc\n", File(1, 1, "a\nx\nc\n"), Cursor(1, 1, 0, 4, 2, Some("a\n"), 2, Some("b\n"));
    TwoLines(was, "a\n", "b\n");
    LastLine(now.data);
    LineAt(now.data, 0, "a\n");
    LineAt(now.data, 2, "x\n");
    RewriteUnseen(was, now, c, ["a\n", "b\n"], [(4, "c\n")]);
    ThreeLines(now.data);
  }

  lemma LastLine(data: Bytes)
    requires data == "a\nx\nc\n"
    ensures Follow(data, 4, [(4, "c\n")])
  {
    assert data[4..6] == "c\n" && Raws([(4, "c\n")]) == ["c\n"] && ["c\n"][..0] == [];
    assert Chain(data, 4, [], 4);
  }

  lemma ThreeLines(data: Bytes)
    requires data == "a\nx\nc\n"
    ensures "x\n" in LinesFrom(data, 0) && LinesFrom(data, 6) == []
  {
    LineAt(data, 0, "a\n");
    LineAt(data, 2, "x\n");
    assert LinesFrom(data, 0) == ["a\n"] + LinesFrom(data, 2);
    assert LinesFrom(data, 2) == ["x\n"] + LinesFrom(data, 4);
    assert LinesFrom(data, 0)[1] == "x\n";
  }

  lemma TwoLines(data: Bytes, a: Bytes, b: Bytes)
    requires IsLine(a) && IsLine(b) && a + b <= data
    ensures Chain(data, 0, [a, b], |a| + |b|)
  {
    assert [a, b][..1] == [a] && [a][..0] == [];
    assert data[0..|a|] == a && data[|a|..|a| + |b|] == b;
    assert Chain(data, 0, [], 0);
  }

  /** What has been consumed is always the first `lineIndex` complete lines of the file, in order, and
      when no further line can be read it is all of them. */
  lemma ConsumedExactly(data: Bytes, c: Cursor, consumed: seq<Bytes>)
    requires Matches(data, c, consumed)
    ensures c.offset <= |data| && LinesFrom(data, 0) == consumed + LinesFrom(data, c.offset)
    ensures LinesFrom(data, c.offset) == [] ==> LinesFrom(data, 0) == consumed
  {
    ChainIsRead(data, 0, consumed, c.offset);
    assert consumed + [] == consumed;
  }

  lemma {:induction false} ChainNewlines(data: Bytes, lines: seq<Bytes>, end: nat)
    requires Chain(data, 0, lines, end)
    ensures Newlines(data[..end]) == |lines|
  {
    if lines != [] {
      var last := lines[|lines| - 1];
      ChainNewlines(data, lines[..|lines| - 1], end - |last|);
      NewlinesAppend(data[..end - |last|], last);
      LineHasOne(last);
      assert data[..end] == data[..end - |last|] + last;
    }
  }

  function Newlines(data: Bytes): nat {
    if data == [] then 0 else Newlines(data[..|data| - 1]) + (if data[|data| - 1] == '\n' then 1 else 0)
  }

  lemma {:induction false} NewlinesAppend(a: Bytes, b: Bytes)
    ensures Newlines(a + b) == Newlines(a) + Newlines(b)
    decreases |b|
  {
    if b == [] {
      assert a + b == a;
    } else {
      assert (a + b)[..|a + b| - 1] == a + b[..|b| - 1];
      NewlinesAppend(a, b[..|b| - 1]);
    }
  }

  lemma LineHasOne(line: Bytes)
    requires IsLine(line)
    ensures Newlines(line) == 1
  {
    NoNewlines(line[..|line| - 1]);
  }

  lemma {:induction false} NoNewlines(data: Bytes)
    requires forall k :: 0 <= k < |data| ==> data[k] != '\n'
    ensures Newlines(data) == 0
  {
    if data != [] {
      NoNewlines(data[..|data| - 1]);
    }
  }

  /** The cursor offset is a line boundary and `lineIndex` counts the newlines before it. */
  lemma CursorCounts(data: Bytes, c: Cursor, consumed: seq<Bytes>)
    requires Matches(data, c, consumed)
    ensures c.offset <= |data| && c.lineIndex == Newlines(data[..c.offset])
    ensures c.offset == 0 || data[c.offset - 1] == '\n'
  {
    ChainNewlines(data, consumed, c.offset);
    if consumed != [] {
      var last := consumed[|consumed| - 1];
      assert data[c.offset - 1] == data[c.offset - |last|..c.offset][|last| - 1];
    }
  }
}
