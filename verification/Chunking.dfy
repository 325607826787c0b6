/**
  Chunk windowing: sentences tile a text, windows are runs of whole sentences, and every policy emits
  windows under the index they have in the full windowing, so a chunk can be rebuilt from its id.
 */
module Chunking {
  import opened Wrappers

  const TargetTokens: nat := 600
  const FullCap: nat := 32000
  const MaxErrors: nat := 3

  /** What the text functions leave to the language and the tokenizer. */
  datatype Lang = Lang(space: char -> bool, count: string -> nat, error: string -> bool)

  type Span = (nat, nat)

  // ---- sentences ---------------------------------------------------------

  predicate Stop(c: char) {
    c == '.' || c == '!' || c == '?'
  }

  /** The end of the run of characters like this from `i` on. */
  function RunEnd(text: string, like: char -> bool, i: nat): (end: nat)
    requires i <= |text|
    ensures i <= end <= |text| && (forall k :: i <= k < end ==> like(text[k])) && (end < |text| ==> !like(text[end]))
    decreases |text| - i
  {
    if i < |text| && like(text[i]) then RunEnd(text, like, i + 1) else i
  }

  /** The sentences from `start` on, when the scan has reached `i`. */
  function Scan(lang: Lang, text: string, start: nat, i: nat): seq<Span>
    requires start <= i <= |text|
    decreases |text| - i
  {
    if i == |text| then (if start < |text| then [(start, |text|)] else [])
    else if Stop(text[i]) then
      var j := RunEnd(text, Stop, i + 1);
      if j == |text| || lang.space(text[j]) then
        var end := RunEnd(text, lang.space, j);
        [(start, end)] + Scan(lang, text, end, end)
      else Scan(lang, text, start, j)
    else if text[i] == '\n' then
      var j := RunEnd(text, c => c == '\n', i + 1);
      [(start, j)] + Scan(lang, text, j, j)
    else Scan(lang, text, start, i + 1)
  }

  function Sentences(lang: Lang, text: string): seq<Span> {
    Scan(lang, text, 0, 0)
  }

  method RunTo(text: string, like: char -> bool, i: nat) returns (end: nat)
    requires i <= |text|
    ensures end == RunEnd(text, like, i)
  {
    end := i;
    while end < |text| && like(text[end])
      invariant i <= end <= |text| && RunEnd(text, like, i) == RunEnd(text, like, end)
    {
      end := end + 1;
    }
  }

  lemma Joined<T>(done: seq<T>, x: T, rest: seq<T>)
    ensures done + ([x] + rest) == (done + [x]) + rest
  {
  }

  method SentenceSpans(lang: Lang, text: string) returns (spans: seq<Span>)
    ensures spans == Sentences(lang, text)
  {
    spans := [];
    var start, i := 0, 0;
    while i < |text|
      invariant 0 <= start <= i <= |text|
      invariant spans + Scan(lang, text, start, i) == Sentences(lang, text)
      decreases |text| - i
    {
      if Stop(text[i]) {
        var j := RunTo(text, Stop, i + 1);
        if j == |text| || lang.space(text[j]) {
          var end := RunTo(text, lang.space, j);
          Joined(spans, (start, end), Scan(lang, text, end, end));
          spans := spans + [(start, end)];
          start, i := end, end;
        } else {
          i := j;
        }
      } else if text[i] == '\n' {
        var j := RunTo(text, c => c == '\n', i + 1);
        Joined(spans, (start, j), Scan(lang, text, j, j));
        spans := spans + [(start, j)];
        start, i := j, j;
      } else {
        i := i + 1;
      }
    }
    if start < |text| {
      spans := spans + [(start, |text|)];
    }
  }

  /** The spans follow each other from `from` to `to`, none empty. */
  ghost predicate Tile(spans: seq<Span>, from: nat, to: nat) {
    && (forall k :: 0 <= k < |spans| ==> spans[k].0 < spans[k].1)
    && (forall k, l :: 0 <= k < l < |spans| && l == k + 1 ==> spans[k].1 == spans[l].0)
    && (if spans == [] then from == to else spans[0].0 == from && spans[|spans| - 1].1 == to)
  }

  lemma TileMore(first: Span, rest: seq<Span>, from: nat, to: nat)
    requires Tile(rest, first.1, to) && from == first.0 < first.1
    ensures Tile([first] + rest, from, to)
  {
    var spans := [first] + rest;
    forall k, l | 0 <= k < l < |spans| && l == k + 1 ensures spans[k].1 == spans[l].0 {
      if k > 0 {
        assert rest[k - 1].1 == rest[l - 1].0;
      }
    }
  }

  lemma {:induction false} ScanTiles(lang: Lang, text: string, start: nat, i: nat)
    requires start <= i <= |text|
    ensures Tile(Scan(lang, text, start, i), start, |text|)
    decreases |text| - i
  {
    if i < |text| {
      if Stop(text[i]) {
        var j := RunEnd(text, Stop, i + 1);
        if j == |text| || lang.space(text[j]) {
          var end := RunEnd(text, lang.space, j);
          ScanTiles(lang, text, end, end);
          TileMore((start, end), Scan(lang, text, end, end), start, |text|);
        } else {
          ScanTiles(lang, text, start, j);
        }
      } else if text[i] == '\n' {
        var j := RunEnd(text, c => c == '\n', i + 1);
        ScanTiles(lang, text, j, j);
        TileMore((start, j), Scan(lang, text, j, j), start, |text|);
      } else {
        ScanTiles(lang, text, start, i + 1);
      }
    }
  }

  /** Sentences tile the text: no gap, no overlap, no empty span. */
  lemma SentencesTile(lang: Lang, text: string)
    ensures Tile(Sentences(lang, text), 0, |text|)
  {
    ScanTiles(lang, text, 0, 0);
  }

  /** A place where a sentence may end: after stops and the white space that follows them, or after newlines. */
  ghost predicate IsBreak(lang: Lang, text: string, b: nat) {
    b == |text| || (0 < b < |text| && ((text[b - 1] == '\n' && text[b] != '\n') || AfterStops(lang, text, b)))
  }

  ghost predicate AfterStops(lang: Lang, text: string, b: nat)
    requires 0 < b < |text|
  {
    && !lang.space(text[b])
    && exists j: nat :: j < b && Stop(text[j]) && (forall k :: j < k < b ==> lang.space(text[k]))
  }

  /** Sentences end only at such places. */
  lemma {:induction false} SentenceBreaks(lang: Lang, text: string, start: nat, i: nat)
    requires start <= i <= |text|
    ensures forall k :: 0 <= k < |Scan(lang, text, start, i)| ==> IsBreak(lang, text, Scan(lang, text, start, i)[k].1)
    decreases |text| - i
  {
    if i < |text| {
      if Stop(text[i]) {
        var j := RunEnd(text, Stop, i + 1);
        if j == |text| || lang.space(text[j]) {
          var end := RunEnd(text, lang.space, j);
          SentenceBreaks(lang, text, end, end);
          assert Stop(text[j - 1]);
          assert IsBreak(lang, text, end);
        } else {
          SentenceBreaks(lang, text, start, j);
        }
      } else if text[i] == '\n' {
        var j := RunEnd(text, c => c == '\n', i + 1);
        SentenceBreaks(lang, text, j, j);
        assert text[j - 1] == '\n';
      } else {
        SentenceBreaks(lang, text, start, i + 1);
      }
    }
  }

  // ---- windows, as runs of sentences -------------------------------------

  function Sum(tokens: seq<nat>, i: nat, j: nat): nat
    requires i <= j <= |tokens|
  {
    if i == j then 0 else Sum(tokens, i, j - 1) + tokens[j - 1]
  }

  /** How far a window from `i` reaches: whole sentences up to the target, always at least one. */
  function Fill(tokens: seq<nat>, i: nat, j: nat): (end: nat)
    requires i <= j <= |tokens| && i < |tokens|
    ensures j <= end <= |tokens| && i < end
    decreases |tokens| - j
  {
    if j == |tokens| || (j > i && Sum(tokens, i, j) + tokens[j] > TargetTokens) then j else Fill(tokens, i, j + 1)
  }

  /** The next window re-opens on the last sentence, unless the window held a single one. */
  function Next(i: nat, j: nat): nat
    requires i < j
  {
    if j - i >= 2 then j - 1 else j
  }

  /** The windows from sentence `i` on, as (first sentence, end). */
  function Parts(tokens: seq<nat>, i: nat): seq<Span>
    requires i < |tokens|
    decreases |tokens| - i
  {
    var j := Fill(tokens, i, i);
    [(i, j)] + if j == |tokens| then [] else Parts(tokens, Next(i, j))
  }

  lemma {:induction false} FillBound(tokens: seq<nat>, i: nat, j: nat)
    requires i <= j <= |tokens| && i < |tokens| && (j - i >= 2 ==> Sum(tokens, i, j) <= TargetTokens)
    ensures var end := Fill(tokens, i, j);
      && (end - i >= 2 ==> Sum(tokens, i, end) <= TargetTokens)
      && (end < |tokens| ==> Sum(tokens, i, end) + tokens[end] > TargetTokens)
    decreases |tokens| - j
  {
    if !(j == |tokens| || (j > i && Sum(tokens, i, j) + tokens[j] > TargetTokens)) {
      FillBound(tokens, i, j + 1);
    }
  }

  /** A window is within the target unless it is one sentence, and could not take the next sentence. */
  ghost predicate Filled(tokens: seq<nat>, w: Span) {
    && w.0 < w.1 <= |tokens|
    && (w.1 - w.0 >= 2 ==> Sum(tokens, w.0, w.1) <= TargetTokens)
    && (w.1 < |tokens| ==> Sum(tokens, w.0, w.1) + tokens[w.1] > TargetTokens)
  }

  /** Neighbours: starts strictly increase, ends do not decrease, no sentence is skipped, and one is shared exactly when
      the first window has more than that one. */
  ghost predicate Follows(a: Span, b: Span) {
    a.0 < b.0 && a.1 <= b.1 && b.0 == if a.1 - a.0 >= 2 then a.1 - 1 else a.1
  }

  ghost predicate Windowed(tokens: seq<nat>, parts: seq<Span>, i: nat) {
    && parts != [] && parts[0].0 == i && parts[|parts| - 1].1 == |tokens|
    && (forall k :: 0 <= k < |parts| ==> Filled(tokens, parts[k]))
    && (forall k, l :: 0 <= k < l < |parts| && l == k + 1 ==> Follows(parts[k], parts[l]))
  }

  lemma {:induction false} PartsWindowed(tokens: seq<nat>, i: nat)
    requires i < |tokens|
    ensures Windowed(tokens, Parts(tokens, i), i)
    decreases |tokens| - i
  {
    var j := Fill(tokens, i, i);
    FillBound(tokens, i, i);
    if j < |tokens| {
      PartsWindowed(tokens, Next(i, j));
      var rest, parts := Parts(tokens, Next(i, j)), Parts(tokens, i);
      assert parts == [(i, j)] + rest;
      forall k, l | 0 <= k < l < |parts| && l == k + 1 ensures Follows(parts[k], parts[l]) {
        if k > 0 {
          assert Follows(rest[k - 1], rest[l - 1]);
        }
      }
    }
  }

  // ---- windows, as spans of the text -------------------------------------

  function Counts(lang: Lang, text: string, sentences: seq<Span>): (tokens: seq<nat>)
    requires forall k :: 0 <= k < |sentences| ==> sentences[k].0 <= sentences[k].1 <= |text|
    ensures |tokens| == |sentences|
  {
    seq(|sentences|, k requires 0 <= k < |sentences| => CountOf(lang, text, sentences[k]))
  }

  function CountOf(lang: Lang, text: string, span: Span): nat
    requires span.0 <= span.1 <= |text|
  {
    lang.count(text[span.0..span.1])
  }

  lemma {:induction false} TileBounds(spans: seq<Span>, from: nat, to: nat, k: nat)
    requires Tile(spans, from, to) && k < |spans|
    ensures from <= spans[k].0 && spans[k].1 <= to
  {
    TileBelow(spans, k);
    TileAbove(spans, k);
  }

  lemma {:induction false} TileBelow(spans: seq<Span>, k: nat)
    requires k < |spans| && (forall l :: 0 <= l < |spans| ==> spans[l].0 < spans[l].1)
    requires forall l, m :: 0 <= l < m < |spans| && m == l + 1 ==> spans[l].1 == spans[m].0
    ensures spans[0].0 <= spans[k].0
  {
    if k > 0 {
      TileBelow(spans, k - 1);
      assert spans[k - 1].1 == spans[k].0;
    }
  }

  lemma {:induction false} TileAbove(spans: seq<Span>, k: nat)
    requires k < |spans| && (forall l :: 0 <= l < |spans| ==> spans[l].0 < spans[l].1)
    requires forall l, m :: 0 <= l < m < |spans| && m == l + 1 ==> spans[l].1 == spans[m].0
    ensures spans[k].1 <= spans[|spans| - 1].1
    decreases |spans| - k
  {
    if k < |spans| - 1 {
      TileAbove(spans, k + 1);
      assert spans[k].1 == spans[k + 1].0;
    }
  }

  lemma SentenceBounds(lang: Lang, text: string)
    ensures var sentences := Sentences(lang, text);
      forall k :: 0 <= k < |sentences| ==> sentences[k].0 <= sentences[k].1 <= |text|
  {
    SentencesTile(lang, text);
    var sentences := Sentences(lang, text);
    forall k | 0 <= k < |sentences| ensures sentences[k].0 <= sentences[k].1 <= |text| {
      TileBounds(sentences, 0, |text|, k);
    }
  }

  function SpanOf(sentences: seq<Span>, part: Span): Span
    requires part.0 < part.1 <= |sentences|
  {
    (sentences[part.0].0, sentences[part.1 - 1].1)
  }

  function SpansOf(sentences: seq<Span>, parts: seq<Span>): (spans: seq<Span>)
    requires forall k :: 0 <= k < |parts| ==> parts[k].0 < parts[k].1 <= |sentences|
    ensures |spans| == |parts|
  {
    seq(|parts|, k requires 0 <= k < |parts| => SpanOf(sentences, parts[k]))
  }

  function Windows(lang: Lang, text: string): seq<Span> {
    if text == [] then []
    else if lang.count(text) <= TargetTokens then [(0, |text|)]
    else
      var sentences := Sentences(lang, text);
      SentencesTile(lang, text);
      SentenceBounds(lang, text);
      var tokens := Counts(lang, text, sentences);
      PartsWindowed(tokens, 0);
      assert forall k :: 0 <= k < |Parts(tokens, 0)| ==> Filled(tokens, Parts(tokens, 0)[k]);
      SpansOf(sentences, Parts(tokens, 0))
  }

  /** Accumulate whole sentences from `i`: the loop's running total is the window's token sum. */
  method FillWindow(lang: Lang, text: string, sentences: seq<Span>, i: nat) returns (j: nat)
    requires i < |sentences| && (forall k :: 0 <= k < |sentences| ==> sentences[k].0 <= sentences[k].1 <= |text|)
    ensures j == Fill(Counts(lang, text, sentences), i, i)
  {
    ghost var tokens := Counts(lang, text, sentences);
    var accumulated := 0;
    j := i;
    while j < |sentences|
      invariant i <= j <= |sentences| && accumulated == Sum(tokens, i, j)
      invariant Fill(tokens, i, i) == Fill(tokens, i, j)
    {
      var n := CountOf(lang, text, sentences[j]);
      if j > i && accumulated + n > TargetTokens {
        break;
      }
      accumulated := accumulated + n;
      j := j + 1;
    }
  }

  method LongWindows(lang: Lang, text: string, sentences: seq<Span>) returns (windows: seq<Span>)
    requires sentences != [] && (forall k :: 0 <= k < |sentences| ==> sentences[k].0 <= sentences[k].1 <= |text|)
    ensures var parts := Parts(Counts(lang, text, sentences), 0);
      && (forall k :: 0 <= k < |parts| ==> parts[k].0 < parts[k].1 <= |sentences|)
      && windows == SpansOf(sentences, parts)
  {
    ghost var tokens := Counts(lang, text, sentences);
    ghost var parts: seq<Span> := [];
    windows := [];
    var i := 0;
    while true
      invariant 0 <= i < |sentences| && PartsSoFar(tokens, parts, i)
      invariant (forall k :: 0 <= k < |parts| ==> parts[k].0 < parts[k].1 <= |sentences|)
        && windows == SpansOf(sentences, parts)
      decreases |sentences| - i
    {
      var j := FillWindow(lang, text, sentences, i);
      PartsStep(tokens, parts, i, j);
      windows := windows + [(sentences[i].0, sentences[j - 1].1)];
      parts := parts + [(i, j)];
      if j >= |sentences| {
        break;
      }
      i := if j - i >= 2 then j - 1 else j;
    }
  }

  /** The windows taken so far, and those still to come from sentence `i`, are all of them. */
  ghost predicate PartsSoFar(tokens: seq<nat>, parts: seq<Span>, i: nat) {
    i < |tokens| && Parts(tokens, 0) == parts + Parts(tokens, i)
  }

  lemma PartsStep(tokens: seq<nat>, parts: seq<Span>, i: nat, j: nat)
    requires PartsSoFar(tokens, parts, i) && j == Fill(tokens, i, i)
    ensures if j == |tokens| then Parts(tokens, 0) == parts + [(i, j)]
      else PartsSoFar(tokens, parts + [(i, j)], Next(i, j))
  {
    Joined(parts, (i, j), if j == |tokens| then [] else Parts(tokens, Next(i, j)));
  }

  method WindowSpans(lang: Lang, text: string) returns (windows: seq<Span>)
    ensures windows == Windows(lang, text)
  {
    if text == [] {
      return [];
    }
    if lang.count(text) <= TargetTokens {
      return [(0, |text|)];
    }
    var sentences := SentenceSpans(lang, text);
    SentencesTile(lang, text);
    SentenceBounds(lang, text);
    windows := LongWindows(lang, text, sentences);
  }

  /** Windows cover the text: starts strictly increase, ends do not decrease, and neighbours meet or overlap. */
  ghost predicate Covering(windows: seq<Span>, to: nat) {
    && windows != [] && windows[0].0 == 0 && windows[|windows| - 1].1 == to
    && (forall k :: 0 <= k < |windows| ==> windows[k].0 < windows[k].1 <= to)
    && (forall k, l :: 0 <= k < l < |windows| && l == k + 1 ==> Beside(windows[k], windows[l]))
  }

  predicate Beside(a: Span, b: Span) {
    a.0 < b.0 <= a.1 <= b.1
  }

  lemma {:induction false} TileOrder(spans: seq<Span>, from: nat, to: nat, i: nat, j: nat)
    requires Tile(spans, from, to) && i < j < |spans|
    ensures spans[i].1 <= spans[j].0
    decreases j - i
  {
    if j > i + 1 {
      TileOrder(spans, from, to, i, j - 1);
    }
    assert spans[j - 1].1 == spans[j].0;
  }

  lemma SpanBeside(sentences: seq<Span>, to: nat, a: Span, b: Span)
    requires Tile(sentences, 0, to) && a.0 < a.1 <= |sentences| && b.0 < b.1 <= |sentences| && Follows(a, b)
    ensures Beside(SpanOf(sentences, a), SpanOf(sentences, b))
  {
    TileOrder(sentences, 0, to, a.0, b.0);
    if b.0 == a.1 {
      assert sentences[b.0 - 1].1 == sentences[b.0].0;
    }
    if a.1 - 1 < b.1 - 1 {
      TileOrder(sentences, 0, to, a.1 - 1, b.1 - 1);
    }
  }

  lemma SpanBounds(sentences: seq<Span>, to: nat, part: Span)
    requires Tile(sentences, 0, to) && part.0 < part.1 <= |sentences|
    ensures SpanOf(sentences, part).0 < SpanOf(sentences, part).1 <= to
  {
    TileBounds(sentences, 0, to, part.1 - 1);
    if part.0 < part.1 - 1 {
      TileOrder(sentences, 0, to, part.0, part.1 - 1);
    }
  }

  lemma SpansCover(sentences: seq<Span>, to: nat, tokens: seq<nat>, parts: seq<Span>)
    requires Tile(sentences, 0, to) && sentences != [] && |tokens| == |sentences| && Windowed(tokens, parts, 0)
    ensures (forall k :: 0 <= k < |parts| ==> parts[k].0 < parts[k].1 <= |sentences|)
      && Covering(SpansOf(sentences, parts), to)
  {
    assert forall k :: 0 <= k < |parts| ==> Filled(tokens, parts[k]);
    var windows := SpansOf(sentences, parts);
    forall k | 0 <= k < |parts| ensures windows[k].0 < windows[k].1 <= to {
      SpanBounds(sentences, to, parts[k]);
    }
    forall k, l | 0 <= k < l < |windows| && l == k + 1 ensures Beside(windows[k], windows[l]) {
      SpanBeside(sentences, to, parts[k], parts[l]);
    }
  }

  /** The windows of any non-empty text cover it. */
  lemma WindowsCover(lang: Lang, text: string)
    requires text != []
    ensures Covering(Windows(lang, text), |text|)
  {
    if lang.count(text) > TargetTokens {
      var sentences := Sentences(lang, text);
      SentencesTile(lang, text);
      SentenceBounds(lang, text);
      var tokens := Counts(lang, text, sentences);
      PartsWindowed(tokens, 0);
      SpansCover(sentences, |text|, tokens, Parts(tokens, 0));
    }
  }

  // ---- chunks ------------------------------------------------------------

  datatype Chunk = Chunk(store: nat, index: nat, start: nat, end: nat, text: string, tokens: nat)
  datatype Role = Conversational | ToolResult | OtherRole
  datatype Policy = ConversationalOnly | Heads | Full

  function MakeChunk(lang: Lang, store: nat, index: nat, text: string, span: Span): Chunk
    requires span.0 <= span.1 <= |text|
  {
    Chunk(store, index, span.0, span.1, text[span.0..span.1], lang.count(text[span.0..span.1]))
  }

  lemma WindowBounds(lang: Lang, text: string)
    ensures forall k :: 0 <= k < |Windows(lang, text)| ==> Windows(lang, text)[k].0 < Windows(lang, text)[k].1 <= |text|
  {
    if text != [] {
      WindowsCover(lang, text);
    }
  }

  function FullChunks(lang: Lang, store: nat, text: string): (chunks: seq<Chunk>)
    ensures |chunks| == |Windows(lang, text)|
    ensures forall k :: 0 <= k < |chunks| ==> chunks[k].index == k && chunks[k].store == store
    ensures forall k :: 0 <= k < |chunks| ==>
      chunks[k].start < chunks[k].end <= |text| && chunks[k].text == text[chunks[k].start..chunks[k].end]
  {
    WindowBounds(lang, text);
    var windows := Windows(lang, text);
    seq(|windows|, k requires 0 <= k < |windows| => MakeChunk(lang, store, k, text, windows[k]))
  }

  /** The head and the first error windows after it. */
  function Picked(lang: Lang, full: seq<Chunk>, n: nat): (picked: seq<Chunk>)
    requires n <= |full|
    ensures |picked| <= n && |picked| <= 1 + MaxErrors
    ensures forall c :: c in picked ==> c in full[..n]
  {
    if n == 0 then []
    else
      var before := Picked(lang, full, n - 1);
      if n == 1 || (|before| <= MaxErrors && lang.error(full[n - 1].text)) then before + [full[n - 1]] else before
  }

  method HeadAndErrorChunks(lang: Lang, store: nat, text: string) returns (chunks: seq<Chunk>)
    ensures chunks == Picked(lang, FullChunks(lang, store, text), |FullChunks(lang, store, text)|)
  {
    var windows := WindowSpans(lang, text);
    ghost var full := FullChunks(lang, store, text);
    if windows == [] {
      return [];
    }
    WindowBounds(lang, text);
    chunks := [MakeChunk(lang, store, 0, text, windows[0])];
    var errors, index := 0, 1;
    while index < |windows| && errors < MaxErrors
      invariant 1 <= index <= |windows| && chunks == Picked(lang, full, index) && |chunks| == errors + 1
    {
      var (start, end) := windows[index];
      if lang.error(text[start..end]) {
        chunks := chunks + [MakeChunk(lang, store, index, text, windows[index])];
        errors := errors + 1;
      }
      index := index + 1;
    }
    PickedStops(lang, full, index, |full|);
  }

  lemma {:induction false} PickedStops(lang: Lang, full: seq<Chunk>, n: nat, m: nat)
    requires 1 <= n <= m <= |full| && (|Picked(lang, full, n)| == 1 + MaxErrors || n == m)
    ensures Picked(lang, full, m) == Picked(lang, full, n)
    decreases m - n
  {
    if n < m {
      PickedStops(lang, full, n, m - 1);
    }
  }

  function Blank(lang: Lang, text: string): bool {
    forall k :: 0 <= k < |text| ==> lang.space(text[k])
  }

  function ChunkMessage(lang: Lang, policy: Policy, store: nat, role: Role, text: string): seq<Chunk> {
    var full := FullChunks(lang, store, text);
    if Blank(lang, text) then []
    else if policy == ConversationalOnly then (if role == Conversational then full else [])
    else if policy == Heads then
      (match role case Conversational => full case ToolResult => Picked(lang, full, |full|) case OtherRole => [])
    else if lang.count(text) > FullCap then Picked(lang, full, |full|) else full
  }

  /** Every emitted chunk is the full windowing's chunk at its own index: the head is window 0, an error chunk
      keeps its window's index, and the span it names is the text at that place. */
  lemma EmittedIsWindow(lang: Lang, policy: Policy, store: nat, role: Role, text: string, c: Chunk)
    requires c in ChunkMessage(lang, policy, store, role, text)
    ensures var full := FullChunks(lang, store, text); c.index < |full| && c == full[c.index]
    ensures c.start < c.end <= |text| && c.text == text[c.start..c.end]
  {
    var full := FullChunks(lang, store, text);
    assert full[..|full|] == full;
    var k :| 0 <= k < |full| && full[k] == c;
  }

  /** A chunk id names the same span whichever policy and role emitted it. */
  lemma IndexIsStable(lang: Lang, store: nat, text: string, p: Policy, q: Policy, r: Role, s: Role, c: Chunk, d: Chunk)
    requires c in ChunkMessage(lang, p, store, r, text) && d in ChunkMessage(lang, q, store, s, text)
      && c.index == d.index
    ensures c == d
  {
    EmittedIsWindow(lang, p, store, r, text, c);
    EmittedIsWindow(lang, q, store, s, text, d);
  }

  /** How many error windows lie after the head and before `n`. */
  function ErrorsBefore(lang: Lang, full: seq<Chunk>, n: nat): nat
    requires n <= |full|
  {
    if n <= 1 then 0 else ErrorsBefore(lang, full, n - 1) + if lang.error(full[n - 1].text) then 1 else 0
  }

  function Min(a: nat, b: nat): nat {
    if a < b then a else b
  }

  predicate Selected(lang: Lang, full: seq<Chunk>, k: nat)
    requires k < |full|
  {
    k == 0 || (lang.error(full[k].text) && ErrorsBefore(lang, full, k) < MaxErrors)
  }

  lemma {:induction false} PickedLength(lang: Lang, full: seq<Chunk>, n: nat)
    requires n <= |full|
    ensures |Picked(lang, full, n)| == if n == 0 then 0 else 1 + Min(MaxErrors, ErrorsBefore(lang, full, n))
  {
    if n > 0 {
      PickedLength(lang, full, n - 1);
    }
  }

  lemma PickedNext(lang: Lang, full: seq<Chunk>, n: nat)
    requires 0 < n <= |full|
    ensures Picked(lang, full, n) == Picked(lang, full, n - 1)
      + if Selected(lang, full, n - 1) then [full[n - 1]] else []
  {
    PickedLength(lang, full, n - 1);
  }

  /** The selection holds exactly the head and the error windows with fewer than three before them, in window order. */
  lemma {:induction false} PickedExactly(lang: Lang, full: seq<Chunk>, n: nat)
    requires n <= |full| && (forall k :: 0 <= k < |full| ==> full[k].index == k)
    ensures forall k :: 0 <= k < n ==> (full[k] in Picked(lang, full, n) <==> Selected(lang, full, k))
    ensures forall a, b :: 0 <= a < b < |Picked(lang, full, n)| ==>
      Picked(lang, full, n)[a].index < Picked(lang, full, n)[b].index
    ensures forall c :: c in Picked(lang, full, n) ==> c.index < n
  {
    if n > 0 {
      PickedExactly(lang, full, n - 1);
      PickedNext(lang, full, n);
    }
  }

  // ---- rebuilding --------------------------------------------------------

  datatype Message = Message(role: Role, text: string)

  /** The chunk list of a message, looked up in or added to the caller's cache. */
  ghost predicate CacheFits(lang: Lang, policy: Policy, messages: map<nat, Message>, cache: map<nat, seq<Chunk>>) {
    forall id :: id in cache ==>
      id in messages && cache[id] == ChunkMessage(lang, policy, id, messages[id].role, messages[id].text)
  }

  function Digit(d: nat): char
    requires d < 10
  {
    '0' + d as char
  }

  predicate IsDigit(c: char) {
    '0' <= c <= '9'
  }

  function Decimal(n: nat): (s: string)
    ensures s != [] && (forall k :: 0 <= k < |s| ==> IsDigit(s[k]))
  {
    if n < 10 then [Digit(n)] else Decimal(n / 10) + [Digit(n % 10)]
  }

  function DigitOf(c: char): (d: Option<nat>)
    ensures d.Some? ==> d.value < 10
    ensures d.Some? <==> IsDigit(c)
  {
    if IsDigit(c) then Some(c as int - '0' as int) else None
  }

  function Number(s: string): Option<nat> {
    if s == [] then None
    else
      var last := DigitOf(s[|s| - 1]);
      if |s| == 1 then last
      else
        var front := Number(s[..|s| - 1]);
        if front.None? || last.None? then None else Some(10 * front.value + last.value)
  }

  lemma {:induction false} NumberReads(n: nat)
    ensures Number(Decimal(n)) == Some(n)
  {
    DigitReads(n % 10);
    if n >= 10 {
      NumberReads(n / 10);
      NumberAppend(Decimal(n / 10), Digit(n % 10));
    }
  }

  lemma NumberAppend(front: string, last: char)
    requires Number(front).Some? && DigitOf(last).Some?
    ensures Number(front + [last]) == Some(10 * Number(front).value + DigitOf(last).value)
  {
    assert (front + [last])[..|front|] == front;
  }

  lemma DigitReads(d: nat)
    requires d < 10
    ensures DigitOf(Digit(d)) == Some(d)
  {
  }

  function ChunkId(store: nat, index: nat): string {
    Decimal(store) + ":" + Decimal(index)
  }

  function ColonAt(s: string, i: nat): Option<nat>
    requires i <= |s|
    decreases |s| - i
  {
    if i == |s| then None else if s[i] == ':' then Some(i) else ColonAt(s, i + 1)
  }

  lemma {:induction false} FirstColon(s: string, i: nat, at: nat)
    requires i <= at < |s| && s[at] == ':' && (forall k :: i <= k < at ==> s[k] != ':')
    ensures ColonAt(s, i) == Some(at)
    decreases at - i
  {
    if i < at {
      FirstColon(s, i + 1, at);
    }
  }

  /** Split at the first colon, both halves decimal numbers. */
  function ParseId(id: string): Option<(nat, nat)> {
    var at := ColonAt(id, 0);
    if at.None? || at.value >= |id| then None
    else
      var store, index := Number(id[..at.value]), Number(id[at.value + 1..]);
      if store.None? || index.None? then None else Some((store.value, index.value))
  }

  lemma IdRoundTrip(store: nat, index: nat)
    ensures ParseId(ChunkId(store, index)) == Some((store, index))
  {
    var id, n := ChunkId(store, index), |Decimal(store)|;
    assert id[..n] == Decimal(store) && id[n] == ':' && id[n + 1..] == Decimal(index);
    forall k | 0 <= k < n ensures id[k] != ':' {
      assert IsDigit(Decimal(store)[k]);
    }
    FirstColon(id, 0, n);
    NumberReads(store);
    NumberReads(index);
  }

  method FindIndex(chunks: seq<Chunk>, index: nat) returns (found: Option<Chunk>)
    ensures found.Some? ==> found.value in chunks && found.value.index == index
    ensures found.None? ==> forall c :: c in chunks ==> c.index != index
  {
    for k := 0 to |chunks|
      invariant forall l :: 0 <= l < k ==> chunks[l].index != index
    {
      if chunks[k].index == index {
        return Some(chunks[k]);
      }
    }
    return None;
  }

  /** A chunk looked up by id: from the cache, or by chunking its message again. */
  method Rebuild(lang: Lang, policy: Policy, messages: map<nat, Message>, id: string, cache: map<nat, seq<Chunk>>)
    returns (found: Option<Chunk>, cache': map<nat, seq<Chunk>>)
    requires CacheFits(lang, policy, messages, cache)
    ensures CacheFits(lang, policy, messages, cache')
    ensures found.Some? ==> Emitted(lang, policy, messages, id, found.value)
    ensures found.None? ==> forall c :: !Emitted(lang, policy, messages, id, c)
  {
    found, cache' := None, cache;
    var key := ParseId(id);
    if key.None? || key.value.0 !in messages {
      return;
    }
    var (store, index) := key.value;
    if store !in cache {
      cache' := cache[store := ChunkMessage(lang, policy, store, messages[store].role, messages[store].text)];
    }
    found := FindIndex(cache'[store], index);
  }

  ghost predicate Emitted(lang: Lang, policy: Policy, messages: map<nat, Message>, id: string, c: Chunk) {
    var key := ParseId(id);
    && key.Some? && key.value.0 in messages && c.index == key.value.1
    && c in ChunkMessage(lang, policy, key.value.0, messages[key.value.0].role, messages[key.value.0].text)
  }

  /** Rebuilding any emitted chunk from its id gives back exactly that chunk: its text and its span. */
  method RebuildEmitted(lang: Lang, policy: Policy, messages: map<nat, Message>, store: nat, c: Chunk)
    returns (found: Option<Chunk>)
    requires store in messages && c in ChunkMessage(lang, policy, store, messages[store].role, messages[store].text)
    ensures found == Some(c)
  {
    IdRoundTrip(store, c.index);
    ghost var emitted := Emitted(lang, policy, messages, ChunkId(store, c.index), c);
    assert emitted;
    var cache;
    found, cache := Rebuild(lang, policy, messages, ChunkId(store, c.index), map[]);
    IndexIsStable(lang, store, messages[store].text, policy, policy, messages[store].role, messages[store].role, c,
      found.value);
  }
}
