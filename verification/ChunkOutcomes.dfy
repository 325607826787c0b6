/** Where sentences end, how the windows follow from them, and which windows of a message are emitted. */
module ChunkOutcomes {
  import opened Wrappers
  import opened Chunking

  // ---- where sentences end -----------------------------------------------

  /** Newlines are white space, and stops are not. */
  ghost predicate Usual(lang: Lang) {
    lang.space('\n') && !lang.space('.') && !lang.space('!') && !lang.space('?')
  }

  /** Only white space lies between a stop and this place. */
  ghost predicate Stopped(lang: Lang, text: string, b: nat)
    requires b <= |text|
  {
    exists j: nat :: j < b && text[j] in {'.', '!', '?'} && forall k :: j < k < b ==> lang.space(text[k])
  }

  /** A sentence must end here: at the end of all white space after a stop, or, where no stop came before the white
      space, at the end of a run of newlines. */
  ghost predicate MustEnd(lang: Lang, text: string, b: nat) {
    0 < b < |text|
    && (|| (Stopped(lang, text, b) && lang.space(text[b - 1]) && !lang.space(text[b]))
        || (!Stopped(lang, text, b) && text[b - 1] == '\n' && text[b] != '\n'))
  }

  ghost predicate EndsAt(spans: seq<Span>, b: nat) {
    exists k :: 0 <= k < |spans| && spans[k].1 == b
  }

  lemma EndsFirst(first: Span, rest: seq<Span>, b: nat)
    ensures EndsAt([first] + rest, b) <==> b == first.1 || EndsAt(rest, b)
  {
    var spans := [first] + rest;
    assert spans[0].1 == first.1;
    if EndsAt(rest, b) {
      var k :| 0 <= k < |rest| && rest[k].1 == b;
      assert spans[k + 1].1 == b;
    }
  }

  /** The scan stands where no stop waits for more white space. */
  ghost predicate Clear(lang: Lang, text: string, i: nat) {
    i <= |text| && (i < |text| && lang.space(text[i]) ==> !Stopped(lang, text, i))
  }

  lemma NoneWithin(lang: Lang, text: string, i: nat, j: nat)
    requires Usual(lang) && i < j <= |text|
    requires (forall k :: i <= k < j ==> Stop(text[k])) || (forall k :: i <= k < j ==> text[k] == '\n')
    ensures forall b :: i < b < j ==> !MustEnd(lang, text, b)
  {
  }

  lemma {:induction false} ScanEnds(lang: Lang, text: string, start: nat, i: nat, b: nat)
    requires Usual(lang) && start <= i <= |text| && Clear(lang, text, i)
    ensures EndsAt(Scan(lang, text, start, i), b) <==>
      (b == |text| && start < |text|) || (i < b && MustEnd(lang, text, b))
    decreases |text| - i
  {
    if i == |text| {
      if start < |text| {
        assert Scan(lang, text, start, i)[0].1 == |text|;
      }
    } else if Stop(text[i]) {
      var j := RunEnd(text, Stop, i + 1);
      if j == |text| || lang.space(text[j]) {
        var end := RunEnd(text, lang.space, j);
        ScanEnds(lang, text, end, end, b);
        EndsFirst((start, end), Scan(lang, text, end, end), b);
        StopRun(lang, text, i, j, end, b);
      } else {
        ScanEnds(lang, text, start, j, b);
        NoneWithin(lang, text, i, j);
      }
    } else if text[i] == '\n' {
      var j := RunEnd(text, c => c == '\n', i + 1);
      NewlineRun(lang, text, i, j, b);
      ScanEnds(lang, text, j, j, b);
      EndsFirst((start, j), Scan(lang, text, j, j), b);
    } else {
      StepClear(lang, text, i);
      ScanEnds(lang, text, start, i + 1, b);
    }
  }

  lemma StopRun(lang: Lang, text: string, i: nat, j: nat, end: nat, b: nat)
    requires Usual(lang) && i < j <= end <= |text| && (forall k :: i <= k < j ==> Stop(text[k]))
    requires forall k :: j <= k < end ==> lang.space(text[k])
    requires end < |text| ==> j < end && !lang.space(text[end])
    ensures i < b <= end ==> (MustEnd(lang, text, b) <==> b == end && end < |text|)
  {
    if j <= b <= end {
      assert Stop(text[j - 1]) && forall k :: j - 1 < k < b ==> lang.space(text[k]);
      assert Stopped(lang, text, b);
    }
    if i < b < j {
      NoneWithin(lang, text, i, j);
    }
  }

  lemma NewlineRun(lang: Lang, text: string, i: nat, j: nat, b: nat)
    requires Usual(lang) && Clear(lang, text, i) && i < j <= |text| && (forall k :: i <= k < j ==> text[k] == '\n')
    requires j < |text| ==> text[j] != '\n'
    ensures Clear(lang, text, j)
    ensures i < b <= j ==> (MustEnd(lang, text, b) <==> b == j && j < |text|)
  {
    assert !Stopped(lang, text, i);
    forall c: nat | i <= c <= j ensures !Stopped(lang, text, c) {
      forall m: nat | m < c && text[m] in {'.', '!', '?'} ensures exists k :: m < k < c && !lang.space(text[k]) {
        assert m < i;
        var k :| m < k < i && !lang.space(text[k]);
      }
    }
  }

  lemma StepClear(lang: Lang, text: string, i: nat)
    requires Usual(lang) && Clear(lang, text, i) && i < |text| && !Stop(text[i]) && text[i] != '\n'
    ensures Clear(lang, text, i + 1) && !MustEnd(lang, text, i + 1)
  {
    if Stopped(lang, text, i + 1) {
      var m: nat :| m < i + 1 && text[m] in {'.', '!', '?'} && forall k :: m < k < i + 1 ==> lang.space(text[k]);
      assert m < i && lang.space(text[i]);
      assert Stopped(lang, text, i);
    }
  }

  /** Sentences end exactly there, and at the end of the text. */
  lemma SentenceEndsExactly(lang: Lang, text: string, b: nat)
    requires Usual(lang)
    ensures EndsAt(Sentences(lang, text), b) <==> (b == |text| && text != []) || MustEnd(lang, text, b)
  {
    ScanEnds(lang, text, 0, 0, b);
  }

  // ---- windows and emitted chunks ----------------------------------------

  /** Tokens of the sentences from the first up to the end of a window. */
  function TokensOf(lang: Lang, text: string, sentences: seq<Span>, w: Span): nat
    requires w.0 <= w.1 <= |sentences|
    requires forall k :: 0 <= k < |sentences| ==> sentences[k].0 <= sentences[k].1 <= |text|
    decreases w.1 - w.0
  {
    if w.0 == w.1 then 0
    else TokensOf(lang, text, sentences, (w.0, w.1 - 1))
         + lang.count(text[sentences[w.1 - 1].0..sentences[w.1 - 1].1])
  }

  lemma {:induction false} SumIsTokens(lang: Lang, text: string, sentences: seq<Span>, w: Span)
    requires w.0 <= w.1 <= |sentences|
    requires forall k :: 0 <= k < |sentences| ==> sentences[k].0 <= sentences[k].1 <= |text|
    ensures Sum(Counts(lang, text, sentences), w.0, w.1) == TokensOf(lang, text, sentences, w)
    decreases w.1 - w.0
  {
    if w.0 < w.1 {
      SumIsTokens(lang, text, sentences, (w.0, w.1 - 1));
    }
  }

  /** Windows over the sentences: from the first to the last, each of one sentence or of at most six hundred tokens,
      none that could have taken the next sentence too, and each beginning with the last sentence of a longer one
      before. */
  ghost predicate WindowsOver(lang: Lang, text: string, sentences: seq<Span>, parts: seq<Span>)
    requires forall k :: 0 <= k < |sentences| ==> sentences[k].0 <= sentences[k].1 <= |text|
  {
    && parts != [] && parts[0].0 == 0 && parts[|parts| - 1].1 == |sentences|
    && (forall k :: 0 <= k < |parts| ==>
          && parts[k].0 < parts[k].1 <= |sentences|
          && (parts[k].1 - parts[k].0 == 1 || TokensOf(lang, text, sentences, parts[k]) <= 600)
          && (parts[k].1 < |sentences| ==> TokensOf(lang, text, sentences, (parts[k].0, parts[k].1 + 1)) > 600))
    && (forall k :: 0 < k < |parts| ==>
          parts[k].0 == if parts[k - 1].1 - parts[k - 1].0 == 1 then parts[k - 1].1 else parts[k - 1].1 - 1)
  }

  lemma PartsOver(lang: Lang, text: string, sentences: seq<Span>)
    requires sentences != [] && forall k :: 0 <= k < |sentences| ==> sentences[k].0 <= sentences[k].1 <= |text|
    ensures WindowsOver(lang, text, sentences, Parts(Counts(lang, text, sentences), 0))
  {
    var tokens := Counts(lang, text, sentences);
    var parts := Parts(tokens, 0);
    PartsWindowed(tokens, 0);
    forall k | 0 <= k < |parts|
      ensures parts[k].0 < parts[k].1 <= |sentences|
      ensures parts[k].1 - parts[k].0 == 1 || TokensOf(lang, text, sentences, parts[k]) <= 600
      ensures parts[k].1 < |sentences| ==> TokensOf(lang, text, sentences, (parts[k].0, parts[k].1 + 1)) > 600
    {
      assert Filled(tokens, parts[k]);
      SumIsTokens(lang, text, sentences, parts[k]);
    }
    forall k | 0 < k < |parts|
      ensures parts[k].0 == if parts[k - 1].1 - parts[k - 1].0 == 1 then parts[k - 1].1 else parts[k - 1].1 - 1
    {
      assert Filled(tokens, parts[k - 1]) && Follows(parts[k - 1], parts[k]);
    }
  }

  /** The spans of windows over sentences. */
  ghost predicate Spanned(sentences: seq<Span>, parts: seq<Span>, windows: seq<Span>) {
    && |parts| == |windows|
    && forall k :: 0 <= k < |parts| ==>
         && parts[k].0 < parts[k].1 <= |sentences|
         && windows[k] == (sentences[parts[k].0].0, sentences[parts[k].1 - 1].1)
  }

  /** A text of at most six hundred tokens is one window; a longer one has such windows over its sentences. */
  lemma WindowsOutcome(lang: Lang, text: string)
    ensures text == [] ==> Windows(lang, text) == []
    ensures text != [] && lang.count(text) <= 600 ==> Windows(lang, text) == [(0, |text|)]
    ensures forall k :: 0 <= k < |Sentences(lang, text)| ==>
      Sentences(lang, text)[k].0 <= Sentences(lang, text)[k].1 <= |text|
    ensures text != [] && lang.count(text) > 600 ==>
      exists parts :: WindowsOver(lang, text, Sentences(lang, text), parts)
                      && Spanned(Sentences(lang, text), parts, Windows(lang, text))
  {
    SentencesTile(lang, text);
    SentenceBounds(lang, text);
    if text != [] && lang.count(text) > 600 {
      var sentences := Sentences(lang, text);
      PartsOver(lang, text, sentences);
      var parts := Parts(Counts(lang, text, sentences), 0);
      assert Spanned(sentences, parts, Windows(lang, text));
    }
  }

  /** The chunk is the window at its index: its place, its text and its token count. */
  predicate IsWindowChunk(lang: Lang, store: nat, text: string, c: Chunk) {
    && c.index < |Windows(lang, text)| && (c.start, c.end) == Windows(lang, text)[c.index] && c.store == store
    && c.start <= c.end <= |text| && c.text == text[c.start..c.end] && c.tokens == lang.count(c.text)
  }

  lemma FullOutcome(lang: Lang, store: nat, text: string, c: Chunk)
    ensures c in FullChunks(lang, store, text) <==> IsWindowChunk(lang, store, text, c)
  {
    var full, windows := FullChunks(lang, store, text), Windows(lang, text);
    WindowBounds(lang, text);
    if c.index < |full| {
      assert full[c.index] == MakeChunk(lang, store, c.index, text, windows[c.index]);
    }
    assert c in full ==> c.index < |full| && c == full[c.index];
  }

  lemma PickedOutcome(lang: Lang, store: nat, text: string, c: Chunk)
    ensures var full := FullChunks(lang, store, text);
      c in Picked(lang, full, |full|) <==> c in full && Head(lang, text, c.index)
  {
    var full := FullChunks(lang, store, text);
    PickedExactly(lang, full, |full|);
    PickedIn(lang, full, |full|);
    if c in full {
      assert c == full[c.index];
      HeadOutcome(lang, store, text, c.index);
    }
  }

  lemma {:induction false} PickedIn(lang: Lang, full: seq<Chunk>, n: nat)
    requires n <= |full|
    ensures forall c :: c in Picked(lang, full, n) ==> c in full
  {
    if n > 0 {
      PickedIn(lang, full, n - 1);
    }
  }

  lemma HeadOutcome(lang: Lang, store: nat, text: string, k: nat)
    requires k < |FullChunks(lang, store, text)|
    ensures Selected(lang, FullChunks(lang, store, text), k) <==> Head(lang, text, k)
  {
    WindowBounds(lang, text);
    ErrorsAre(lang, store, text, k);
    var full := FullChunks(lang, store, text);
    assert full[k] == MakeChunk(lang, store, k, text, Windows(lang, text)[k]);
  }

  /** Which windows of a message become chunks: of user and assistant messages all, under each policy but a full one for
      giant messages; of tool results under heads, and of giant messages under full, the head and the first three
      windows with an error; otherwise none, and none of a blank text. */
  lemma ChunkOutcome(lang: Lang, policy: Policy, store: nat, role: Role, text: string, c: Chunk)
    ensures c in ChunkMessage(lang, policy, store, role, text) <==>
      && (exists i :: 0 <= i < |text| && !lang.space(text[i])) && IsWindowChunk(lang, store, text, c)
      && match policy
         case ConversationalOnly => role == Conversational
         case Heads => role == Conversational || (role == ToolResult && Head(lang, text, c.index))
         case Full => lang.count(text) <= 32000 || Head(lang, text, c.index)
  {
    FullOutcome(lang, store, text, c);
    PickedOutcome(lang, store, text, c);
  }

  /** Windows after the head and before this one in which an error shows. */
  ghost function ErrorWindows(lang: Lang, text: string, k: nat): set<nat> {
    set i: nat | 1 <= i < k && i < |Windows(lang, text)| && ShowsError(lang, text, Windows(lang, text)[i])
  }

  predicate ShowsError(lang: Lang, text: string, w: Span) {
    w.0 <= w.1 <= |text| && lang.error(text[w.0..w.1])
  }

  /** The window is the first, or shows an error and fewer than three before it do. */
  ghost predicate Head(lang: Lang, text: string, k: nat) {
    || k == 0
    || (k < |Windows(lang, text)| && ShowsError(lang, text, Windows(lang, text)[k])
         && |ErrorWindows(lang, text, k)| < 3)
  }

  lemma {:induction false} ErrorsAre(lang: Lang, store: nat, text: string, k: nat)
    requires k <= |Windows(lang, text)|
    ensures ErrorsBefore(lang, FullChunks(lang, store, text), k) == |ErrorWindows(lang, text, k)|
  {
    var full := FullChunks(lang, store, text);
    WindowBounds(lang, text);
    if k > 1 {
      ErrorsAre(lang, store, text, k - 1);
      var before := ErrorWindows(lang, text, k - 1);
      assert ErrorWindows(lang, text, k) ==
        if ShowsError(lang, text, Windows(lang, text)[k - 1]) then before + {k - 1} else before;
      assert full[k - 1] == MakeChunk(lang, store, k - 1, text, Windows(lang, text)[k - 1]);
    } else {
      assert ErrorWindows(lang, text, k) == {};
    }
  }
}
