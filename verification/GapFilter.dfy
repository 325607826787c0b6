/**
  Which messages the gap scan's query lists and which the chunker cuts.  The query trims only spaces and lowers
  only ASCII; the chunker strips all white space.
 */
module GapFilter {
  datatype Message = Message(role: string, content: string)

  predicate Space(c: char) {
    c == ' '
  }

  /** White space as the chunker strips it. */
  predicate White(c: char) {
    || c == ' ' || '\t' <= c <= '\r' || '\U{1c}' <= c <= '\U{1f}' || c == '\U{85}' || c == '\U{a0}'
    || c == '\U{1680}' || '\U{2000}' <= c <= '\U{200a}' || c == '\U{2028}' || c == '\U{2029}' || c == '\U{202f}'
    || c == '\U{205f}' || c == '\U{3000}'
  }

  function TrimLeft(s: string, cut: char -> bool): string {
    if s != "" && cut(s[0]) then TrimLeft(s[1..], cut) else s
  }

  function TrimRight(s: string, cut: char -> bool): string {
    if s != "" && cut(s[|s| - 1]) then TrimRight(s[..|s| - 1], cut) else s
  }

  /** The query's `trim`. */
  function Trim(s: string): string {
    TrimRight(TrimLeft(s, Space), Space)
  }

  /** The chunker's `strip`. */
  function Strip(s: string): string {
    TrimRight(TrimLeft(s, White), White)
  }

  function LowerChar(c: char): char {
    if 'A' <= c <= 'Z' then 'a' + (c - 'A') else c
  }

  function Lower(s: string): (lower: string)
    ensures |lower| == |s|
  {
    seq(|s|, i requires 0 <= i < |s| => LowerChar(s[i]))
  }

  function Roles(policy: string): set<string> {
    if policy == "heads" then {"assistant", "user", "tool"} else {"assistant", "user"}
  }

  /** The row filter of the scan's query. */
  predicate Listed(policy: string, m: Message) {
    Lower(Trim(m.role)) in Roles(policy) && Trim(m.content) != ""
  }

  /** The chunker's own test; under `full`, which the scan never serves, it takes every role. */
  predicate Chunkable(policy: string, m: Message) {
    Strip(m.content) != "" && (policy == "full" || Lower(Strip(m.role)) in Roles(policy))
  }

  /** A turn that every policy lists and chunks. */
  const Plain: Message := Message("user", "hi")

  lemma PlainListed(policy: string)
    ensures Listed(policy, Plain) && Chunkable(policy, Plain)
  {
    assert Trim("user") == "user" && Lower("user") == "user" && Strip("user") == "user";
    assert Trim("hi") == "hi" && Strip("hi") == "hi";
  }

  /** The text begins or ends with white space. */
  predicate OuterWhite(s: string) {
    s != "" && (White(s[0]) || White(s[|s| - 1]))
  }

  // ---- the two kinds of trimming -----------------------------------------

  lemma {:induction false} LeftSpaces(s: string)
    ensures TrimLeft(TrimLeft(s, Space), White) == TrimLeft(s, White)
  {
    if s != "" && Space(s[0]) {
      LeftSpaces(s[1..]);
    }
  }

  /** Trailing spaces do not matter to what white space is cut on the left, unless nothing else is left. */
  lemma {:induction false} LeftThenRight(s: string)
    ensures TrimRight(TrimLeft(TrimRight(s, Space), White), White) == TrimRight(TrimLeft(s, White), White)
    decreases |s|
  {
    if s != "" && Space(s[|s| - 1]) {
      var front := s[..|s| - 1];
      LeftThenRight(front);
      LeftAppend(front, ' ');
      assert s == front + " ";
    }
  }

  /** One more white character on the right of a text. */
  lemma {:induction false} LeftAppend(s: string, c: char)
    requires White(c)
    ensures TrimRight(TrimLeft(s + [c], White), White) == TrimRight(TrimLeft(s, White), White)
  {
    if s != "" && White(s[0]) {
      assert (s + [c])[1..] == s[1..] + [c];
      LeftAppend(s[1..], c);
    } else if s == "" {
      assert (s + [c])[1..] == "";
    } else {
      assert (s + [c])[..|s|] == s;
    }
  }

  /** Stripping sees no difference between a text and the same text without its outer spaces. */
  lemma StripTrim(s: string)
    ensures Strip(Trim(s)) == Strip(s)
  {
    LeftThenRight(TrimLeft(s, Space));
    LeftSpaces(s);
  }

  lemma CleanStrip(s: string)
    requires !OuterWhite(s)
    ensures Strip(s) == s
  {
  }

  /** A text with something but white space keeps something when only its spaces are trimmed. */
  lemma NotBlank(s: string)
    requires Strip(s) != ""
    ensures Trim(s) != ""
  {
    StripTrim(s);
  }

  lemma RolesClean(policy: string, role: string)
    requires OuterWhite(role)
    ensures Lower(role) !in Roles(policy)
  {
    assert White(Lower(role)[0]) || White(Lower(role)[|role| - 1]);
    forall word | word in Roles(policy) ensures !OuterWhite(word) {
    }
  }

  /** A message is cut but never listed exactly when its role, without its outer spaces, still begins or ends with
      white space. */
  lemma MissedExactly(policy: string, m: Message)
    requires policy != "full"
    ensures Chunkable(policy, m) && !Listed(policy, m) <==> Chunkable(policy, m) && OuterWhite(Trim(m.role))
  {
    if Chunkable(policy, m) {
      NotBlank(m.content);
      StripTrim(m.role);
      if OuterWhite(Trim(m.role)) {
        RolesClean(policy, Trim(m.role));
      } else {
        CleanStrip(Trim(m.role));
      }
    }
  }

  // ---- edits -------------------------------------------------------------

  /** A message the scan must see chunked. */
  predicate Needful(policy: string, m: Message) {
    Listed(policy, m) && Chunkable(policy, m)
  }

  /** Nothing but the six characters that the edit trigger trims. */
  predicate Blank(s: string) {
    forall i :: 0 <= i < |s| ==> s[i] == ' ' || '\t' <= s[i] <= '\r'
  }

  /** The trigger on messages fires for this edit. */
  predicate Hears(was: Message, now: Message) {
    var old', new' := Lower(Trim(was.role)), Lower(Trim(now.role));
    || old' in {"user", "assistant"} || new' in {"user", "assistant"}
    || (was.role != now.role && (old' == "tool" || new' == "tool"))
    || (old' == "tool" && new' == "tool" && Blank(was.content) != Blank(now.content))
  }

  /** The text of a tool row, blank to the chunker, is replaced by one that is not, and the trigger sees no change. */
  predicate Unheard(was: Message, now: Message) {
    !Hears(was, now) && Lower(Trim(now.role)) == "tool" && Strip(was.content) == "" && Strip(now.content) != ""
  }

  lemma {:induction false} BlankStrips(s: string)
    requires Blank(s)
    ensures Strip(s) == ""
  {
    if s != "" {
      BlankStrips(s[1..]);
    }
  }

  /** An edit the trigger does not hear makes a message needful exactly when it is such a replacement, under heads. */
  lemma UnheardExactly(policy: string, was: Message, now: Message)
    requires !Hears(was, now)
    ensures !Needful(policy, was) && Needful(policy, now) <==> policy == "heads" && Unheard(was, now)
  {
    if Lower(Trim(now.role)) == "tool" {
      if OuterWhite(Trim(now.role)) {
        RolesClean("heads", Trim(now.role));
      }
      StripTrim(now.role);
      CleanStrip(Trim(now.role));
      if Strip(now.content) != "" {
        NotBlank(now.content);
        if Blank(now.content) {
          BlankStrips(now.content);
        }
        if Strip(was.content) != "" {
          NotBlank(was.content);
        }
      }
    }
  }

  /** Such an edit: a no-break space becomes a letter. */
  lemma UnheardEdit()
    ensures var was, now := Message("tool", "\U{a0}"), Message("tool", "x");
      !Hears(was, now) && !Needful("heads", was) && Needful("heads", now)
  {
    var was, now := Message("tool", "\U{a0}"), Message("tool", "x");
    assert Trim("tool") == "tool" && Lower("tool") == "tool";
    assert White(was.content[0]) && was.content[1..] == "";
    assert Strip(was.content) == "" && Strip("x") == "x";
    assert !Blank(was.content) && !Blank(now.content) by {
      assert was.content[0] == '\U{a0}' && now.content[0] == 'x';
    }
    UnheardExactly("heads", was, now);
  }
}
