/**
 * The two markdown code-fence strippers of the application.
 *
 * `ChatController.stripCodeFences` matches the trimmed reply against the
 * regular expression ^```(?:\w+)?\s*([\s\S]*?)\s*```$ (DOTALL) and keeps
 * group 1, trimmed. The regex is not interpreted generally: `EngineMatch`
 * spells out the split a backtracking engine settles on for this one
 * pattern (greedy tag, greedy spaces, then the shortest group), and
 * `IsFenced` says when a split exists at all.
 *
 * `OpenAiChatServiceImpl.stripCodeFences` is a different, index-based
 * stripper that drops a leading "json" tag only, and throws on the short
 * inputs its `substring` cannot cut.
 */
module CodeFences {
  import opened Wrappers
  import opened JavaStrings

  const Fence: string := "```"

  /** `\w` without UNICODE_CHARACTER_CLASS: [a-zA-Z_0-9]. */
  predicate IsWordChar(c: char) {
    ('a' <= c <= 'z') || ('A' <= c <= 'Z') || ('0' <= c <= '9') || c == '_'
  }

  /** `\s` without UNICODE_CHARACTER_CLASS: [ \t\n\x0B\f\r]. */
  predicate IsRegexSpace(c: char) {
    c == ' ' || c == '\t' || c == '\n' || c as int == 11 || c as int == 12 || c == '\r'
  }

  predicate AllWord(s: string) {
    forall i :: 0 <= i < |s| ==> IsWordChar(s[i])
  }

  predicate AllSpace(s: string) {
    forall i :: 0 <= i < |s| ==> IsRegexSpace(s[i])
  }

  /** Every regex space is a character `trim()` removes. */
  lemma SpacesAreTrimChars(s: string)
    requires AllSpace(s)
    ensures AllTrimChars(s)
  {
    assert forall i :: 0 <= i < |s| ==> IsRegexSpace(s[i]) && IsTrimChar(s[i]);
  }

  /** Length of the longest run of word characters in `t[i..end]`. */
  function WordRun(t: string, i: nat, end: nat): (n: nat)
    requires i <= end <= |t|
    ensures i + n <= end
    ensures AllWord(t[i..i + n])
    ensures i + n < end ==> !IsWordChar(t[i + n])
    decreases end - i
  {
    if i < end && IsWordChar(t[i]) then
      var rest := WordRun(t, i + 1, end);
      assert t[i..i + 1 + rest] == [t[i]] + t[i + 1..i + 1 + rest];
      rest + 1
    else 0
  }

  /** Length of the longest run of regex spaces in `t[i..end]`. */
  function SpaceRun(t: string, i: nat, end: nat): (n: nat)
    requires i <= end <= |t|
    ensures i + n <= end
    ensures AllSpace(t[i..i + n])
    ensures i + n < end ==> !IsRegexSpace(t[i + n])
    decreases end - i
  {
    if i < end && IsRegexSpace(t[i]) then
      var rest := SpaceRun(t, i + 1, end);
      assert t[i..i + 1 + rest] == [t[i]] + t[i + 1..i + 1 + rest];
      rest + 1
    else 0
  }

  /** Length of the longest run of regex spaces ending at `end` and starting no earlier than `start`. */
  function TrailingSpaceRun(t: string, start: nat, end: nat): (n: nat)
    requires start <= end <= |t|
    ensures start <= end - n
    ensures AllSpace(t[end - n..end])
    ensures start < end - n ==> !IsRegexSpace(t[end - n - 1])
    decreases end - start
  {
    if start < end && IsRegexSpace(t[end - 1]) then
      var rest := TrailingSpaceRun(t, start, end - 1);
      assert t[end - 1 - rest..end] == t[end - 1 - rest..end - 1] + [t[end - 1]];
      rest + 1
    else 0
  }

  /**
   * The pattern can match a trimmed text exactly when the text is at least
   * two fences long and starts and ends with one (the fences cannot share
   * backticks, and nothing else in the pattern is mandatory).
   */
  predicate IsFenced(t: string) {
    |t| >= 6 && OpensFence(t) && ClosesFence(t)
  }

  /** `startsWith("```")`, character by character. */
  predicate OpensFence(t: string) {
    |t| >= 3 && t[0] == '`' && t[1] == '`' && t[2] == '`'
  }

  /** `endsWith("```")`, character by character. */
  predicate ClosesFence(t: string) {
    |t| >= 3 && t[|t| - 3] == '`' && t[|t| - 2] == '`' && t[|t| - 1] == '`'
  }

  lemma FenceTests(t: string)
    ensures OpensFence(t) <==> StartsWith(t, Fence)
    ensures ClosesFence(t) <==> EndsWith(t, Fence)
  {
    if |t| >= 3 {
      assert t[..3][0] == t[0] && t[..3][1] == t[1] && t[..3][2] == t[2];
      var e := |t| - 3;
      assert t[e..][0] == t[e] && t[e..][1] == t[e + 1] && t[e..][2] == t[e + 2];
    }
  }

  /**
   * One way the pattern can match a text, given as the cut points a
   * `java.util.regex.Matcher` reports: the tag is `t[3..tagEnd]`, group 1 is
   * `t[groupStart..groupEnd]`, and what lies between is spaces.
   */
  datatype FenceMatch = FenceMatch(tagEnd: nat, groupStart: nat, groupEnd: nat)

  /** `m` is a match of the whole pattern against `t`, ignoring which one the engine prefers. */
  predicate IsMatchOf(t: string, m: FenceMatch) {
    && OpensFence(t) && ClosesFence(t)
    && 3 <= m.tagEnd <= m.groupStart <= m.groupEnd <= |t| - 3
    && AllWord(t[3..m.tagEnd])
    && AllSpace(t[m.tagEnd..m.groupStart])
    && AllSpace(t[m.groupEnd..|t| - 3])
  }

  /**
   * The match the backtracking engine settles on: the tag is as long as
   * possible, then the leading spaces are, and then group 1 is as short as
   * possible, so it does not end in a space.
   */
  predicate IsEngineMatch(t: string, m: FenceMatch) {
    && IsMatchOf(t, m)
    && !IsWordChar(t[m.tagEnd])
    && !IsRegexSpace(t[m.groupStart])
    && (m.groupStart == m.groupEnd || !IsRegexSpace(t[m.groupEnd - 1]))
  }

  function Group(t: string, m: FenceMatch): string
    requires IsMatchOf(t, m)
  {
    t[m.groupStart..m.groupEnd]
  }

  /** The match `Matcher.matches()` finds: a fenced text always has one. */
  function EngineMatch(t: string): (m: FenceMatch)
    requires IsFenced(t)
    ensures IsEngineMatch(t, m)
  {
    var e := |t| - 3;
    assert t[e] == '`';
    var b := 3 + WordRun(t, 3, e);
    var c := b + SpaceRun(t, b, e);
    var d := e - TrailingSpaceRun(t, c, e);
    FenceMatch(b, c, d)
  }

  /** Only a fenced text has a match: the pattern begins and ends with a fence. */
  lemma MatchIsFenced(t: string, m: FenceMatch)
    requires IsMatchOf(t, m)
    ensures IsFenced(t)
  {
  }

  /** The engine's preferences leave exactly one match. */
  lemma EngineMatchUnique(t: string, m: FenceMatch)
    requires IsEngineMatch(t, m)
    ensures m == EngineMatch(t)
  {
    TagIsGreedy(t, m);
    LeadingSpacesAreGreedy(t, m);
    GroupIsLazy(t, m);
  }

  lemma TagIsGreedy(t: string, m: FenceMatch)
    requires IsEngineMatch(t, m)
    ensures m.tagEnd == 3 + WordRun(t, 3, |t| - 3)
  {
    WordRunExact(t, 3, |t| - 3, m.tagEnd);
  }

  lemma LeadingSpacesAreGreedy(t: string, m: FenceMatch)
    requires IsEngineMatch(t, m)
    ensures m.groupStart == m.tagEnd + SpaceRun(t, m.tagEnd, |t| - 3)
  {
    SpaceRunExact(t, m.tagEnd, |t| - 3, m.groupStart);
  }

  lemma GroupIsLazy(t: string, m: FenceMatch)
    requires IsEngineMatch(t, m)
    ensures m.groupEnd == |t| - 3 - TrailingSpaceRun(t, m.groupStart, |t| - 3)
  {
    TrailingSpaceRunExact(t, m.groupStart, |t| - 3, m.groupEnd);
  }

  /** Indexing into a slice is indexing into the sequence, shifted. */
  lemma SliceIndex(t: string, a: int, b: int, k: int)
    ensures 0 <= a <= b <= |t| && 0 <= k < b - a ==> t[a..b][k] == t[a + k]
  {
  }

  /** A run that is all word characters and cannot be extended is the greedy run. */
  lemma WordRunExact(t: string, i: nat, end: nat, j: nat)
    requires i <= j <= end <= |t|
    requires AllWord(t[i..j])
    requires j < end ==> !IsWordChar(t[j])
    ensures i + WordRun(t, i, end) == j
  {
    var r := WordRun(t, i, end);
    SliceIndex(t, i, j, r);
    SliceIndex(t, i, i + r, j - i);
  }

  lemma SpaceRunExact(t: string, i: nat, end: nat, j: nat)
    requires i <= j <= end <= |t|
    requires AllSpace(t[i..j])
    requires j < end ==> !IsRegexSpace(t[j])
    ensures i + SpaceRun(t, i, end) == j
  {
    var r := SpaceRun(t, i, end);
    SliceIndex(t, i, j, r);
    SliceIndex(t, i, i + r, j - i);
  }

  lemma TrailingSpaceRunExact(t: string, start: nat, end: nat, j: nat)
    requires start <= j <= end <= |t|
    requires AllSpace(t[j..end])
    requires start < j ==> !IsRegexSpace(t[j - 1])
    ensures end - TrailingSpaceRun(t, start, end) == j
  {
    var r := TrailingSpaceRun(t, start, end);
    SliceIndex(t, j, end, end - r - 1 - j);
    SliceIndex(t, end - r, end, j - 1 - (end - r));
  }

  /** The text between the greedy tag and the closing fence. */
  function FenceBody(t: string): string
    requires IsFenced(t)
  {
    t[3 + WordRun(t, 3, |t| - 3)..|t| - 3]
  }

  /** Group 1, trimmed, is the body after the tag, trimmed. */
  lemma GroupTrimsToBody(t: string)
    requires IsFenced(t)
    ensures Trim(Group(t, EngineMatch(t))) == Trim(FenceBody(t))
  {
    var m := EngineMatch(t);
    var e := |t| - 3;
    var lead, group, tail := t[m.tagEnd..m.groupStart], t[m.groupStart..m.groupEnd], t[m.groupEnd..e];
    assert FenceBody(t) == lead + group + tail;
    SpacesAreTrimChars(lead);
    SpacesAreTrimChars(tail);
    TrimIgnoresPadding(lead, group, tail);
  }

  /**
   * `ChatController.stripCodeFences`: null stays null; a blank reply becomes
   * ""; a reply whose trimmed text is wholly fenced becomes the body after
   * the optional tag, trimmed; anything else is returned exactly as given,
   * untrimmed.
   */
  function StripCodeFences(content: Option<string>): (r: Option<string>)
    ensures content.None? <==> r.None?
    ensures content.Some? && AllTrimChars(content.value) ==> r == Some([])
    ensures content.Some? && IsFenced(Trim(content.value)) ==>
              r == Some(Trim(FenceBody(Trim(content.value))))
    ensures content.Some? && !AllTrimChars(content.value) && !IsFenced(Trim(content.value)) ==>
              r == content
    ensures content.Some? && IsFenced(Trim(content.value)) ==> |r.value| <= |Trim(content.value)| - 6
  {
    match content
    case None => None
    case Some(c) =>
      var t := Trim(c);
      if t == [] then Some(t)
      else if IsFenced(t) then
        GroupTrimsToBody(t);
        Some(Trim(Group(t, EngineMatch(t))))
      else content
  }

  /** Whatever the stripper changes comes out trimmed. */
  lemma StripChangesOnlyToTrimmed(content: Option<string>)
    requires content.Some? && StripCodeFences(content) != content
    ensures IsTrimmed(StripCodeFences(content).value)
  {
  }

  /**
   * Stripping again changes nothing unless the first pass uncovered another
   * whole fence: in particular unfenced replies are fixed points.
   */
  lemma StripIdempotentUnlessNested(content: Option<string>)
    requires StripCodeFences(content).Some? ==> !IsFenced(StripCodeFences(content).value)
    ensures StripCodeFences(StripCodeFences(content)) == StripCodeFences(content)
  {
    var r := StripCodeFences(content);
    if r.Some? && r != content {
      TrimmedIsFixedPoint(r.value);
    }
  }

  /**
   * A reply made of a fence, a word tag, a rest that does not continue the
   * tag, and a closing fence becomes its rest, trimmed. An empty tag is
   * allowed, so this also covers untagged fences.
   */
  lemma StripTaggedFence(tag: string, rest: string)
    requires AllWord(tag)
    requires rest != [] ==> !IsWordChar(rest[0])
    ensures StripCodeFences(Some(Fence + tag + rest + Fence)) == Some(Trim(rest))
  {
    var t := Fence + tag + rest + Fence;
    TaggedFenceBody(tag, rest);
    TrimmedIsFixedPoint(t);
  }

  /** The body of a tagged fence is what follows the tag. */
  lemma TaggedFenceBody(tag: string, rest: string)
    requires AllWord(tag)
    requires rest != [] ==> !IsWordChar(rest[0])
    ensures IsFenced(Fence + tag + rest + Fence) && IsTrimmed(Fence + tag + rest + Fence)
    ensures FenceBody(Fence + tag + rest + Fence) == rest
  {
    var t := Fence + tag + rest + Fence;
    var e := |t| - 3;
    assert t[0] == '`' && t[1] == '`' && t[2] == '`';
    assert t[e] == '`' && t[e + 1] == '`' && t[e + 2] == '`';
    assert t[3..3 + |tag|] == tag;
    assert rest != [] ==> t[3 + |tag|] == rest[0];
    WordRunExact(t, 3, e, 3 + |tag|);
    assert t[3 + |tag|..e] == rest;
  }

  /** Wrapping any text in fences gives a trimmed, fenced text. */
  lemma WrappedIsFenced(x: string)
    ensures IsFenced(Fence + x + Fence) && IsTrimmed(Fence + x + Fence)
  {
    var t := Fence + x + Fence;
    var e := |t| - 3;
    assert t[0] == '`' && t[1] == '`' && t[2] == '`';
    assert t[e] == '`' && t[e + 1] == '`' && t[e + 2] == '`';
  }

  /** A reply whose trimmed text is fenced always changes. */
  lemma FencedAlwaysChanges(c: string)
    requires IsFenced(Trim(c))
    ensures StripCodeFences(Some(c)) != Some(c)
  {
    assert |Trim(c)| <= |c| by {
      assert LeadingTrimCount(c) + |Trim(c)| <= |c|;
    }
  }

  /**
   * A fence nested directly inside a fence is peeled one layer per call, so
   * stripping is not idempotent on such replies.
   */
  lemma NestedFencePeelsOneLayer(x: string)
    ensures StripCodeFences(Some(Fence + Fence + x + Fence + Fence)) == Some(Fence + x + Fence)
    ensures StripCodeFences(Some(Fence + x + Fence)) != Some(Fence + x + Fence)
  {
    var inner := Fence + x + Fence;
    WrappedIsFenced(x);
    TrimmedIsFixedPoint(inner);
    StripFencedTo(Fence + Fence + x + Fence + Fence, [], inner, inner);
    FencedAlwaysChanges(inner);
  }

  /** `StripTaggedFence` for a text spelled differently, with its result known. */
  lemma StripFencedTo(t: string, tag: string, rest: string, out: string)
    requires t == Fence + tag + rest + Fence
    requires AllWord(tag)
    requires rest != [] ==> !IsWordChar(rest[0])
    requires Trim(rest) == out
    ensures StripCodeFences(Some(t)) == Some(out)
  {
    StripTaggedFence(tag, rest);
  }

  /**
   * A block written the usual way, fence and tag, newline, a trimmed text,
   * newline, fence, comes out as that text.
   */
  lemma TaggedBlockStripsToText(tag: string, x: string)
    requires AllWord(tag) && IsTrimmed(x)
    ensures StripCodeFences(Some(Fence + tag + ("\n" + x + "\n") + Fence)) == Some(x)
  {
    StripTaggedFence(tag, "\n" + x + "\n");
    TrimIgnoresPadding("\n", x, "\n");
    TrimmedIsFixedPoint(x);
  }

  /** `substring` failing on a fenced text too short to hold two fences. */
  datatype StripFailure = IndexOutOfBounds

  /**
   * `OpenAiChatServiceImpl.stripCodeFences`: when the trimmed text starts
   * and ends with a fence, the inside is trimmed, a leading "json" is cut off
   * and the rest trimmed again; otherwise the input is returned as given.
   * A trimmed text of 3 to 5 characters that starts and ends with a fence
   * makes `substring(3, length - 3)` throw.
   */
  function StripJsonFences(content: Option<string>): (r: Result<Option<string>, StripFailure>)
    ensures content.None? ==> r == Ok(None)
    ensures r.Err? <==>
              content.Some? && StartsWith(Trim(content.value), Fence) && EndsWith(Trim(content.value), Fence)
              && |Trim(content.value)| < 6
    ensures r.Ok? && content.Some? ==> r.value.Some?
    ensures content.Some? && !(StartsWith(Trim(content.value), Fence) && EndsWith(Trim(content.value), Fence)) ==>
              r == Ok(content)
    ensures r.Ok? && r.value.Some? && r.value != content ==> IsTrimmed(r.value.value)
  {
    match content
    case None => Ok(None)
    case Some(c) =>
      var t := Trim(c);
      if StartsWith(t, Fence) && EndsWith(t, Fence) then
        if |t| < 6 then Err(IndexOutOfBounds)
        else
          var inner := Trim(t[3..|t| - 3]);
          if StartsWith(inner, "json") then Ok(Some(Trim(inner[4..]))) else Ok(Some(inner))
      else Ok(content)
  }

  /** On a fenced text the service trims the inside and drops one leading "json". */
  lemma StripJsonOfFenced(body: string)
    ensures var inner := Trim(body);
            StripJsonFences(Some(Fence + body + Fence))
            == Ok(Some(if StartsWith(inner, "json") then Trim(inner[4..]) else inner))
  {
    var t := Fence + body + Fence;
    WrappedIsFenced(body);
    TrimmedIsFixedPoint(t);
    FenceTests(t);
    assert t[3..|t| - 3] == body;
  }

  /** `StripJsonOfFenced` for a text spelled differently, with its result known. */
  lemma StripJsonFencedTo(t: string, body: string, inner: string, out: string)
    requires t == Fence + body + Fence
    requires Trim(body) == inner
    requires if StartsWith(inner, "json") then Trim(inner[4..]) == out else inner == out
    ensures StripJsonFences(Some(t)) == Ok(Some(out))
  {
    StripJsonOfFenced(body);
  }

  lemma ConcatAssoc(a: string, b: string, c: string, d: string)
    ensures a + b + c + d == a + (b + c) + d
  {
  }

  /**
   * On a "json" block the service agrees with the controller, which turns
   * the same block into `x` (`TaggedBlockStripsToText`).
   */
  lemma JsonBlockStripsToText(x: string)
    requires IsTrimmed(x) && x != []
    ensures StripJsonFences(Some(Fence + "json" + ("\n" + x + "\n") + Fence)) == Ok(Some(x))
  {
    var body := "json" + ("\n" + x + "\n");
    var kept := "json" + "\n" + x;
    JsonIsWord();
    TaggedBodyTrims("json", x);
    JsonLineStrips(x);
    ConcatAssoc(Fence, "json", "\n" + x + "\n", Fence);
    StripJsonFencedTo(Fence + "json" + ("\n" + x + "\n") + Fence, body, kept, x);
  }

  lemma JsonIsWord()
    ensures AllWord("json")
  {
  }

  /** After the service cuts "json" off the first line, the text is what remains. */
  lemma JsonLineStrips(x: string)
    requires IsTrimmed(x)
    ensures StartsWith("json" + "\n" + x, "json") && Trim(("json" + "\n" + x)[4..]) == x
  {
    var kept := "json" + "\n" + x;
    assert kept[4..] == "\n" + x + [];
    TrimIgnoresPadding("\n", x, []);
    TrimmedIsFixedPoint(x);
  }

  /**
   * On a block with any other tag not beginning with 'j', the service keeps
   * the tag as the text's first line, where the controller drops it.
   */
  lemma OtherTagSurvivesJsonStrip(tag: string, x: string)
    requires AllWord(tag) && tag != [] && tag[0] != 'j' && IsTrimmed(x) && x != []
    ensures StripJsonFences(Some(Fence + tag + ("\n" + x + "\n") + Fence)) == Ok(Some(tag + "\n" + x))
  {
    var body := tag + ("\n" + x + "\n");
    var kept := tag + "\n" + x;
    assert Trim(body) == kept by {
      TaggedBodyTrims(tag, x);
    }
    assert !StartsWith(kept, "json") by {
      assert |kept| >= 4 ==> kept[..4][0] == tag[0];
    }
    assert Fence + tag + ("\n" + x + "\n") + Fence == Fence + body + Fence by {
      ConcatAssoc(Fence, tag, "\n" + x + "\n", Fence);
    }
    StripJsonFencedTo(Fence + tag + ("\n" + x + "\n") + Fence, body, kept, kept);
  }

  /** Inside a tagged block, trimming keeps the tag line and the text. */
  lemma TaggedBodyTrims(tag: string, x: string)
    requires AllWord(tag) && tag != [] && IsTrimmed(x) && x != []
    ensures Trim(tag + ("\n" + x + "\n")) == tag + "\n" + x
  {
    var kept := tag + "\n" + x;
    assert tag + ("\n" + x + "\n") == [] + kept + "\n";
    TrimIgnoresPadding([], kept, "\n");
    assert IsWordChar(tag[0]);
    assert kept[0] == tag[0];
    assert kept[|kept| - 1] == x[|x| - 1];
    TrimmedIsFixedPoint(kept);
  }

  /** The shortest fenced text makes the service's `substring` throw. */
  lemma BareFenceThrows()
    ensures StripJsonFences(Some(Fence)).Err?
  {
    assert IsTrimmed(Fence);
    TrimmedIsFixedPoint(Fence);
  }
}
