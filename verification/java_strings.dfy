/**
 * The handful of `java.lang.String` operations the application's rules are
 * written in: `trim`, `isBlank`, `startsWith`, `endsWith`, `contains`,
 * `toLowerCase` and `equalsIgnoreCase`, plus the application's recurring
 * "trim, and treat an empty result as null" normalisation.
 *
 * Strings are sequences of Unicode scalar values; Java's UTF-16 code units
 * are not modelled. Case mapping is restricted to ASCII.
 */
module JavaStrings {
  import opened Wrappers

  /** `String.trim()` removes every code point at or below U+0020 from both ends. */
  predicate IsTrimChar(c: char) {
    c <= ' '
  }

  predicate AllTrimChars(s: string) {
    forall i :: 0 <= i < |s| ==> IsTrimChar(s[i])
  }

  /** No trim character at either end: what `trim()` leaves behind. */
  predicate IsTrimmed(s: string) {
    s == [] || (!IsTrimChar(s[0]) && !IsTrimChar(s[|s| - 1]))
  }

  /** Index of the first character `trim()` keeps (`st` in the JDK loop). */
  function LeadingTrimCount(s: string): (n: nat)
    ensures n <= |s|
    ensures AllTrimChars(s[..n])
    ensures n < |s| ==> !IsTrimChar(s[n])
    decreases |s|
  {
    if |s| > 0 && IsTrimChar(s[0]) then
      var rest := LeadingTrimCount(s[1..]);
      assert s[..rest + 1] == [s[0]] + s[1..][..rest];
      rest + 1
    else 0
  }

  /** How many characters `trim()` drops from the end (`value.length - len`). */
  function TrailingTrimCount(s: string): (n: nat)
    ensures n <= |s|
    ensures AllTrimChars(s[|s| - n..])
    ensures n < |s| ==> !IsTrimChar(s[|s| - n - 1])
    decreases |s|
  {
    if |s| > 0 && IsTrimChar(s[|s| - 1]) then
      var init := s[..|s| - 1];
      var rest := TrailingTrimCount(init);
      assert s[|s| - (rest + 1)..] == init[|init| - rest..] + [s[|s| - 1]];
      rest + 1
    else 0
  }

  /**
   * `String.trim()`. The result is the infix of `s` that starts at the first
   * kept character; only trim characters were removed around it, and none is
   * left at either of its ends.
   */
  function Trim(s: string): (r: string)
    ensures IsTrimmed(r)
    ensures LeadingTrimCount(s) + |r| <= |s|
    ensures r == s[LeadingTrimCount(s)..LeadingTrimCount(s) + |r|]
    ensures AllTrimChars(s[LeadingTrimCount(s) + |r|..])
    ensures r == [] <==> AllTrimChars(s)
  {
    var st := LeadingTrimCount(s);
    if st == |s| then
      assert s[..st] == s;
      []
    else
      var drop := TrailingTrimCount(s);
      assert st < |s| - drop;
      var r := s[st..|s| - drop];
      assert !IsTrimChar(r[0]);
      assert !AllTrimChars(s) by {
        assert !IsTrimChar(s[st]);
      }
      r
  }

  /** `trim()` leaves an already trimmed string alone. */
  lemma TrimmedIsFixedPoint(s: string)
    requires IsTrimmed(s)
    ensures Trim(s) == s
  {
    var st := LeadingTrimCount(s);
    if s != [] {
      assert st == 0;
    }
  }

  lemma TrimIdempotent(s: string)
    ensures Trim(Trim(s)) == Trim(s)
  {
    TrimmedIsFixedPoint(Trim(s));
  }

  /**
   * `trim()` is determined by its two cut points: any split of `s` into a
   * run of trim characters, a part that starts and ends with a kept
   * character, and another run of trim characters, is the split `trim()`
   * makes.
   */
  lemma TrimUnique(s: string, i: nat, j: nat)
    requires i < j <= |s|
    requires AllTrimChars(s[..i]) && AllTrimChars(s[j..])
    requires !IsTrimChar(s[i]) && !IsTrimChar(s[j - 1])
    ensures Trim(s) == s[i..j]
  {
    var st := LeadingTrimCount(s);
    NotAllTrim(s, i);
    KeptBound(s, st, i);
    KeptBound(s, i, st);
    var r := Trim(s);
    var e := st + |r|;
    assert !IsTrimChar(s[e - 1]) by { assert r[|r| - 1] == s[e - 1]; }
    DroppedBound(s, e, j - 1);
    DroppedBound(s, j, e - 1);
  }

  lemma NotAllTrim(s: string, i: nat)
    requires i < |s| && !IsTrimChar(s[i])
    ensures !AllTrimChars(s)
  {
  }

  /** A run of trim characters cannot reach past a kept character. */
  lemma KeptBound(s: string, n: nat, i: nat)
    requires n <= |s| && i < |s|
    requires AllTrimChars(s[..n]) && !IsTrimChar(s[i])
    ensures n <= i
  {
  }

  lemma DroppedBound(s: string, n: nat, i: nat)
    requires n <= |s| && i < |s|
    requires AllTrimChars(s[n..]) && !IsTrimChar(s[i])
    ensures i < n
  {
  }

  /**
   * Padding made only of trim characters does not change what `trim()`
   * returns.
   */
  lemma TrimIgnoresPadding(a: string, x: string, b: string)
    requires AllTrimChars(a) && AllTrimChars(b)
    ensures Trim(a + x + b) == Trim(x)
  {
    AllTrimConcat(a, x);
    AllTrimConcat(a + x, b);
    if !AllTrimChars(x) {
      KeptPartUnpadded(a, x, b);
    }
  }

  lemma KeptPartUnpadded(a: string, x: string, b: string)
    requires AllTrimChars(a) && AllTrimChars(b) && !AllTrimChars(x)
    ensures Trim(a + x + b) == Trim(x)
  {
    TrimBounds(x);
    PaddedTrim(a, x, b, LeadingTrimCount(x), LeadingTrimCount(x) + |Trim(x)|);
  }

  /** Trimming padding around a text whose kept part is `x[i..j]` keeps the same part. */
  lemma PaddedTrim(a: string, x: string, b: string, i: nat, j: nat)
    requires i < j <= |x| && AllTrimChars(a) && AllTrimChars(b)
    requires AllTrimChars(x[..i]) && AllTrimChars(x[j..]) && !IsTrimChar(x[i]) && !IsTrimChar(x[j - 1])
    ensures Trim(a + x + b) == x[i..j]
  {
    PaddedHeadAllTrim(a, x, b, i);
    PaddedTailAllTrim(a, x, b, j);
    InfixOfConcat(a, x, b, i, j);
    TrimUnique(a + x + b, |a| + i, |a| + j);
  }

  /** The middle part of a concatenation, sliced at offsets into it. */
  lemma InfixOfConcat(a: string, x: string, b: string, i: nat, j: nat)
    requires i < j <= |x|
    ensures (a + x + b)[|a| + i..|a| + j] == x[i..j]
    ensures (a + x + b)[|a| + i] == x[i] && (a + x + b)[|a| + j - 1] == x[j - 1]
  {
    var s := a + x + b;
    forall k | 0 <= k < j - i
      ensures s[|a| + i..|a| + j][k] == x[i..j][k]
    {
      assert s[|a| + i + k] == x[i + k];
    }
  }

  /** Where the kept part of a text that is not all trim characters starts and ends. */
  lemma TrimBounds(x: string)
    requires !AllTrimChars(x)
    ensures var kx := LeadingTrimCount(x);
            var ex := kx + |Trim(x)|;
            && kx < ex <= |x| && Trim(x) == x[kx..ex]
            && !IsTrimChar(x[kx]) && !IsTrimChar(x[ex - 1])
            && AllTrimChars(x[..kx]) && AllTrimChars(x[ex..])
  {
    var tx := Trim(x);
    var kx := LeadingTrimCount(x);
    var ex := kx + |tx|;
    assert tx[0] == x[kx];
    assert tx[|tx| - 1] == x[ex - 1];
  }

  lemma PaddedHeadAllTrim(a: string, x: string, b: string, k: nat)
    requires k <= |x| && AllTrimChars(a) && AllTrimChars(x[..k])
    ensures AllTrimChars((a + x + b)[..|a| + k])
  {
    assert (a + x + b)[..|a| + k] == a + x[..k];
    AllTrimConcat(a, x[..k]);
  }

  lemma PaddedTailAllTrim(a: string, x: string, b: string, k: nat)
    requires k <= |x| && AllTrimChars(x[k..]) && AllTrimChars(b)
    ensures AllTrimChars((a + x + b)[|a| + k..])
  {
    assert (a + x + b)[|a| + k..] == x[k..] + b;
    AllTrimConcat(x[k..], b);
  }

  lemma AllTrimConcat(p: string, q: string)
    ensures AllTrimChars(p + q) <==> AllTrimChars(p) && AllTrimChars(q)
  {
    if AllTrimChars(p) && AllTrimChars(q) {
      forall i | 0 <= i < |p + q| ensures IsTrimChar((p + q)[i]) {
        if i >= |p| { assert (p + q)[i] == q[i - |p|]; }
      }
    }
    if AllTrimChars(p + q) {
      forall i | 0 <= i < |p| ensures IsTrimChar(p[i]) {
        assert (p + q)[i] == p[i];
      }
      forall i | 0 <= i < |q| ensures IsTrimChar(q[i]) {
        assert (p + q)[|p| + i] == q[i];
      }
    }
  }

  /**
   * The recurring "trim, and treat an empty result as null" normalisation
   * (`TripProfile.normalize`, `User.sanitizeName`,
   * `SettingsApiController.normalizeValue`, `GeocodingController.normalize`,
   * `OpenAiChatServiceImpl.normalize`).
   */
  function TrimToNull(v: Option<string>): (r: Option<string>)
    ensures r.None? <==> (v.None? || AllTrimChars(v.value))
    ensures r.Some? ==> r.value != [] && IsTrimmed(r.value) && r.value == Trim(v.value)
  {
    match v
    case None => None
    case Some(s) =>
      var t := Trim(s);
      if t == [] then None else Some(t)
  }

  /** Normalising twice is normalising once. */
  lemma TrimToNullIdempotent(v: Option<string>)
    ensures TrimToNull(TrimToNull(v)) == TrimToNull(v)
  {
    if TrimToNull(v).Some? {
      TrimmedIsFixedPoint(TrimToNull(v).value);
    }
  }

  /**
   * A value that could be a normalised one (null, or non-empty and trimmed)
   * is its own normal form.
   */
  lemma TrimToNullFixedPoint(v: Option<string>)
    requires v.None? || (v.value != [] && IsTrimmed(v.value))
    ensures TrimToNull(v) == v
  {
    if v.Some? {
      TrimmedIsFixedPoint(v.value);
    }
  }

  /** `Character.isWhitespace`: the JDK's list of whitespace code points. */
  predicate IsJavaWhitespace(c: char) {
    var n := c as int;
    || (9 <= n <= 13)
    || (28 <= n <= 32)
    || n == 0x1680
    || (0x2000 <= n <= 0x2006)
    || (0x2008 <= n <= 0x200A)
    || n == 0x2028 || n == 0x2029 || n == 0x205F || n == 0x3000
  }

  /** `String.isBlank()`: every character is Java whitespace (so "" is blank). */
  predicate IsBlank(s: string) {
    forall i :: 0 <= i < |s| ==> IsJavaWhitespace(s[i])
  }

  predicate StartsWith(s: string, prefix: string) {
    |prefix| <= |s| && s[..|prefix|] == prefix
  }

  predicate EndsWith(s: string, suffix: string) {
    |suffix| <= |s| && s[|s| - |suffix|..] == suffix
  }

  predicate OccursAt(s: string, part: string, k: int) {
    0 <= k && k + |part| <= |s| && s[k..k + |part|] == part
  }

  lemma StartsAndEndsWith(a: string, b: string, c: string)
    ensures StartsWith(a + b + c, a) && EndsWith(a + b + c, c)
  {
    assert (a + b + c)[..|a|] == a;
    assert (a + b + c)[|a + b + c| - |c|..] == c;
  }

  /** A text occurs at the start of anything it begins. */
  lemma OccursAtHead(a: string, b: string)
    ensures OccursAt(a + b, a, 0)
  {
    assert (a + b)[..|a|] == a;
  }

  /** An occurrence in `b` is an occurrence in `a + b + c`, shifted by `|a|`. */
  lemma OccursInMiddle(a: string, b: string, c: string, part: string, j: int)
    requires OccursAt(b, part, j)
    ensures OccursAt(a + b + c, part, |a| + j)
  {
    assert (a + b + c)[|a| + j..|a| + j + |part|] == b[j..j + |part|];
  }

  /** `String.contains`, scanning start positions left to right. */
  predicate Contains(s: string, part: string)
    decreases |s|
  {
    StartsWith(s, part) || (|s| > 0 && Contains(s[1..], part))
  }

  /** `contains` holds exactly when the part occurs at some position. */
  lemma {:induction false} ContainsIffOccurs(s: string, part: string, k: int)
    requires OccursAt(s, part, k)
    ensures Contains(s, part)
    decreases k
  {
    if k == 0 {
      assert StartsWith(s, part);
    } else {
      assert s[1..][k - 1..k - 1 + |part|] == s[k..k + |part|];
      ContainsIffOccurs(s[1..], part, k - 1);
    }
  }

  lemma {:induction false} ContainsHasOccurrence(s: string, part: string) returns (k: int)
    requires Contains(s, part)
    ensures OccursAt(s, part, k)
    decreases |s|
  {
    if StartsWith(s, part) {
      k := 0;
    } else {
      var j := ContainsHasOccurrence(s[1..], part);
      assert s[1..][j..j + |part|] == s[j + 1..j + 1 + |part|];
      k := j + 1;
    }
  }

  /** ASCII case mapping: the part of `Character.toLowerCase` the model keeps. */
  function LowerChar(c: char): char {
    if 'A' <= c <= 'Z' then (c as int + 32) as char else c
  }

  function ToLower(s: string): (r: string)
    ensures |r| == |s|
    ensures forall i :: 0 <= i < |s| ==> r[i] == LowerChar(s[i])
  {
    seq(|s|, i requires 0 <= i < |s| => LowerChar(s[i]))
  }

  predicate HasNoUpper(s: string) {
    forall i :: 0 <= i < |s| ==> !('A' <= s[i] <= 'Z')
  }

  /** `String.equalsIgnoreCase` restricted to ASCII case mapping. */
  predicate EqualsIgnoreCase(a: string, b: string) {
    ToLower(a) == ToLower(b)
  }

  /** Lower-casing never introduces or removes trim characters. */
  lemma ToLowerKeepsTrimmed(s: string)
    requires IsTrimmed(s)
    ensures IsTrimmed(ToLower(s))
  {
  }

  lemma ToLowerIdempotent(s: string)
    ensures ToLower(ToLower(s)) == ToLower(s)
  {
    assert forall i :: 0 <= i < |s| ==> LowerChar(LowerChar(s[i])) == LowerChar(s[i]);
  }
}
