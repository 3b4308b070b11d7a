/**
 * Shared vocabulary: an Option type and the handful of JavaScript string
 * operations the screens rely on (String.prototype.trim, split on one
 * character, join, includes, indexOf, replace with a string pattern,
 * String(n) and padStart(2, '0')).  Strings are sequences of characters.
 */
module Common {

  datatype Option<T> = None | Some(value: T)

  /** A DOMRect: position and size in CSS pixels. */
  datatype Rect = Rect(top: real, left: real, width: real, height: real) {
    function Bottom(): real { top + height }
    function Right(): real { left + width }
  }

  /** Math.min and Math.max of two numbers. */
  function Min(a: real, b: real): real { if a <= b then a else b }
  function Max(a: real, b: real): real { if a >= b then a else b }

  // ---------------------------------------------------------------------------
  // Whitespace and trim
  // ---------------------------------------------------------------------------

  /** The WhiteSpace and LineTerminator code points that String.prototype.trim strips. */
  predicate IsWhitespace(c: char) {
    || c == ' ' || c == '\t' || c == '\n' || c == '\r'
    || c == '\U{B}' || c == '\U{C}' || c == '\U{A0}' || c == '\U{1680}'
    || ('\U{2000}' <= c <= '\U{200A}')
    || c == '\U{2028}' || c == '\U{2029}' || c == '\U{202F}' || c == '\U{205F}'
    || c == '\U{3000}' || c == '\U{FEFF}'
  }

  predicate AllWhitespace(s: string) {
    forall i :: 0 <= i < |s| ==> IsWhitespace(s[i])
  }

  /** The first index at or after `i` that does not hold whitespace, or the length if there is none. */
  function SkipWhitespace(s: string, i: nat): (j: nat)
    requires i <= |s|
    ensures i <= j <= |s|
    ensures forall k :: i <= k < j ==> IsWhitespace(s[k])
    ensures j < |s| ==> !IsWhitespace(s[j])
    decreases |s| - i
  {
    if i == |s| || !IsWhitespace(s[i]) then i else SkipWhitespace(s, i + 1)
  }

  /** Walking back from `j`, but not below `lo`: the end of the last character that is not whitespace. */
  function SkipWhitespaceBack(s: string, lo: nat, j: nat): (e: nat)
    requires lo <= j <= |s|
    ensures lo <= e <= j
    ensures forall k :: e <= k < j ==> IsWhitespace(s[k])
    ensures e > lo ==> !IsWhitespace(s[e - 1])
    decreases j
  {
    if j == lo || !IsWhitespace(s[j - 1]) then j else SkipWhitespaceBack(s, lo, j - 1)
  }

  /** String.prototype.trim: the slice between the leading and the trailing whitespace. */
  function Trim(s: string): string {
    var i := SkipWhitespace(s, 0);
    s[i..SkipWhitespaceBack(s, i, |s|)]
  }

  /** A trimmed string neither starts nor ends with whitespace. */
  lemma TrimEnds(s: string)
    ensures var t := Trim(s); t == [] || (!IsWhitespace(t[0]) && !IsWhitespace(t[|t| - 1]))
  {
    var i := SkipWhitespace(s, 0);
    var e := SkipWhitespaceBack(s, i, |s|);
    var t := Trim(s);
    if t != [] {
      assert t[0] == s[i] && t[|t| - 1] == s[e - 1];
    }
  }

  /** `t` sits at position `i` of `s` with only whitespace around it. */
  predicate SliceAmidWhitespace(s: string, t: string, i: int) {
    0 <= i <= |s| - |t| && t == s[i..i + |t|] && AllWhitespace(s[..i]) && AllWhitespace(s[i + |t|..])
  }

  /** A trimmed string is a slice of the input with only whitespace cut away on either side. */
  lemma TrimSlice(s: string)
    ensures exists i :: SliceAmidWhitespace(s, Trim(s), i)
  {
    var i := SkipWhitespace(s, 0);
    var e := SkipWhitespaceBack(s, i, |s|);
    assert AllWhitespace(s[..i]) by {
      forall k | 0 <= k < i
        ensures IsWhitespace(s[..i][k])
      {
        assert s[..i][k] == s[k];
      }
    }
    assert AllWhitespace(s[e..]) by {
      forall k | 0 <= k < |s| - e
        ensures IsWhitespace(s[e..][k])
      {
        assert s[e..][k] == s[e + k];
      }
    }
    assert SliceAmidWhitespace(s, Trim(s), i);
  }

  /** Every character of a trimmed string occurs in the input. */
  lemma TrimChars(s: string)
    ensures forall c :: c in Trim(s) ==> c in s
  {
    var i := SkipWhitespace(s, 0);
    var t := Trim(s);
    forall c | c in t
      ensures c in s
    {
      var k :| 0 <= k < |t| && t[k] == c;
      assert s[i + k] == c;
    }
  }

  /** Trim gives the empty string exactly for all-whitespace input. */
  lemma TrimEmptyIff(s: string)
    ensures Trim(s) == [] <==> AllWhitespace(s)
  {
    var i := SkipWhitespace(s, 0);
    var e := SkipWhitespaceBack(s, i, |s|);
    if AllWhitespace(s) {
      assert i == |s|;
    }
  }

  /** A string that neither starts nor ends with whitespace is its own trim. */
  lemma TrimUnchanged(s: string)
    requires s == [] || (!IsWhitespace(s[0]) && !IsWhitespace(s[|s| - 1]))
    ensures Trim(s) == s
  {
    assert SkipWhitespace(s, 0) == 0;
    assert SkipWhitespaceBack(s, 0, |s|) == |s|;
    assert s[0..|s|] == s;
  }

  /** Trimming twice is trimming once. */
  lemma TrimIdempotent(s: string)
    ensures Trim(Trim(s)) == Trim(s)
  {
    TrimEnds(s);
    TrimUnchanged(Trim(s));
  }

  // ---------------------------------------------------------------------------
  // split / join on one separator character
  // ---------------------------------------------------------------------------

  /** String.prototype.split with a one-character separator: never empty, and no piece
      contains the separator. */
  function Split(s: string, sep: char): (r: seq<string>)
    ensures |r| >= 1
    ensures forall i :: 0 <= i < |r| ==> sep !in r[i]
  {
    if s == [] then [[]]
    else
      var rest := Split(s[1..], sep);
      if s[0] == sep then [[]] + rest
      else [[s[0]] + rest[0]] + rest[1..]
  }

  /** A string without the separator splits into itself. */
  lemma {:induction false} SplitWithoutSeparator(s: string, sep: char)
    requires sep !in s
    ensures Split(s, sep) == [s]
  {
    if s != [] {
      SplitWithoutSeparator(s[1..], sep);
      assert [s[0]] + s[1..] == s;
    }
  }

  /** Array.prototype.join with a one-character separator. */
  function Join(parts: seq<string>, sep: char): string {
    if parts == [] then []
    else if |parts| == 1 then parts[0]
    else parts[0] + [sep] + Join(parts[1..], sep)
  }

  /** Joining the pieces of a split with the same separator gives back the string. */
  lemma {:induction false} JoinSplit(s: string, sep: char)
    ensures Join(Split(s, sep), sep) == s
  {
    if s != [] {
      var rest := Split(s[1..], sep);
      JoinSplit(s[1..], sep);
      if s[0] == sep {
        assert Split(s, sep) == [[]] + rest;
        assert ([[]] + rest)[1..] == rest;
      } else {
        var r := Split(s, sep);
        assert r == [[s[0]] + rest[0]] + rest[1..];
        if |rest| == 1 {
          assert r == [[s[0]] + rest[0]];
        } else {
          assert r[1..] == rest[1..];
          assert Join(rest, sep) == rest[0] + [sep] + Join(rest[1..], sep);
        }
      }
    }
  }

  /** A join never contains a character that is neither the separator nor in a piece. */
  lemma {:induction false} JoinChars(parts: seq<string>, sep: char, c: char)
    requires c != sep
    requires forall i :: 0 <= i < |parts| ==> c !in parts[i]
    ensures c !in Join(parts, sep)
  {
    if |parts| > 1 {
      JoinChars(parts[1..], sep, c);
    }
  }

  /** Keeps the elements that are not the empty string, in order. */
  function DropEmpty(xs: seq<string>): (r: seq<string>)
    ensures |r| <= |xs|
    ensures forall i :: 0 <= i < |r| ==> r[i] != [] && r[i] in xs
    ensures forall x :: x in xs && x != [] ==> x in r
  {
    if xs == [] then []
    else
      var rest := DropEmpty(xs[1..]);
      if xs[0] == [] then rest else [xs[0]] + rest
  }

  /**
   * Dropping empty strings commutes with concatenation and keeps a single
   * non-empty string, so the kept strings stay in order and keep their multiplicity.
   */
  lemma {:induction false} DropEmptyAppend(a: seq<string>, b: seq<string>)
    ensures DropEmpty(a + b) == DropEmpty(a) + DropEmpty(b)
    ensures |a| == 1 ==> DropEmpty(a) == (if a[0] == [] then [] else a)
  {
    if a != [] {
      assert (a + b)[0] == a[0] && (a + b)[1..] == a[1..] + b;
      DropEmptyAppend(a[1..], b);
      if |a| == 1 {
        assert a[1..] == [];
      }
    } else {
      assert a + b == b;
    }
  }

  /** Trims every element. */
  function TrimAll(xs: seq<string>): (r: seq<string>)
    ensures |r| == |xs|
    ensures forall i :: 0 <= i < |r| ==> r[i] == Trim(xs[i])
  {
    if xs == [] then [] else [Trim(xs[0])] + TrimAll(xs[1..])
  }

  /** Every '/' becomes ". " (a global regular-expression replace). */
  function ReplaceSlashes(s: string): (r: string)
    ensures '/' !in r
    ensures '/' !in s ==> r == s
    ensures |r| >= |s|
  {
    if s == [] then []
    else (if s[0] == '/' then ". " else [s[0]]) + ReplaceSlashes(s[1..])
  }

  /** Deletes every occurrence of `c` (a global regular-expression replace by ''). */
  function RemoveChar(s: string, c: char): (r: string)
    ensures c !in r
    ensures |r| <= |s|
    ensures forall d :: d != c ==> (d in r <==> d in s)
  {
    if s == [] then []
    else if s[0] == c then RemoveChar(s[1..], c)
    else [s[0]] + RemoveChar(s[1..], c)
  }

  /**
   * Removing a character commutes with concatenation and keeps a single other
   * character, so every other character is kept, in order and as often as it occurs.
   */
  lemma {:induction false} RemoveCharAppend(a: string, b: string, c: char)
    ensures RemoveChar(a + b, c) == RemoveChar(a, c) + RemoveChar(b, c)
    ensures |a| == 1 ==> RemoveChar(a, c) == (if a[0] == c then [] else a)
  {
    if a != [] {
      assert (a + b)[0] == a[0] && (a + b)[1..] == a[1..] + b;
      RemoveCharAppend(a[1..], b, c);
      if a[0] != c {
        assert RemoveChar(a + b, c) == [a[0]] + RemoveChar(a[1..] + b, c);
        assert RemoveChar(a, c) == [a[0]] + RemoveChar(a[1..], c);
      } else {
        assert RemoveChar(a + b, c) == RemoveChar(a[1..] + b, c);
      }
      if |a| == 1 {
        assert a[1..] == [];
      }
    } else {
      assert a + b == b;
    }
  }

  // ---------------------------------------------------------------------------
  // includes / indexOf / replace (first occurrence, string pattern)
  // ---------------------------------------------------------------------------

  predicate OccursAt(s: string, pat: string, i: int) {
    0 <= i && i + |pat| <= |s| && s[i..i + |pat|] == pat
  }

  /** String.prototype.includes. */
  predicate Contains(s: string, pat: string) {
    exists i :: 0 <= i <= |s| - |pat| && OccursAt(s, pat, i)
  }

  /** String.prototype.indexOf, searching from position `from`. */
  function IndexOfFrom(s: string, pat: string, from: nat): (r: Option<nat>)
    requires from <= |s| + 1
    ensures r.Some? ==>
      from <= r.value && OccursAt(s, pat, r.value) && forall j :: from <= j < r.value ==> !OccursAt(s, pat, j)
    ensures r.None? ==> forall j :: from <= j ==> !OccursAt(s, pat, j)
    decreases |s| + 1 - from
  {
    if from + |pat| > |s| then None
    else if s[from..from + |pat|] == pat then Some(from)
    else IndexOfFrom(s, pat, from + 1)
  }

  /** The first occurrence of `pat` in `s`, if any. */
  function IndexOf(s: string, pat: string): (r: Option<nat>)
    ensures r.Some? <==> Contains(s, pat)
    ensures r.Some? ==> OccursAt(s, pat, r.value) && forall j :: 0 <= j < r.value ==> !OccursAt(s, pat, j)
  {
    IndexOfFrom(s, pat, 0)
  }

  /** String.prototype.replace with a string pattern: only the first occurrence is replaced. */
  function ReplaceFirst(s: string, pat: string, repl: string): (r: string)
    ensures !Contains(s, pat) ==> r == s
    ensures Contains(s, pat) ==>
      exists i :: 0 <= i <= |s| - |pat| && OccursAt(s, pat, i) && (forall j :: 0 <= j < i ==> !OccursAt(s, pat, j))
        && r == s[..i] + repl + s[i + |pat|..]
  {
    match IndexOf(s, pat)
    case None => s
    case Some(i) => s[..i] + repl + s[i + |pat|..]
  }

  // ---------------------------------------------------------------------------
  // Decimal numerals: String(n), Number(s) on digit strings, padStart(2, '0')
  // ---------------------------------------------------------------------------

  predicate IsDigit(c: char) { '0' <= c <= '9' }

  predicate AllDigits(s: string) {
    forall i :: 0 <= i < |s| ==> IsDigit(s[i])
  }

  function DigitChar(d: nat): (c: char)
    requires d < 10
    ensures IsDigit(c)
  {
    ['0', '1', '2', '3', '4', '5', '6', '7', '8', '9'][d]
  }

  function DigitValue(c: char): nat
    requires IsDigit(c)
  {
    (c as int - '0' as int) as nat
  }

  lemma DigitRoundTrip(d: nat)
    requires d < 10
    ensures DigitValue(DigitChar(d)) == d
  {
  }

  /** String(n) for a non-negative integer: the decimal numeral without leading zeros. */
  function Decimal(n: nat): (r: string)
    ensures |r| >= 1 && AllDigits(r)
    ensures n >= 10 <==> |r| >= 2
    ensures n < 100 ==> |r| <= 2
    ensures r[0] != '0' || r == "0"
  {
    if n < 10 then [DigitChar(n)] else Decimal(n / 10) + [DigitChar(n % 10)]
  }

  /** The value of a string of decimal digits (leading zeros allowed). */
  function DigitsValue(s: string): nat
    requires AllDigits(s)
  {
    if s == [] then 0 else DigitsValue(s[..|s| - 1]) * 10 + DigitValue(s[|s| - 1])
  }

  /** Reading back a numeral gives the number. */
  lemma {:induction false} DecimalValue(n: nat)
    ensures DigitsValue(Decimal(n)) == n
  {
    var r := Decimal(n);
    if n < 10 {
      DigitRoundTrip(n);
    } else {
      DecimalValue(n / 10);
      assert r[..|r| - 1] == Decimal(n / 10);
      DigitRoundTrip(n % 10);
    }
  }

  /** Leading zeros do not change the value. */
  lemma ZeroPrefixValue(s: string)
    requires AllDigits(s)
    ensures AllDigits("0" + s) && DigitsValue("0" + s) == DigitsValue(s)
  {
    if s != [] {
      var t := "0" + s;
      assert t[..|t| - 1] == "0" + s[..|s| - 1];
      ZeroPrefixValue(s[..|s| - 1]);
    }
  }

  /** padStart(2, '0'). */
  function PadStart2(s: string): (r: string)
    ensures |s| >= 2 ==> r == s
    ensures |s| < 2 ==> |r| == 2 && r[2 - |s|..] == s && forall i :: 0 <= i < 2 - |s| ==> r[i] == '0'
  {
    if |s| >= 2 then s else if |s| == 1 then "0" + s else "00"
  }
}

/**
 * Calls that the screens make into code outside this model: the sound manager,
 * the callbacks handed down by the game hooks and parent components, and the
 * navigation router.  A component method appends the calls it makes, in order.
 */
module Requests {

  /** The recorder hook's status, as the components compare it. */
  datatype RecorderStatus = Inactive | Recording | Paused

  /** The game hook's `practice` value: the practice word's variant, or done. */
  datatype PracticeValue = Female | Male | Neutral | PracticeDone | NotLoaded

  /** The input mode of a game screen. */
  datatype Mode = Voice | Text

  /** One step of a chained playback. */
  datatype PlayStep = GroupStep(group: string, once: bool) | ConceptStep(conceptId: string)

  datatype Call =
    // sound manager
    | PlayGroup(group: string, once: bool)
    | PlayGroupAfter(group: string, delayMs: nat)
    | PlayFile(group: string, index: nat)
    | PlaySequence(steps: seq<PlayStep>)
    | PlayConcept(conceptId: string)
    | StopAllSounds
    // recorder callbacks
    | StartRecording
    | StopRecording
    | DeleteRecording(id: int)
    // game hook and parent callbacks
    | SaveAndReset(skip: bool)
    | ResetPractice
    | SetDone
    | SetPracticeDone
    | Navigate(path: string)

  /** The requests of a call log that play sound group `g`. */
  function GroupRequests(log: seq<Call>, g: string): (n: nat)
    ensures n <= |log|
  {
    if log == [] then 0
    else (if log[0].PlayGroup? && log[0].group == g then 1 else 0) + GroupRequests(log[1..], g)
  }

  lemma {:induction false} GroupRequestsAppend(a: seq<Call>, b: seq<Call>, g: string)
    ensures GroupRequests(a + b, g) == GroupRequests(a, g) + GroupRequests(b, g)
  {
    if a == [] {
      assert a + b == b;
    } else {
      assert (a + b)[0] == a[0];
      assert (a + b)[1..] == a[1..] + b;
      GroupRequestsAppend(a[1..], b, g);
    }
  }

  /** Calls that never play sound group `g` add no requests for it. */
  lemma {:induction false} NoGroupRequests(log: seq<Call>, calls: seq<Call>, g: string)
    requires forall i :: 0 <= i < |calls| ==> !(calls[i].PlayGroup? && calls[i].group == g)
    ensures GroupRequests(log + calls, g) == GroupRequests(log, g)
  {
    GroupRequestsAppend(log, calls, g);
    NoneInCalls(calls, g);
  }

  lemma {:induction false} NoneInCalls(calls: seq<Call>, g: string)
    requires forall i :: 0 <= i < |calls| ==> !(calls[i].PlayGroup? && calls[i].group == g)
    ensures GroupRequests(calls, g) == 0
  {
    if calls != [] {
      NoneInCalls(calls[1..], g);
    }
  }

  /** One request for `g` adds exactly one. */
  lemma OneGroupRequest(log: seq<Call>, g: string, once: bool)
    ensures GroupRequests(log + [PlayGroup(g, once)], g) == GroupRequests(log, g) + 1
  {
    GroupRequestsAppend(log, [PlayGroup(g, once)], g);
    assert [PlayGroup(g, once)][1..] == [];
  }
}
