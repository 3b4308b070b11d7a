/**
 * One answered concept of the history page: the stored answer string holds the
 * typed answers separated by ';', and the marker "//audio response//" when the
 * answer was recorded.
 */
module AnsweredConcepts {
  import opened Common

  const AudioMarker: string := "//audio response//"

  /** containsAudio: the marker occurs anywhere in the answer. */
  predicate ContainsAudio(answer: string) {
    Contains(answer, AudioMarker)
  }

  /** processedText: the first marker removed, split on ';', each piece trimmed, empty pieces dropped. */
  function ProcessedText(answer: string): seq<string> {
    DropEmpty(TrimAll(Split(ReplaceFirst(answer, AudioMarker, ""), ';')))
  }

  /** hasAnswer: some typed answer remains, or there is a recording. */
  predicate HasAnswer(answer: string) {
    |ProcessedText(answer)| > 0 || ContainsAudio(answer)
  }

  /** Every processed item is non-empty, contains no ';' and has no whitespace at either end. */
  lemma ProcessedItemsTrimmed(answer: string)
    ensures forall x :: x in ProcessedText(answer) ==>
      x != [] && ';' !in x && !IsWhitespace(x[0]) && !IsWhitespace(x[|x| - 1])
  {
    var pieces := Split(ReplaceFirst(answer, AudioMarker, ""), ';');
    var trimmed := TrimAll(pieces);
    forall x | x in ProcessedText(answer)
      ensures x != [] && ';' !in x && !IsWhitespace(x[0]) && !IsWhitespace(x[|x| - 1])
    {
      var i :| 0 <= i < |trimmed| && trimmed[i] == x;
      TrimmedPiece(pieces[i]);
    }
  }

  lemma TrimmedPiece(p: string)
    requires ';' !in p
    ensures var t := Trim(p); ';' !in t && (t == [] || (!IsWhitespace(t[0]) && !IsWhitespace(t[|t| - 1])))
  {
    TrimEnds(p);
    TrimChars(p);
  }

  /** A character other than the separator is in a join exactly when it is in one of the parts. */
  lemma {:induction false} JoinMembers(parts: seq<string>, sep: char, c: char)
    requires c != sep
    ensures c in Join(parts, sep) <==> exists i :: 0 <= i < |parts| && c in parts[i]
  {
    if |parts| > 1 {
      JoinMembers(parts[1..], sep, c);
      if c in parts[0] {
        assert c in parts[0] + [sep] + Join(parts[1..], sep);
      }
      if exists i :: 0 <= i < |parts| - 1 && c in parts[1..][i] {
        var i :| 0 <= i < |parts| - 1 && c in parts[1..][i];
        assert c in parts[i + 1];
      }
      if exists i :: 0 <= i < |parts| && c in parts[i] {
        var i :| 0 <= i < |parts| && c in parts[i];
        if i > 0 {
          assert c in parts[1..][i - 1];
        }
      }
    }
  }

  /** A character that is neither whitespace nor the separator. */
  predicate Meaningful(c: char) {
    c != ';' && !IsWhitespace(c)
  }

  /** Dropping empties leaves something exactly when some piece trims to something. */
  lemma SomeItemIff(pieces: seq<string>)
    ensures |DropEmpty(TrimAll(pieces))| > 0 <==> exists i :: 0 <= i < |pieces| && !AllWhitespace(pieces[i])
  {
    var trimmed := TrimAll(pieces);
    if exists i :: 0 <= i < |pieces| && !AllWhitespace(pieces[i]) {
      var i :| 0 <= i < |pieces| && !AllWhitespace(pieces[i]);
      TrimEmptyIff(pieces[i]);
      assert trimmed[i] in trimmed;
    }
    if |DropEmpty(trimmed)| > 0 {
      var x := DropEmpty(trimmed)[0];
      var i :| 0 <= i < |trimmed| && trimmed[i] == x;
      TrimEmptyIff(pieces[i]);
    }
  }

  /** Some piece of the split is not all whitespace exactly when the string holds a meaningful character. */
  lemma SomePieceIff(answer: string)
    ensures var pieces := Split(answer, ';');
      (exists i :: 0 <= i < |pieces| && !AllWhitespace(pieces[i])) <==> exists c :: c in answer && Meaningful(c)
  {
    var pieces := Split(answer, ';');
    JoinSplit(answer, ';');
    if exists c :: c in answer && Meaningful(c) {
      var c :| c in answer && Meaningful(c);
      JoinMembers(pieces, ';', c);
      var i :| 0 <= i < |pieces| && c in pieces[i];
      var k :| 0 <= k < |pieces[i]| && pieces[i][k] == c;
      assert !IsWhitespace(pieces[i][k]);
    }
    if exists i :: 0 <= i < |pieces| && !AllWhitespace(pieces[i]) {
      var i :| 0 <= i < |pieces| && !AllWhitespace(pieces[i]);
      var k :| 0 <= k < |pieces[i]| && !IsWhitespace(pieces[i][k]);
      var c := pieces[i][k];
      assert c != ';';
      JoinMembers(pieces, ';', c);
      assert c in answer;
    }
  }

  /**
   * Without a recording, an answer counts as answered exactly when it holds a
   * character that is neither whitespace nor ';'.
   */
  lemma HasAnswerWithoutAudio(answer: string)
    requires !ContainsAudio(answer)
    ensures HasAnswer(answer) <==> exists c :: c in answer && Meaningful(c)
  {
    assert ReplaceFirst(answer, AudioMarker, "") == answer;
    SomeItemIff(Split(answer, ';'));
    SomePieceIff(answer);
  }

  lemma FirstMarkerRemoved(rest: string)
    ensures ReplaceFirst(AudioMarker + rest, AudioMarker, "") == rest
  {
    var s := AudioMarker + rest;
    assert s[..|AudioMarker|] == AudioMarker;
    assert OccursAt(s, AudioMarker, 0);
    assert s[|AudioMarker|..] == rest;
  }

  lemma MarkerTrimmed()
    ensures Trim(AudioMarker) == AudioMarker
  {
    assert !IsWhitespace(AudioMarker[0]) && !IsWhitespace(AudioMarker[|AudioMarker| - 1]);
    TrimUnchanged(AudioMarker);
  }

  lemma SplitAfterSeparator(m: string)
    requires ';' !in m
    ensures Split(";" + m, ';') == [[], m]
  {
    SplitWithoutSeparator(m, ';');
    assert (";" + m)[1..] == m;
  }

  lemma TrimKeeps(m: string)
    ensures DropEmpty(TrimAll([[], m])) == (if Trim(m) == [] then [] else [Trim(m)])
  {
    var a: seq<string> := [[], m];
    var b: seq<string> := [m];
    var none: seq<string> := [];
    assert a[1..] == b && b[1..] == none;
    assert TrimAll(b) == [Trim(m)];
    assert Trim([]) == [];
    assert TrimAll(a) == [[], Trim(m)];
    var t: seq<string> := [Trim(m)];
    assert t[1..] == none;
  }

  /**
   * Only the first marker is removed: a recording followed by one typed answer
   * without ';' shows that answer trimmed, or nothing when it is blank, even
   * when the typed text is the marker itself.
   */
  lemma TypedAfterRecording(m: string)
    requires ';' !in m
    ensures ProcessedText(AudioMarker + ";" + m) == (if Trim(m) == [] then [] else [Trim(m)])
  {
    var rest := ";" + m;
    FirstMarkerRemoved(rest);
    assert AudioMarker + ";" + m == AudioMarker + rest;
    SplitAfterSeparator(m);
    TrimKeeps(m);
  }

  /** The instance of TypedAfterRecording where the typed answer is a second marker. */
  lemma SecondMarkerSurvives()
    ensures ProcessedText(AudioMarker + ";" + AudioMarker) == [AudioMarker]
  {
    TypedAfterRecording(AudioMarker);
    MarkerTrimmed();
  }

  /** A line of the answer box. */
  datatype Line = AnswerLine(text: string) | AudioNote | NoAnswerNote

  /** The typed answers as lines, one per answer, in order. */
  function TextLines(items: seq<string>): (r: seq<Line>)
    ensures |r| == |items|
    ensures forall i :: 0 <= i < |r| ==> r[i] == AnswerLine(items[i])
    ensures forall x :: AnswerLine(x) in r <==> x in items
    ensures AudioNote !in r && NoAnswerNote !in r
  {
    if items == [] then [] else [AnswerLine(items[0])] + TextLines(items[1..])
  }

  /** The answer box for given typed answers and recording flag. */
  function AnswerBox(items: seq<string>, audio: bool): (r: seq<Line>)
    ensures NoAnswerNote in r <==> items == [] && !audio
    ensures AudioNote in r <==> audio
    ensures forall x :: AnswerLine(x) in r <==> x in items
    ensures |items| <= |r| && r[..|items|] == TextLines(items)
    ensures audio ==> r[|r| - 1] == AudioNote
    ensures |r| == (if items == [] then 1 else |items| + (if audio then 1 else 0))
  {
    if |items| > 0 then TextLines(items) + (if audio then [AudioNote] else [])
    else if audio then [AudioNote]
    else [NoAnswerNote]
  }

  /** The answer box: the typed answers, then the recording note; with neither, the no-answer note. */
  function AnswerLines(answer: string): (r: seq<Line>)
    ensures NoAnswerNote in r <==> !HasAnswer(answer)
    ensures AudioNote in r <==> ContainsAudio(answer)
    ensures forall x :: AnswerLine(x) in r <==> x in ProcessedText(answer)
  {
    AnswerBox(ProcessedText(answer), ContainsAudio(answer))
  }

  /** The request for a recorded answer, written to the contact collection under `issueId`. */
  datatype AudioRequest = AudioRequest(issueId: string, userId: string, conceptId: string, date: string, message: string)

  const RequestMessagePrefix: string := "Audio file requested for concept "

  /**
   * requestAudioFile: nothing without a user; otherwise one request whose id
   * joins the user, the concept and the time (`now` stands for Date.now() and
   * `dateText` for the local date text).
   */
  function RequestAudioFile(user: Option<string>, conceptId: string, now: nat, dateText: string): (r: Option<AudioRequest>)
    ensures r.None? <==> user.None?
    ensures r.Some? ==>
      && r.value.userId == user.value && r.value.conceptId == conceptId && r.value.date == dateText
      && r.value.message == RequestMessagePrefix + conceptId
      && var head := "CONCEPT_" + user.value + "_" + conceptId + "_";
         |head| < |r.value.issueId| && r.value.issueId[..|head|] == head
         && AllDigits(r.value.issueId[|head|..]) && DigitsValue(r.value.issueId[|head|..]) == now
  {
    match user
    case None => None
    case Some(uid) =>
      var head := "CONCEPT_" + uid + "_" + conceptId + "_";
      var id := head + Decimal(now);
      assert id[|head|..] == Decimal(now);
      DecimalValue(now);
      Some(AudioRequest(id, uid, conceptId, dateText, RequestMessagePrefix + conceptId))
  }

  /** Two requests for the same user and concept at different times get different ids. */
  lemma RequestIdsDifferInTime(uid: string, conceptId: string, t1: nat, t2: nat, d1: string, d2: string)
    requires t1 != t2
    ensures RequestAudioFile(Some(uid), conceptId, t1, d1).value.issueId
         != RequestAudioFile(Some(uid), conceptId, t2, d2).value.issueId
  {
  }

  /** The request button is offered exactly for recorded answers. */
  predicate ShowsRequestButton(answer: string) {
    ContainsAudio(answer)
  }

  /**
   * The request button appears exactly in the boxes that show the recording
   * note, and only for concepts the history page displays.
   */
  lemma RequestButtonWithAudioNote(answer: string)
    ensures ShowsRequestButton(answer) <==> AudioNote in AnswerLines(answer)
    ensures ShowsRequestButton(answer) ==> HasAnswer(answer)
  {
  }
}
